# Cooperative loan store — verified model

This project models the core of a cooperative's loan-management server.
Cooperatives are organizations; each has members who take loans and repay
them month by month. Members also pay monthly contributions, and the
cooperative records a yearly profit.

The core is the in-memory store `MemStorage`. It keeps six id-keyed tables:
organizations, members, loans, repayments, monthly contributions and profits.
Each table has its own id counter. Around the store sit:

- the decision logic of the HTTP handlers: login, the loan status change,
  the repayment post, the list routes' choice of query, and password
  stripping;
- the entity shapes they share.

Files:

- `wrappers.dfy`: the `Option` type.
- `tables.dfy`: the JavaScript array idioms the store is written in,
  applied to a table (`Array.from(map.values())`, `filter`, `map`, `find`,
  `some`, a summing `reduce`). Lemmas tie each one to a definition over the
  table's key set.
- `schema.dfy`: rows, insert shapes, partial-update shapes, joined read
  shapes and declared defaults, from shared/schema.ts.
- `storage.dfy`: the class `MemStorage` from server/storage.ts.
- `routes.dfy`: the handler logic from server/routes.ts.

## Modelling choices

- **Tables and their order.** Each JavaScript `Map` is a field of type
  `map<Id, Row>`. Ids are handed out in increasing order, so map insertion
  order is ascending id order. A listing is therefore the values in key
  order, from 1 up to the table's counter.
- **The store invariant.** `MemStorage.Valid()` says every row is stored
  under its own `id`, and below its table's counter. Every operation
  preserves it.
- **The balance invariants.** Two invariants on loan balances are stated
  as conditions each operation keeps:
  - `BalancesNonNegative`: no balance is negative.
  - `BalancesWithinTotal`: every balance lies in [0, `totalAmount`].

  The source does not enforce either one. Each write states when it keeps
  them (see "## Left out").
- **Money and rates.** Money is exact integer cents, because every
  money column is `decimal(10, 2)`. Rates are hundredths of a percent
  (`decimal(5, 2)`). The source's `parseFloat`/`toFixed` round trips
  therefore become exact arithmetic.
- **Timestamps** (`new Date()`) are a parameter called `now`.
- **The amortization formula** of `createLoan` is a function value the
  store is constructed with (`amortize`). The model only records that
  `monthlyPayment` and `totalAmount` come from it.
- **Declared defaults are not applied by the store, as the code shows.**
  The default `isActive: true` and `status: "pending"` hold in the database
  schema. The insert schemas leave defaulted columns optional and do not
  fill them in, and `MemStorage` spreads the parsed object as it is. So a
  stored member may lack its flags, and a stored loan may lack its status.
  The model keeps those columns optional (`Flag = Option<bool>`, `status:
  Option<string>`), and every reader tests them the way the source does, by
  truthiness or by `===`.
  - A member created without `isActive` is therefore not counted as active,
    and cannot log in.
  - A loan created without `status` counts as neither pending nor active.
  - The declared defaults themselves are `Schema.WithMemberDefaults` and
    `Schema.WithLoanDefaults`.
- **Dangling references.** There is no cascade on delete.
  - `getLoans` embeds an empty member object when a loan's member is gone.
    `LoanRow.member` is then `None`.
  - `getRepayments` does the same for a missing loan. `RepaymentRow.loan`
    is then `None`.
- **The `find(...)!` lookups** of `getLoansByOrganization` and
  `getRepaymentsByMember` follow the source: an id list, `includes`, then
  `find` over the filtered list. The lemmas `OrganizationLoans` and
  `MemberRepayments` prove that the `!` never fails, and that what it finds
  is the row stored under the referenced id.
- **Query parameters** arrive already parsed. `None` stands for an absent
  or empty parameter, which JavaScript treats as falsy.

## Model

| member | source | states |
|---|---|---|
| Storage.MemStorage.constructor | server/storage.ts:91-118 | all tables start empty and every counter at 1; the super administrator with the fixed name, email, password, no organization and all four flags true is then created, so it is member 1 and the member counter is 2 |
| Storage.MemStorage.CreateOrganization | server/storage.ts:129-138 | the new id is the counter's old value, and the counter goes up by one; the row holds the submitted columns and `createdAt = now`; exactly that key is added, and it is above every existing key |
| Storage.MemStorage.UpdateOrganization | server/storage.ts:140-147 | an absent id gives nothing and changes nothing; a present id stores `{...existing, ...patch}` under the same key and returns it |
| Storage.MemStorage.DeleteOrganization | server/storage.ts:149-151 | true iff the id was present; only that key is removed |
| Storage.MemStorage.GetOrganizations | server/storage.ts:121-123 | every organization exactly once, in ascending id order |
| Storage.MemStorage.GetOrganization | server/storage.ts:125-127 | present iff the id is stored, and then the row stored under it |
| Storage.MemStorage.CreateMember | server/storage.ts:198-207 | id taken from the counter, which goes up by one; the row holds the submitted columns as given (no defaults) and `joinDate = now`; exactly one key added |
| Storage.MemStorage.UpdateMember | server/storage.ts:209-216 | an absent id gives nothing and changes nothing; otherwise the spread patch is stored under the same key, keeping id and join date |
| Storage.MemStorage.DeleteMember | server/storage.ts:218-220 | true iff the id was present; only that key is removed; loans referring to it stay |
| Storage.WithOrganization | server/storage.ts:157-161 | the member unchanged, with an organization iff its `organizationId` is truthy and names a stored organization, and then that organization |
| Storage.EmbedsOrganizationIffSet | server/storage.ts:157-161 | when no organization has id 0 (guaranteed by the store invariant), the truthiness test only asks whether `organizationId` is set |
| Storage.MemStorage.GetMembers | server/storage.ts:154-162 | every member exactly once, in id order, each with its organization embedded as `WithOrganization` says |
| Storage.MemStorage.GetMember | server/storage.ts:164-174 | present iff the id is stored, and then that member with its organization |
| Storage.MemStorage.GetMemberByEmail | server/storage.ts:176-186 | nothing iff no member has the email; otherwise the stored member with that email and the lowest id, with its organization |
| Storage.MemStorage.GetMembersByOrganization | server/storage.ts:188-196 | exactly the members whose `organizationId` equals the id, once each, in id order; each one embeds the organization stored under that id, looked up with no truthiness test |
| Storage.LoanRowOf | server/storage.ts:225-236 | the loan unchanged, with its member (and that member's organization) iff the member is stored |
| Storage.MemStorage.GetLoans | server/storage.ts:223-238 | every loan exactly once, in id order, each joined as `LoanRowOf` says |
| Storage.MemStorage.GetLoan | server/storage.ts:240-258 | present iff the loan and its member are both stored; then the loan and its member, with the organization embedded as `WithOrganization` says |
| Storage.MemStorage.GetLoansByMember | server/storage.ts:260-278 | no loans at all when the member is missing; otherwise exactly that member's loans, once each, in id order, each embedding the member with its organization |
| Storage.MemStorage.GetLoansByOrganization | server/storage.ts:280-299 | exactly the loans whose stored member belongs to the organization, once each, in id order; each embeds the member stored under the loan's `memberId` and the organization |
| Storage.MemStorage.OrganizationLoans | server/storage.ts:280-299 | the `includes` filter over the organization's member ids keeps exactly the loans whose stored member is in the organization; `find` on the member list then always succeeds and yields the member stored under `memberId` |
| Storage.MemStorage.CreateLoan | server/storage.ts:301-323 | id from the counter; the caller's member, terms, purpose and status are kept; `remainingBalance` equals the principal; `startDate` is empty; payment and total come from the amortization; exactly one key added; non-negative balances stay non-negative for a non-negative principal, and balances within [0, total] stay so when the principal lies within the amortized total |
| Storage.MemStorage.UpdateLoan | server/storage.ts:325-332 | an absent id gives nothing and changes nothing; otherwise the spread patch is stored under the same key; balances stay non-negative and within [0, total], since a patch writes neither column |
| Storage.PatchLoan | server/storage.ts:325-332 | `{...existing, ...patch}`: each supplied column among `memberId`, `amount`, `interestRate`, `termMonths`, `purpose`, `status` and `startDate` takes the supplied value and each omitted one keeps its old value; id, `createdAt`, `remainingBalance`, `monthlyPayment` and `totalAmount` are kept, so an update never recomputes the derived columns; an empty patch changes nothing |
| Storage.PatchOrganization | server/storage.ts:140-147 | `{...existing, ...patch}`: a supplied `name` or `createdBy` takes the supplied value, an omitted one keeps its old value; the id and `createdAt` are kept; an empty patch changes nothing |
| Storage.PatchMember | server/storage.ts:209-216 | `{...existing, ...patch}`: each of the eight insert columns (name, email, password, `organizationId`, where an explicit null clears it, and the four flags) takes the supplied value when supplied and keeps its old value otherwise; the id and `joinDate` are kept; an empty patch changes nothing |
| Storage.MemStorage.DeleteLoan | server/storage.ts:334-336 | true iff the id was present; only that key is removed; its repayments stay; both balance invariants are kept |
| Storage.MemStorage.GetRepayments | server/storage.ts:339-361 | every repayment exactly once, in id order; each has its loan iff that loan is stored, and the loan then has its member iff that member is stored |
| Storage.MemStorage.GetRepayment | server/storage.ts:363-389 | present iff the repayment, its loan and the loan's member are all stored; then the repayment with its loan joined as `GetLoan` joins it |
| Storage.MemStorage.GetRepaymentsByLoan | server/storage.ts:391-394 | exactly the repayments of that loan, once each, in id order |
| Storage.MemStorage.GetRepaymentsByMember | server/storage.ts:396-425 | nothing when the member is missing; otherwise exactly the repayments of the member's stored loans, once each, in id order, each embedding the loan stored under its `loanId` and the member |
| Storage.MemStorage.MemberRepayments | server/storage.ts:396-425 | the `includes` filter over the member's loan ids keeps exactly the repayments of the member's loans; `find` on the loan list then always succeeds and yields the loan stored under `loanId` |
| Storage.RepaidBalance | server/storage.ts:436-441 | the new balance is never negative; it equals old − amount when the amount does not exceed the balance, and 0 when it does; for a non-negative amount and balance it never exceeds the old balance |
| Storage.MemStorage.CreateRepayment | server/storage.ts:427-448 | id from the counter; exactly one repayment is added with `paidAt = now`; if the loan is stored, only its `remainingBalance` changes, to `RepaidBalance`; if it is not, no loan changes; non-negative balances stay non-negative; balances within [0, total] stay so for a non-negative amount; unique (loan, month) pairs stay unique when the month had no repayment |
| Storage.MemStorage.CheckMonthlyRepaymentExists | server/storage.ts:450-453 | true iff some stored repayment has this loan id and this payment month |
| Storage.MemStorage.GetContributions | server/storage.ts:456-458 | every contribution exactly once, in id order |
| Storage.MemStorage.GetContributionsByMember | server/storage.ts:460-463 | exactly that member's contributions, in id order |
| Storage.MemStorage.GetContributionsByMonth | server/storage.ts:465-468 | exactly that month's contributions, in id order |
| Storage.MemStorage.CreateContribution | server/storage.ts:470-480 | id from the counter; submitted columns and `paidAt = now`; exactly one key added |
| Storage.MemStorage.GetProfits | server/storage.ts:482-484 | every profit record exactly once, in id order |
| Storage.MemStorage.GetProfitByYear | server/storage.ts:486-488 | nothing iff no record has that year; otherwise the stored record for that year with the lowest id |
| Storage.MemStorage.CreateProfit | server/storage.ts:490-499 | id from the counter; submitted columns and `calculationDate = now`; exactly one key added |
| Storage.MemStorage.GetStatistics | server/storage.ts:502-535 | organizations counted; members with a truthy `isActive` counted; loans with status "active" and with status "pending" counted; the active loans' remaining balances summed; every profit total summed; overdue payments are 0; the function reads and changes nothing |
| Storage.MemStorage.CountActiveMembers | server/storage.ts:512 | the length of the filtered member list equals the number of stored members whose `isActive` is true |
| Storage.MemStorage.CountLoans | server/storage.ts:513-514 | the length of a filtered loan list equals the number of stored loans satisfying the filter |
| Storage.MemStorage.ActiveLoanAmount | server/storage.ts:516-518 | the `reduce` over the active loans equals the sum of `remainingBalance` over the keys of the active loans |
| Storage.MemStorage.TotalProfit | server/storage.ts:520-521 | the `reduce` over all profit rows equals the sum of `totalProfit` over every key |
| Storage.RepaymentLowersActiveLoanAmount | server/storage.ts:436-443 | the balance write of a repayment lowers the statistics' active loan amount by exactly what it took off an active loan, and leaves it alone for a loan that is not active |
| Schema.WithMemberDefaults | shared/schema.ts:18-21 | the declared member defaults: `isAdmin`, `canAddMembers` and `isSuperAdmin` false and `isActive` true when not supplied; each supplied flag, and every other column, is kept |
| Schema.WithLoanDefaults | shared/schema.ts:35 | the declared loan default: status "pending" when not supplied; a supplied status is kept |
| Routes.WithoutPassword | server/routes.ts:139-141 | every member column but the password; putting any password back gives the member with that password, so the result carries no trace of it |
| Routes.WithoutPasswordJoined | server/routes.ts:156-157 | a joined member stripped of its password, organization unchanged |
| Routes.ListMembers | server/routes.ts:128-145 | by organization when `organizationId` is given, otherwise every member, each stripped of its password |
| Routes.ListMembersIgnoresPasswords | server/routes.ts:139-141 | two stores whose members differ only in passwords give the same member list, so no password reaches it |
| Routes.GetMemberRoute | server/routes.ts:147-161 | nothing (404) iff the id is unknown; otherwise that member with its organization, stripped |
| Routes.PostMember | server/routes.ts:163-175 | the member the store created, stripped; putting the submitted password back gives the stored row |
| Routes.PutMember | server/routes.ts:177-195 | nothing and no change for an unknown id; otherwise the store's update, returned stripped |
| Routes.Decimal | server/routes.ts:38 | the template's rendering of a member id: at least one decimal digit, with no leading zero |
| Routes.Token | server/routes.ts:38 | the token is `fake-jwt-token-` followed by decimal digits that read back as the member's id |
| Routes.DecimalRoundTrip | server/routes.ts:38 | reading back the decimal digits of a member id gives the id |
| Routes.TokenInjective | server/routes.ts:38 | two members get the same token iff they have the same id |
| Routes.Login | server/routes.ts:16-43 | 400 iff email or password is missing or empty; 401 "invalid" iff the first member with that email does not exist or has a different password; 401 "inactive" iff it matches but `isActive` is not true; otherwise that member with its organization and without its password, and the token for its id; the status code is 400, 401 or 200 accordingly |
| Routes.StatusPatch | server/routes.ts:304-307 | the update holds the new status, and `startDate = now` when the status is "active" and no start date otherwise; no other column |
| Routes.PatchLoanStatus | server/routes.ts:295-319 | 400 and no change iff the status is not approved, rejected or active; otherwise 404 and no change iff the loan is unknown; otherwise only the status is written, plus `startDate = now` for "active", whatever the loan's current status, with code 200; both balance invariants are kept |
| Routes.PostRepayment | server/routes.ts:341-363 | 400 iff a repayment for the same loan and month is already stored, and then the repayments, the balances and the counters are unchanged; otherwise exactly the store's repayment write; either way unique (loan, month) pairs stay unique, balances stay non-negative, and balances within [0, total] stay so for a non-negative amount; the code is 400 or 201 accordingly |
| Routes.ListLoans | server/routes.ts:213-230 | with `memberId`, that member's loans (none if the member is missing), whatever `organizationId` says; otherwise with `organizationId`, the loans of that organization's members; otherwise every loan; each in id order, with the member, the organization or the `LoanRowOf` join the store embeds |
| Routes.ListRepayments | server/routes.ts:322-339 | with `loanId`, that loan's repayments; otherwise with `memberId`, that member's repayments (none if the member is missing); otherwise every repayment; each in id order, with the stored loan and member (or the optional loan row) the store embeds |
| Routes.ListContributions | server/routes.ts:366-383 | with `memberId`, that member's contributions; otherwise with a non-empty `month`, that month's; otherwise all; each in id order |
| Routes.ListProfits | server/routes.ts:399-415 | with a year, at most one record: the lowest-id record for that year, or none iff there is no such record; otherwise every record in id order |

## Left out

- The amortization formula of `createLoan` (server/storage.ts:304-309) is
  binary floating point with `Math.pow` and `toFixed`. It has no zero-rate
  case: a rate of 0 gives NaN. The store takes it as an uninterpreted
  function instead.
- Float parsing and formatting (`parseFloat`, `toFixed`) in
  `createRepayment` and `getStatistics` are exact cent arithmetic here. Any
  rounding of large float sums is not modelled.
- `Storage.MemStorage.CreateRepayment`: a balance within [0, total] is
  kept only for a non-negative amount. The route accepts a negative amount,
  which raises the balance, possibly above the total.
- `Storage.MemStorage.CreateLoan`: a balance within [0, total] is kept only
  when the principal lies within the amortized total. The total comes from
  an uninterpreted formula, and in the source a zero rate makes it NaN.
- `Storage.MemStorage.GetStatistics`: the totals are exact sums of cents
  rather than float sums, and they are stated as sums over key sets.
- Express routing, HTTP status plumbing, request-body parsing, zod
  validation and its 400 "Validation error" responses, and the 500 catch
  paths: validated input arrives well-typed. The login body is not
  validated in the source, so its `email` and `password` are taken to be
  strings or absent. A non-string value is not modelled: a truthy one
  would reach the lookup and a falsy one would get 400.
- `parseInt` on path and query parameters, including a NaN from a
  non-numeric parameter: ids arrive as integers.
- The remaining thin routes only call the store operation modelled above
  and pass its result on: the statistics route, the organization routes,
  `GET /api/loans/:id`, `POST` and `PUT /api/loans/...`, the member, loan
  and organization deletes, and `POST /api/contributions` and
  `POST /api/profits`. The get-by-id, update and delete routes among them
  answer 404 when the store returns nothing or false; the others have no
  404 case.
- Email uniqueness is declared by the schema but not enforced by the
  store, so it is not an invariant here. `Storage.MemStorage.GetMemberByEmail`
  picks the lowest id.
- The YYYY-MM format and 7-character length of `paymentMonth` and `month`
  are column declarations that the store does not check. Month tokens are
  arbitrary strings here.
- `async`/`Promise`: every operation runs to completion on its own.
- Clocks: every timestamp is the parameter `now`.
- The client application (pages, components, local-storage authentication)
  is not part of this model.
