/** The decision logic of the HTTP handlers in server/routes.ts, composed
    with the store: login, the loan status change, the repayment post, the
    query-parameter dispatch of the list routes and the password stripping
    of member responses.  Request parsing is outside the model: a query
    parameter arrives as `None` when it is absent or empty (JavaScript
    falsy) and as its parsed value otherwise; a body field arrives as
    `None` when it is missing. */
module Routes {
  import opened Wrappers
  import opened Tables
  import opened Schema
  import opened Storage

  // ---- Password stripping: `const { password, ...rest } = member`

  /** A member without its password column. */
  datatype PublicMember = PublicMember(
    id: Id,
    name: string,
    email: string,
    organizationId: Option<Id>,
    isAdmin: Flag,
    canAddMembers: Flag,
    isSuperAdmin: Flag,
    isActive: Flag,
    joinDate: Timestamp)

  /** A joined member without its password column. */
  datatype PublicMemberWithOrganization = PublicMemberWithOrganization(
    member: PublicMember,
    organization: Option<Organization>)

  /** Puts a password back: the inverse of WithoutPassword. */
  function WithPassword(m: PublicMember, password: string): Member
  {
    Member(m.id, m.name, m.email, password, m.organizationId,
           m.isAdmin, m.canAddMembers, m.isSuperAdmin, m.isActive, m.joinDate)
  }

  /** Every column but the password, unchanged. */
  function WithoutPassword(m: Member): (r: PublicMember)
    ensures WithPassword(r, m.password) == m
    ensures forall password: string :: WithPassword(r, password) == m.(password := password)
  {
    PublicMember(m.id, m.name, m.email, m.organizationId,
                 m.isAdmin, m.canAddMembers, m.isSuperAdmin, m.isActive, m.joinDate)
  }

  function WithoutPasswordJoined(m: MemberWithOrganization): (r: PublicMemberWithOrganization)
    ensures WithPassword(r.member, m.member.password) == m.member
    ensures r.organization == m.organization
  {
    PublicMemberWithOrganization(WithoutPassword(m.member), m.organization)
  }

  /** Two member tables that differ at most in passwords. */
  ghost predicate SamePublicMembers(a: map<Id, Member>, b: map<Id, Member>)
  {
    a.Keys == b.Keys && forall k :: k in a ==> WithoutPassword(a[k]) == WithoutPassword(b[k])
  }

  // ---- Login: POST /api/auth/login

  /** Decimal digits of a natural number, without leading zeros. */
  function Decimal(n: nat): (s: string)
    ensures |s| >= 1
    ensures forall i :: 0 <= i < |s| ==> '0' <= s[i] <= '9'
    ensures n >= 10 ==> s[0] != '0'
    decreases n
  {
    var digit := ['0' + ((n % 10) as char)];
    if n < 10 then digit else Decimal(n / 10) + digit
  }

  /** The number a string of decimal digits denotes. */
  function DecimalValue(s: string): nat
    requires forall i :: 0 <= i < |s| ==> '0' <= s[i] <= '9'
  {
    if s == [] then 0 else 10 * DecimalValue(s[..|s| - 1]) + ((s[|s| - 1] - '0') as nat)
  }

  lemma {:induction false} DecimalRoundTrip(n: nat)
    ensures DecimalValue(Decimal(n)) == n
    decreases n
  {
    var s := Decimal(n);
    if n >= 10 {
      DecimalRoundTrip(n / 10);
      assert s[..|s| - 1] == Decimal(n / 10);
    } else {
      assert s[..|s| - 1] == [];
    }
  }

  const TokenPrefix: string := "fake-jwt-token-"

  /** The placeholder session token: the prefix, then the member id in
      decimal, which reads back as the id. */
  function Token(id: nat): (t: string)
    ensures |t| > |TokenPrefix| && t[..|TokenPrefix|] == TokenPrefix
    ensures forall i :: |TokenPrefix| <= i < |t| ==> '0' <= t[i] <= '9'
    ensures DecimalValue(t[|TokenPrefix|..]) == id
  {
    var digits := Decimal(id);
    DecimalRoundTrip(id);
    assert (TokenPrefix + digits)[|TokenPrefix|..] == digits;
    TokenPrefix + digits
  }

  /** Different members get different tokens. */
  lemma TokenInjective(a: nat, b: nat)
    ensures Token(a) == Token(b) <==> a == b
  {
    if Token(a) == Token(b) {
      assert Token(a)[|TokenPrefix|..] == Decimal(a);
      assert Token(b)[|TokenPrefix|..] == Decimal(b);
      DecimalRoundTrip(a);
      DecimalRoundTrip(b);
    }
  }

  /** A truthy body field: present and not the empty string. */
  predicate Present(field: Option<string>)
  {
    field.Some? && field.value != ""
  }

  /** The member a login with this email looks at: the first one, in id
      order, with that email. */
  ghost predicate SignsInAs(members: map<Id, Member>, email: string, k: Id)
  {
    k in members && members[k].email == email &&
    forall j :: j in members && j < k ==> members[j].email != email
  }

  /** At most one member is the one a login looks at, and it is the one
      `getMemberByEmail` finds. */
  lemma SignInLookup(store: MemStorage, email: string)
    requires store.Valid()
    ensures var found := store.GetMemberByEmail(email);
            (found.None? ==> forall k :: !SignsInAs(store.members, email, k)) &&
            (found.Some? ==> forall k :: SignsInAs(store.members, email, k) <==> k == found.value.member.id)
  {
  }

  datatype LoginResponse =
    | MissingCredentials
    | InvalidCredentials
    | AccountInactive
    | LoggedIn(user: PublicMemberWithOrganization, token: string)

  function LoginStatusCode(r: LoginResponse): int
  {
    match r
    case MissingCredentials => 400
    case InvalidCredentials => 401
    case AccountInactive => 401
    case LoggedIn(_, _) => 200
  }

  /** Missing or empty credentials are refused first; then an unknown email
      and a wrong password are refused alike; then an inactive account;
      otherwise the member, without its password, and its token. */
  function Login(store: MemStorage, email: Option<string>, password: Option<string>): (r: LoginResponse)
    reads store
    requires store.Valid()
    ensures r.MissingCredentials? <==> !Present(email) || !Present(password)
    ensures LoginStatusCode(r) == 400 <==> !Present(email) || !Present(password)
    ensures LoginStatusCode(r) == 401 <==> r.InvalidCredentials? || r.AccountInactive?
    ensures LoginStatusCode(r) == 200 <==> r.LoggedIn?
    ensures r.InvalidCredentials? <==>
              Present(email) && Present(password) &&
              !exists k :: SignsInAs(store.members, email.value, k) && store.members[k].password == password.value
    ensures r.AccountInactive? <==>
              Present(email) && Present(password) &&
              exists k :: SignsInAs(store.members, email.value, k) && store.members[k].password == password.value &&
                          !IsSet(store.members[k].isActive)
    ensures r.LoggedIn? ==>
              var k := r.user.member.id;
              SignsInAs(store.members, email.value, k) && store.members[k].password == password.value &&
              IsSet(store.members[k].isActive) && k >= 1 &&
              r.user == WithoutPasswordJoined(WithOrganization(store.members[k], store.organizations)) &&
              r.token == Token(k)
  {
    if !Present(email) || !Present(password) then MissingCredentials
    else
      SignInLookup(store, email.value);
      match store.GetMemberByEmail(email.value)
      case None => InvalidCredentials
      case Some(found) =>
        var m := found.member;
        if m.password != password.value then InvalidCredentials
        else if !IsSet(m.isActive) then AccountInactive
        else LoggedIn(WithoutPasswordJoined(found), Token(m.id))
  }

  // ---- PATCH /api/loans/:id/status

  /** The statuses the route accepts; the current status is not looked at,
      so every transition between them, and from any other status, is
      allowed. */
  predicate AllowedStatus(status: Option<string>)
  {
    status == Some("approved") || status == Some("rejected") || status == Some("active")
  }

  /** The update the route sends: the status, plus the start date when the
      loan becomes active. */
  function StatusPatch(status: string, now: Timestamp): (p: LoanPatch)
    ensures p.status == Some(status)
    ensures p.startDate == (if status == "active" then Some(now) else None)
    ensures p.memberId.None? && p.amount.None? && p.interestRate.None? && p.termMonths.None? && p.purpose.None?
  {
    LoanPatch(None, None, None, None, None, Some(status), if status == "active" then Some(now) else None)
  }

  datatype StatusResponse = InvalidStatus | LoanNotFound | StatusChanged(loan: Loan)

  function StatusResponseCode(r: StatusResponse): int
  {
    match r
    case InvalidStatus => 400
    case LoanNotFound => 404
    case StatusChanged(_) => 200
  }

  method PatchLoanStatus(store: MemStorage, id: Id, status: Option<string>, now: Timestamp) returns (r: StatusResponse)
    requires store.Valid()
    modifies store`loans
    ensures store.Valid()
    ensures r.InvalidStatus? <==> !AllowedStatus(status)
    ensures r.LoanNotFound? <==> AllowedStatus(status) && id !in old(store.loans)
    ensures StatusResponseCode(r) == 400 <==> !AllowedStatus(status)
    ensures StatusResponseCode(r) == 404 <==> AllowedStatus(status) && id !in old(store.loans)
    ensures StatusResponseCode(r) == 200 <==> r.StatusChanged?
    ensures !r.StatusChanged? ==> store.loans == old(store.loans)
    ensures r.StatusChanged? ==>
              var before := old(store.loans)[id];
              id in old(store.loans) &&
              r.loan == before.(status := status,
                                startDate := if status == Some("active") then Some(now) else before.startDate) &&
              store.loans == old(store.loans)[id := r.loan]
    ensures old(store.BalancesNonNegative()) ==> store.BalancesNonNegative()
    ensures old(store.BalancesWithinTotal()) ==> store.BalancesWithinTotal()
  {
    if !AllowedStatus(status) {
      return InvalidStatus;
    }
    var updated := store.UpdateLoan(id, StatusPatch(status.value, now));
    if updated.None? {
      return LoanNotFound;
    }
    r := StatusChanged(updated.value);
  }

  // ---- POST /api/repayments

  datatype RepaymentResponse = DuplicateMonth | RepaymentCreated(repayment: Repayment)

  function RepaymentResponseCode(r: RepaymentResponse): int
  {
    match r
    case DuplicateMonth => 400
    case RepaymentCreated(_) => 201
  }

  /** A second repayment for the same loan and month is refused and changes
      nothing; otherwise the store records the repayment.  Every repayment
      made through this route thus keeps the (loan, month) pairs distinct. */
  method PostRepayment(store: MemStorage, ins: InsertRepayment, now: Timestamp) returns (r: RepaymentResponse)
    requires store.Valid()
    modifies store`repayments, store`loans, store`currentId
    ensures store.Valid()
    ensures r.DuplicateMonth? <==> old(store.CheckMonthlyRepaymentExists(ins.loanId, ins.paymentMonth))
    ensures RepaymentResponseCode(r) == 400 <==> old(store.CheckMonthlyRepaymentExists(ins.loanId, ins.paymentMonth))
    ensures RepaymentResponseCode(r) == 201 <==> r.RepaymentCreated?
    ensures r.DuplicateMonth? ==>
              store.repayments == old(store.repayments) && store.loans == old(store.loans) &&
              store.currentId == old(store.currentId)
    ensures r.RepaymentCreated? ==>
              var rp := r.repayment;
              rp.id == old(store.currentId.repayments) && RepaymentFields(rp) == ins && rp.paidAt == now &&
              store.repayments == old(store.repayments)[rp.id := rp] &&
              store.currentId == old(store.currentId).(repayments := rp.id + 1) &&
              (ins.loanId !in old(store.loans) ==> store.loans == old(store.loans)) &&
              (ins.loanId in old(store.loans) ==>
                 store.loans == old(store.loans)[ins.loanId := old(store.loans)[ins.loanId].(
                   remainingBalance := RepaidBalance(old(store.loans)[ins.loanId].remainingBalance, ins.amount))])
    ensures old(store.UniqueRepaymentMonths()) ==> store.UniqueRepaymentMonths()
    ensures old(store.BalancesNonNegative()) ==> store.BalancesNonNegative()
    ensures old(store.BalancesWithinTotal()) && ins.amount >= 0 ==> store.BalancesWithinTotal()
  {
    var monthExists := store.CheckMonthlyRepaymentExists(ins.loanId, ins.paymentMonth);
    if monthExists {
      return DuplicateMonth;
    }
    var created := store.CreateRepayment(ins, now);
    r := RepaymentCreated(created);
  }

  // ---- Member routes

  /** GET /api/members: by organization when `organizationId` is given,
      otherwise every member; passwords stripped. */
  function ListMembers(store: MemStorage, organizationId: Option<Id>): (r: seq<PublicMemberWithOrganization>)
    reads store
    requires store.Valid()
    ensures organizationId.Some? ==>
              var rows := store.GetMembersByOrganization(organizationId.value);
              |r| == |rows| && forall i :: 0 <= i < |r| ==> r[i] == WithoutPasswordJoined(rows[i])
    ensures organizationId.None? ==>
              var rows := store.GetMembers();
              |r| == |rows| && forall i :: 0 <= i < |r| ==> r[i] == WithoutPasswordJoined(rows[i])
  {
    var rows := if organizationId.Some? then store.GetMembersByOrganization(organizationId.value)
                else store.GetMembers();
    Map(rows, WithoutPasswordJoined)
  }

  /** The member list does not depend on any password: two stores whose
      members differ only in passwords list the same thing. */
  lemma ListMembersIgnoresPasswords(a: MemStorage, b: MemStorage, organizationId: Option<Id>)
    requires a.Valid() && b.Valid()
    requires a.organizations == b.organizations && a.currentId.members == b.currentId.members
    requires SamePublicMembers(a.members, b.members)
    ensures ListMembers(a, organizationId) == ListMembers(b, organizationId)
  {
    if organizationId.Some? {
      OrganizationMembersIgnorePasswords(a, b, organizationId.value);
    } else {
      AllMembersIgnorePasswords(a, b);
    }
  }

  /** Two members with the same public columns are the same but for the
      password. */
  lemma SamePublicColumns(x: Member, y: Member)
    requires WithoutPassword(x) == WithoutPassword(y)
    ensures y == x.(password := y.password)
  {
  }

  lemma OrganizationMembersIgnorePasswords(a: MemStorage, b: MemStorage, organizationId: Id)
    requires a.Valid() && b.Valid()
    requires a.organizations == b.organizations && a.currentId.members == b.currentId.members
    requires SamePublicMembers(a.members, b.members)
    ensures ListMembers(a, Some(organizationId)) == ListMembers(b, Some(organizationId))
  {
    var p := (m: Member) => m.organizationId == Some(organizationId);
    var org := Get(a.organizations, organizationId);
    var f := (m: Member) => WithoutPasswordJoined(MemberWithOrganization(m, org));
    forall k | k in a.members
      ensures p(a.members[k]) == p(b.members[k]) && f(a.members[k]) == f(b.members[k])
    {
      SamePublicColumns(a.members[k], b.members[k]);
    }
    ListingsAgree(a.members, b.members, 1, a.currentId.members, p, f);
  }

  lemma AllMembersIgnorePasswords(a: MemStorage, b: MemStorage)
    requires a.Valid() && b.Valid()
    requires a.organizations == b.organizations && a.currentId.members == b.currentId.members
    requires SamePublicMembers(a.members, b.members)
    ensures ListMembers(a, None) == ListMembers(b, None)
  {
    var orgs := a.organizations;
    var hi := a.currentId.members;
    var p := (m: Member) => true;
    var f := (m: Member) => WithoutPasswordJoined(WithOrganization(m, orgs));
    forall k | k in a.members
      ensures f(a.members[k]) == f(b.members[k])
    {
      SamePublicColumns(a.members[k], b.members[k]);
    }
    var va := ValuesFrom(a.members, 1, hi);
    var vb := ValuesFrom(b.members, 1, hi);
    ListingsAgree(a.members, b.members, 1, hi, p, f);
    FilterAll(va, p);
    FilterAll(vb, p);
    AllMembersListed(a);
    AllMembersListed(b);
    var la := ListMembers(a, None);
    var lb := ListMembers(b, None);
    forall i | 0 <= i < |la|
      ensures la[i] == lb[i]
    {
      assert f(va[i]) == f(vb[i]);
    }
  }

  /** The unfiltered member list, row by row over the members table. */
  lemma AllMembersListed(store: MemStorage)
    requires store.Valid()
    ensures var l := ListMembers(store, None);
            var v := ValuesFrom(store.members, 1, store.currentId.members);
            |l| == |v| &&
            forall i :: 0 <= i < |l| ==> l[i] == WithoutPasswordJoined(WithOrganization(v[i], store.organizations))
  {
  }

  /** GET /api/members/:id: nothing (404) for an unknown id. */
  function GetMemberRoute(store: MemStorage, id: Id): (r: Option<PublicMemberWithOrganization>)
    reads store
    ensures r.Some? <==> id in store.members
    ensures r.Some? ==> r.value == WithoutPasswordJoined(WithOrganization(store.members[id], store.organizations))
  {
    match store.GetMember(id)
    case None => None
    case Some(m) => Some(WithoutPasswordJoined(m))
  }

  /** POST /api/members: the stored member, without its password. */
  method PostMember(store: MemStorage, ins: InsertMember, now: Timestamp) returns (r: PublicMember)
    requires store.Valid()
    modifies store`members, store`currentId
    ensures store.Valid()
    ensures r.id == old(store.currentId.members) && MemberFields(WithPassword(r, ins.password)) == ins && r.joinDate == now
    ensures store.members == old(store.members)[r.id := WithPassword(r, ins.password)]
    ensures store.currentId == old(store.currentId).(members := r.id + 1)
  {
    var m := store.CreateMember(ins, now);
    r := WithoutPassword(m);
  }

  /** PUT /api/members/:id: the updated member without its password, or
      nothing (404) for an unknown id. */
  method PutMember(store: MemStorage, id: Id, patch: MemberPatch) returns (r: Option<PublicMember>)
    requires store.Valid()
    modifies store`members
    ensures store.Valid()
    ensures r.Some? <==> id in old(store.members)
    ensures r.None? ==> store.members == old(store.members)
    ensures r.Some? ==> store.members == old(store.members)[id := PatchMember(old(store.members)[id], patch)] &&
                        r.value == WithoutPassword(store.members[id])
  {
    var m := store.UpdateMember(id, patch);
    if m.None? {
      return None;
    }
    r := Some(WithoutPassword(m.value));
  }

  // ---- The other list routes

  /** Which store query answered a loan listing. */
  datatype LoanListing =
    | LoansOfMember(loans: seq<LoanWithMember>)
    | LoansOfOrganization(loans: seq<LoanWithMember>)
    | AllLoans(rows: seq<LoanRow>)

  /** GET /api/loans: `memberId` wins over `organizationId`; with neither,
      every loan. */
  function ListLoans(store: MemStorage, memberId: Option<Id>, organizationId: Option<Id>): (r: LoanListing)
    reads store
    requires store.Valid()
    ensures memberId.Some? ==>
              var m := memberId.value;
              r.LoansOfMember? &&
              (m !in store.members ==> r.loans == []) &&
              (m in store.members ==>
                 ListsWhere(Map(r.loans, (row: LoanWithMember) => row.loan), store.loans,
                            (l: Loan) => l.memberId == m, LoanKey)) &&
              forall i :: 0 <= i < |r.loans| ==>
                m in store.members && r.loans[i].member == WithOrganization(store.members[m], store.organizations)
    ensures memberId.None? && organizationId.Some? ==>
              var ms := store.members;
              r.LoansOfOrganization? &&
              ListsWhere(Map(r.loans, (row: LoanWithMember) => row.loan), store.loans,
                         (l: Loan) => l.memberId in ms && ms[l.memberId].organizationId == organizationId, LoanKey) &&
              forall i :: 0 <= i < |r.loans| ==>
                r.loans[i].loan.memberId in store.members &&
                r.loans[i].member == MemberWithOrganization(store.members[r.loans[i].loan.memberId],
                                                            Get(store.organizations, organizationId.value))
    ensures memberId.None? && organizationId.None? ==>
              r.AllLoans? && Lists(Map(r.rows, (row: LoanRow) => row.loan), store.loans, LoanKey) &&
              forall i :: 0 <= i < |r.rows| ==> r.rows[i] == LoanRowOf(r.rows[i].loan, store.members, store.organizations)
  {
    if memberId.Some? then LoansOfMember(store.GetLoansByMember(memberId.value))
    else if organizationId.Some? then LoansOfOrganization(store.GetLoansByOrganization(organizationId.value))
    else AllLoans(store.GetLoans())
  }

  /** Which store query answered a repayment listing. */
  datatype RepaymentListing =
    | RepaymentsOfLoan(repayments: seq<Repayment>)
    | RepaymentsOfMember(joined: seq<RepaymentWithLoan>)
    | AllRepayments(rows: seq<RepaymentRow>)

  /** GET /api/repayments: `loanId` wins over `memberId`; with neither,
      every repayment. */
  function ListRepayments(store: MemStorage, loanId: Option<Id>, memberId: Option<Id>): (r: RepaymentListing)
    reads store
    requires store.Valid()
    ensures loanId.Some? ==>
              r.RepaymentsOfLoan? &&
              ListsWhere(r.repayments, store.repayments, (rp: Repayment) => rp.loanId == loanId.value, RepaymentKey)
    ensures loanId.None? && memberId.Some? ==>
              var ls := store.loans;
              r.RepaymentsOfMember? &&
              (memberId.value !in store.members ==> r.joined == []) &&
              (memberId.value in store.members ==>
                 ListsWhere(Map(r.joined, (row: RepaymentWithLoan) => row.repayment), store.repayments,
                            (rp: Repayment) => rp.loanId in ls && ls[rp.loanId].memberId == memberId.value,
                            RepaymentKey)) &&
              forall i :: 0 <= i < |r.joined| ==>
                memberId.value in store.members && r.joined[i].repayment.loanId in store.loans &&
                r.joined[i].loan == LoanWithMember(store.loans[r.joined[i].repayment.loanId],
                                                   WithOrganization(store.members[memberId.value], store.organizations))
    ensures loanId.None? && memberId.None? ==>
              r.AllRepayments? && Lists(Map(r.rows, (row: RepaymentRow) => row.repayment), store.repayments, RepaymentKey) &&
              forall i :: 0 <= i < |r.rows| ==>
                (r.rows[i].loan.Some? <==> r.rows[i].repayment.loanId in store.loans) &&
                (r.rows[i].loan.Some? ==>
                   r.rows[i].loan.value == LoanRowOf(store.loans[r.rows[i].repayment.loanId], store.members, store.organizations))
  {
    if loanId.Some? then RepaymentsOfLoan(store.GetRepaymentsByLoan(loanId.value))
    else if memberId.Some? then RepaymentsOfMember(store.GetRepaymentsByMember(memberId.value))
    else AllRepayments(store.GetRepayments())
  }

  /** GET /api/contributions: `memberId` wins over `month`; with neither,
      every contribution. */
  function ListContributions(store: MemStorage, memberId: Option<Id>, month: Option<string>): (r: seq<MonthlyContribution>)
    reads store
    requires store.Valid()
    ensures memberId.Some? ==>
              ListsWhere(r, store.contributions, (c: MonthlyContribution) => c.memberId == memberId.value, ContributionKey)
    ensures memberId.None? && Present(month) ==>
              ListsWhere(r, store.contributions, (c: MonthlyContribution) => c.month == month.value, ContributionKey)
    ensures memberId.None? && !Present(month) ==> Lists(r, store.contributions, ContributionKey)
  {
    if memberId.Some? then store.GetContributionsByMember(memberId.value)
    else if Present(month) then store.GetContributionsByMonth(month.value)
    else store.GetContributions()
  }

  /** GET /api/profits: with a year, the first record for it or nothing;
      otherwise every record. */
  function ListProfits(store: MemStorage, year: Option<int>): (r: seq<Profit>)
    reads store
    requires store.Valid()
    ensures year.Some? ==> |r| <= 1
    ensures year.Some? ==> (r == [] <==> forall k :: k in store.profits ==> store.profits[k].year != year.value)
    ensures year.Some? && r != [] ==>
              var p := r[0];
              p.id in store.profits && store.profits[p.id] == p && p.year == year.value &&
              forall k :: k in store.profits && k < p.id ==> store.profits[k].year != year.value
    ensures year.None? ==> Lists(r, store.profits, ProfitKey)
  {
    if year.Some? then
      match store.GetProfitByYear(year.value)
      case None => []
      case Some(p) => [p]
    else store.GetProfits()
  }
}
