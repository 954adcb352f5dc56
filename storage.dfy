/** The in-memory relational store of server/storage.ts: the class
    `MemStorage`, its six id-keyed tables and their id counters, the
    create/update/delete operations, the read-side joins, the repayment write
    that reduces a loan's balance, the duplicate-month probe and the
    dashboard statistics. */
module Storage {
  import opened Wrappers
  import opened Tables
  import opened Schema

  /** The monthly payment and total repayable amount of a loan, in cents. */
  datatype Schedule = Schedule(monthlyPayment: Cents, totalAmount: Cents)

  /** The amortization formula `createLoan` applies to (amount, interest
      rate, term in months).  It is not modelled: the store is given it. */
  type Amortization = (Cents, Hundredths, int) -> Schedule

  /** `currentId`: the next id of each table. */
  datatype Counters = Counters(
    organizations: nat,
    members: nat,
    loans: nat,
    repayments: nat,
    contributions: nat,
    profits: nat)

  /** The dashboard snapshot `getStatistics` returns. */
  datatype Statistics = Statistics(
    totalOrganizations: nat,
    totalMembers: nat,
    activeLoans: nat,
    totalProfit: Cents,
    activeLoanAmount: Cents,
    pendingApplications: nat,
    overduePayments: nat)

  /** A row of `getLoans`: when the loan's member is missing, the source
      embeds an object with no member columns, here `None`. */
  datatype LoanRow = LoanRow(loan: Loan, member: Option<MemberWithOrganization>)

  /** A row of `getRepayments`: when the repayment's loan is missing, the
      source embeds an object with no loan columns, here `None`. */
  datatype RepaymentRow = RepaymentRow(repayment: Repayment, loan: Option<LoanRow>)

  /** The member the constructor seeds. */
  const SuperAdministrator: InsertMember :=
    InsertMember("Super Administrator", "admin@cooploan.com", "admin123", None,
                 Some(true), Some(true), Some(true), Some(true))

  /** JavaScript truthiness of a nullable id: present and not 0.  Unlike
      `Schema.IsSet`, which tests a boolean flag for `true`, a number is
      falsy only when it is 0. */
  predicate Truthy(id: Option<Id>)
  {
    id.Some? && id.value != 0
  }

  /** `{...member, organization: member.organizationId ?
      organizations.get(member.organizationId) : undefined}`. */
  function WithOrganization(m: Member, organizations: map<Id, Organization>): (r: MemberWithOrganization)
    ensures r.member == m
    ensures r.organization.Some? <==> Truthy(m.organizationId) && m.organizationId.value in organizations
    ensures r.organization.Some? ==> r.organization.value == organizations[m.organizationId.value]
  {
    MemberWithOrganization(m, if Truthy(m.organizationId) then Get(organizations, m.organizationId.value) else None)
  }

  /** Organization ids start at 1, so the truthiness test on the member's
      `organizationId` only asks whether it is set: the organization is
      embedded iff the id is set and names a stored organization. */
  lemma EmbedsOrganizationIffSet(m: Member, organizations: map<Id, Organization>)
    requires 0 !in organizations
    ensures WithOrganization(m, organizations).organization ==
            if m.organizationId.Some? then Get(organizations, m.organizationId.value) else None
  {
  }

  // Each table's key: the row's own `id`.
  function OrganizationKey(o: Organization): Id { o.id }
  function MemberKey(m: Member): Id { m.id }
  function LoanKey(l: Loan): Id { l.id }
  function RepaymentKey(rp: Repayment): Id { rp.id }
  function ContributionKey(c: MonthlyContribution): Id { c.id }
  function ProfitKey(p: Profit): Id { p.id }

  /** `ls.map(loan => ({ ...loan, member: { ...ms.find(m => m.id === loan.memberId)!, organization } }))`,
      for loans whose member is in the list. */
  function JoinMembers(ls: seq<Loan>, ms: seq<Member>, organization: Option<Organization>): (r: seq<LoanWithMember>)
    requires forall i :: 0 <= i < |ls| ==> Lookup(ms, MemberKey, ls[i].memberId).Some?
    ensures |r| == |ls|
    ensures forall i :: 0 <= i < |ls| ==>
              r[i] == LoanWithMember(ls[i], MemberWithOrganization(Lookup(ms, MemberKey, ls[i].memberId).value, organization))
    ensures Map(r, (row: LoanWithMember) => row.loan) == ls
  {
    if ls == [] then []
    else [LoanWithMember(ls[0], MemberWithOrganization(Lookup(ms, MemberKey, ls[0].memberId).value, organization))]
         + JoinMembers(ls[1..], ms, organization)
  }

  /** `rs.map(repayment => ({ ...repayment, loan: { ...ls.find(l => l.id === repayment.loanId)!, member } }))`,
      for repayments whose loan is in the list. */
  function JoinLoans(rs: seq<Repayment>, ls: seq<Loan>, member: MemberWithOrganization): (r: seq<RepaymentWithLoan>)
    requires forall i :: 0 <= i < |rs| ==> Lookup(ls, LoanKey, rs[i].loanId).Some?
    ensures |r| == |rs|
    ensures forall i :: 0 <= i < |rs| ==>
              r[i] == RepaymentWithLoan(rs[i], LoanWithMember(Lookup(ls, LoanKey, rs[i].loanId).value, member))
    ensures Map(r, (row: RepaymentWithLoan) => row.repayment) == rs
  {
    if rs == [] then []
    else [RepaymentWithLoan(rs[0], LoanWithMember(Lookup(ls, LoanKey, rs[0].loanId).value, member))]
         + JoinLoans(rs[1..], ls, member)
  }

  // The loan and profit figures the statistics count and sum.
  predicate IsActive(l: Loan) { l.status == Some("active") }
  predicate IsPending(l: Loan) { l.status == Some("pending") }
  function LoanBalance(l: Loan): Cents { l.remainingBalance }
  function ProfitTotal(p: Profit): Cents { p.totalProfit }
  predicate IsActiveMember(m: Member) { IsSet(m.isActive) }

  /** A loan joined with its member, when the member is stored. */
  function LoanRowOf(l: Loan, members: map<Id, Member>, organizations: map<Id, Organization>): (r: LoanRow)
    ensures r.loan == l
    ensures r.member.Some? <==> l.memberId in members
    ensures r.member.Some? ==> r.member.value == WithOrganization(members[l.memberId], organizations)
  {
    LoanRow(l, if l.memberId in members then Some(WithOrganization(members[l.memberId], organizations)) else None)
  }

  /** The balance after a repayment: `Math.max(0, balance - amount)`, exact
      in cents. */
  function RepaidBalance(balance: Cents, amount: Cents): (r: Cents)
    ensures r >= 0
    ensures amount <= balance ==> r == balance - amount
    ensures balance <= amount ==> r == 0
    ensures 0 <= amount && 0 <= balance ==> r <= balance
  {
    if balance - amount > 0 then balance - amount else 0
  }

  /** A repayment against a stored loan lowers the active loan amount of
      the statistics by exactly what it took off that loan's balance when
      the loan is active, and leaves it alone otherwise. */
  lemma RepaymentLowersActiveLoanAmount(loans: map<Id, Loan>, id: Id, amount: Cents)
    requires id in loans
    ensures var loan := loans[id];
            var after := loans[id := loan.(remainingBalance := RepaidBalance(loan.remainingBalance, amount))];
            SumOver(after, KeysWith(after, IsActive), LoanBalance) ==
            SumOver(loans, KeysWith(loans, IsActive), LoanBalance)
              - (if IsActive(loan) then loan.remainingBalance - RepaidBalance(loan.remainingBalance, amount) else 0)
  {
    var loan := loans[id];
    var after := loans[id := loan.(remainingBalance := RepaidBalance(loan.remainingBalance, amount))];
    assert KeysWith(after, IsActive) == KeysWith(loans, IsActive);
    SumOverUpdate(loans, KeysWith(loans, IsActive), LoanBalance, id, after[id]);
  }

  /** One key of a spread `{...existing, ...patch}`. */
  function Override<T>(patch: Option<T>, current: T): T
  {
    if patch.Some? then patch.value else current
  }

  function PatchOrganization(o: Organization, p: OrganizationPatch): (r: Organization)
    ensures r.id == o.id && r.createdAt == o.createdAt
    ensures p.name.Some? ==> r.name == p.name.value
    ensures p.name.None? ==> r.name == o.name
    ensures p.createdBy.Some? ==> r.createdBy == p.createdBy.value
    ensures p.createdBy.None? ==> r.createdBy == o.createdBy
    ensures p == OrganizationPatch(None, None) ==> r == o
  {
    o.(name := Override(p.name, o.name), createdBy := Override(p.createdBy, o.createdBy))
  }

  function PatchMember(m: Member, p: MemberPatch): (r: Member)
    ensures r.id == m.id && r.joinDate == m.joinDate
    ensures p.name.Some? ==> r.name == p.name.value
    ensures p.name.None? ==> r.name == m.name
    ensures p.email.Some? ==> r.email == p.email.value
    ensures p.email.None? ==> r.email == m.email
    ensures p.password.Some? ==> r.password == p.password.value
    ensures p.password.None? ==> r.password == m.password
    ensures p.organizationId.Some? ==> r.organizationId == p.organizationId.value
    ensures p.organizationId.None? ==> r.organizationId == m.organizationId
    ensures p.isAdmin.Some? ==> r.isAdmin == Some(p.isAdmin.value)
    ensures p.isAdmin.None? ==> r.isAdmin == m.isAdmin
    ensures p.canAddMembers.Some? ==> r.canAddMembers == Some(p.canAddMembers.value)
    ensures p.canAddMembers.None? ==> r.canAddMembers == m.canAddMembers
    ensures p.isSuperAdmin.Some? ==> r.isSuperAdmin == Some(p.isSuperAdmin.value)
    ensures p.isSuperAdmin.None? ==> r.isSuperAdmin == m.isSuperAdmin
    ensures p.isActive.Some? ==> r.isActive == Some(p.isActive.value)
    ensures p.isActive.None? ==> r.isActive == m.isActive
    ensures p == MemberPatch(None, None, None, None, None, None, None, None) ==> r == m
  {
    Member(m.id,
           Override(p.name, m.name),
           Override(p.email, m.email),
           Override(p.password, m.password),
           Override(p.organizationId, m.organizationId),
           if p.isAdmin.Some? then Some(p.isAdmin.value) else m.isAdmin,
           if p.canAddMembers.Some? then Some(p.canAddMembers.value) else m.canAddMembers,
           if p.isSuperAdmin.Some? then Some(p.isSuperAdmin.value) else m.isSuperAdmin,
           if p.isActive.Some? then Some(p.isActive.value) else m.isActive,
           m.joinDate)
  }

  /** The derived columns are never recomputed: a patch that changes the
      amount, rate or term leaves the schedule and the balance as they were. */
  function PatchLoan(l: Loan, p: LoanPatch): (r: Loan)
    ensures r.id == l.id && r.createdAt == l.createdAt
    ensures r.remainingBalance == l.remainingBalance
    ensures r.monthlyPayment == l.monthlyPayment && r.totalAmount == l.totalAmount
    ensures p.memberId.Some? ==> r.memberId == p.memberId.value
    ensures p.memberId.None? ==> r.memberId == l.memberId
    ensures p.amount.Some? ==> r.amount == p.amount.value
    ensures p.amount.None? ==> r.amount == l.amount
    ensures p.interestRate.Some? ==> r.interestRate == p.interestRate.value
    ensures p.interestRate.None? ==> r.interestRate == l.interestRate
    ensures p.termMonths.Some? ==> r.termMonths == p.termMonths.value
    ensures p.termMonths.None? ==> r.termMonths == l.termMonths
    ensures p.purpose.Some? ==> r.purpose == p.purpose.value
    ensures p.purpose.None? ==> r.purpose == l.purpose
    ensures p.status.Some? ==> r.status == p.status
    ensures p.status.None? ==> r.status == l.status
    ensures p.startDate.Some? ==> r.startDate == p.startDate
    ensures p.startDate.None? ==> r.startDate == l.startDate
    ensures p == LoanPatch(None, None, None, None, None, None, None) ==> r == l
  {
    l.(memberId := Override(p.memberId, l.memberId),
       amount := Override(p.amount, l.amount),
       interestRate := Override(p.interestRate, l.interestRate),
       termMonths := Override(p.termMonths, l.termMonths),
       purpose := Override(p.purpose, l.purpose),
       status := if p.status.Some? then p.status else l.status,
       startDate := if p.startDate.Some? then p.startDate else l.startDate)
  }

  class MemStorage {
    var organizations: map<Id, Organization>
    var members: map<Id, Member>
    var loans: map<Id, Loan>
    var repayments: map<Id, Repayment>
    var contributions: map<Id, MonthlyContribution>
    var profits: map<Id, Profit>
    var currentId: Counters
    const amortize: Amortization

    /** Every row is stored under its own id, and every id lies below its
        table's counter and is at least 1. */
    ghost predicate Valid()
      reads this
    {
      && currentId.organizations >= 1 && currentId.members >= 1 && currentId.loans >= 1
      && currentId.repayments >= 1 && currentId.contributions >= 1 && currentId.profits >= 1
      && (forall k :: k in organizations ==> 1 <= k < currentId.organizations && organizations[k].id == k)
      && (forall k :: k in members ==> 1 <= k < currentId.members && members[k].id == k)
      && (forall k :: k in loans ==> 1 <= k < currentId.loans && loans[k].id == k)
      && (forall k :: k in repayments ==> 1 <= k < currentId.repayments && repayments[k].id == k)
      && (forall k :: k in contributions ==> 1 <= k < currentId.contributions && contributions[k].id == k)
      && (forall k :: k in profits ==> 1 <= k < currentId.profits && profits[k].id == k)
    }

    /** No two stored repayments are for the same loan and month. */
    ghost predicate UniqueRepaymentMonths()
      reads this
    {
      forall j, k :: j in repayments && k in repayments && j != k ==>
        repayments[j].loanId != repayments[k].loanId || repayments[j].paymentMonth != repayments[k].paymentMonth
    }

    /** No loan has a negative remaining balance. */
    ghost predicate BalancesNonNegative()
      reads this
    {
      forall k :: k in loans ==> loans[k].remainingBalance >= 0
    }

    /** Every stored balance lies between 0 and the loan's total.  The
        source does not enforce it: it survives a repayment only when the
        amount is not negative, and a new loan only when its principal lies
        within the total the amortization gives. */
    ghost predicate BalancesWithinTotal()
      reads this
    {
      forall k :: k in loans ==> 0 <= loans[k].remainingBalance <= loans[k].totalAmount
    }

    /** Empty tables, every counter at 1, then the super administrator is
        created, so it is member 1. */
    constructor (amortize: Amortization, now: Timestamp)
      ensures Valid()
      ensures this.amortize == amortize
      ensures organizations == map[] && loans == map[] && repayments == map[]
      ensures contributions == map[] && profits == map[]
      ensures members.Keys == {1} && MemberFields(members[1]) == SuperAdministrator && members[1].joinDate == now
      ensures currentId == Counters(1, 2, 1, 1, 1, 1)
      ensures UniqueRepaymentMonths() && BalancesNonNegative() && BalancesWithinTotal()
    {
      this.amortize := amortize;
      organizations := map[];
      members := map[];
      loans := map[];
      repayments := map[];
      contributions := map[];
      profits := map[];
      currentId := Counters(1, 1, 1, 1, 1, 1);
      new;
      var admin := CreateMember(SuperAdministrator, now);
    }

    // ---- Organizations

    method CreateOrganization(ins: InsertOrganization, now: Timestamp) returns (o: Organization)
      requires Valid()
      modifies this`organizations, this`currentId
      ensures Valid()
      ensures o.id == old(currentId.organizations) && OrganizationFields(o) == ins && o.createdAt == now
      ensures organizations == old(organizations)[o.id := o]
      ensures forall k :: k in old(organizations) ==> k < o.id
      ensures currentId == old(currentId).(organizations := o.id + 1)
    {
      var id := currentId.organizations;
      currentId := currentId.(organizations := id + 1);
      o := Organization(id, ins.name, ins.createdBy, now);
      organizations := organizations[id := o];
    }

    method UpdateOrganization(id: Id, patch: OrganizationPatch) returns (r: Option<Organization>)
      requires Valid()
      modifies this`organizations
      ensures Valid()
      ensures r.Some? <==> id in old(organizations)
      ensures r.None? ==> organizations == old(organizations)
      ensures r.Some? ==> r.value == PatchOrganization(old(organizations)[id], patch) &&
                          organizations == old(organizations)[id := r.value]
    {
      if id !in organizations {
        return None;
      }
      var updated := PatchOrganization(organizations[id], patch);
      organizations := organizations[id := updated];
      r := Some(updated);
    }

    method DeleteOrganization(id: Id) returns (deleted: bool)
      requires Valid()
      modifies this`organizations
      ensures Valid()
      ensures deleted <==> id in old(organizations)
      ensures organizations == old(organizations) - {id}
    {
      deleted := id in organizations;
      organizations := organizations - {id};
    }

    // ---- Members

    /** The insert object is stored as parsed: no column default is filled
        in, so an omitted flag stays absent (and reads as false). */
    method CreateMember(ins: InsertMember, now: Timestamp) returns (m: Member)
      requires Valid()
      modifies this`members, this`currentId
      ensures Valid()
      ensures m.id == old(currentId.members) && MemberFields(m) == ins && m.joinDate == now
      ensures members == old(members)[m.id := m]
      ensures forall k :: k in old(members) ==> k < m.id
      ensures currentId == old(currentId).(members := m.id + 1)
    {
      var id := currentId.members;
      currentId := currentId.(members := id + 1);
      m := Member(id, ins.name, ins.email, ins.password, ins.organizationId,
                  ins.isAdmin, ins.canAddMembers, ins.isSuperAdmin, ins.isActive, now);
      members := members[id := m];
    }

    method UpdateMember(id: Id, patch: MemberPatch) returns (r: Option<Member>)
      requires Valid()
      modifies this`members
      ensures Valid()
      ensures r.Some? <==> id in old(members)
      ensures r.None? ==> members == old(members)
      ensures r.Some? ==> r.value == PatchMember(old(members)[id], patch) &&
                          members == old(members)[id := r.value]
    {
      if id !in members {
        return None;
      }
      var updated := PatchMember(members[id], patch);
      members := members[id := updated];
      r := Some(updated);
    }

    /** No cascade: loans and contributions of the member keep their
        `memberId`. */
    method DeleteMember(id: Id) returns (deleted: bool)
      requires Valid()
      modifies this`members
      ensures Valid()
      ensures deleted <==> id in old(members)
      ensures members == old(members) - {id}
    {
      deleted := id in members;
      members := members - {id};
    }

    // ---- Loans

    method CreateLoan(ins: InsertLoan, now: Timestamp) returns (l: Loan)
      requires Valid()
      modifies this`loans, this`currentId
      ensures Valid()
      ensures l.id == old(currentId.loans) && LoanFields(l) == ins && l.createdAt == now
      ensures l.remainingBalance == ins.amount && l.startDate == None
      ensures l.monthlyPayment == amortize(ins.amount, ins.interestRate, ins.termMonths).monthlyPayment
      ensures l.totalAmount == amortize(ins.amount, ins.interestRate, ins.termMonths).totalAmount
      ensures loans == old(loans)[l.id := l]
      ensures forall k :: k in old(loans) ==> k < l.id
      ensures currentId == old(currentId).(loans := l.id + 1)
      ensures old(BalancesNonNegative()) && ins.amount >= 0 ==> BalancesNonNegative()
      ensures old(BalancesWithinTotal()) && 0 <= ins.amount <= amortize(ins.amount, ins.interestRate, ins.termMonths).totalAmount ==>
                BalancesWithinTotal()
    {
      var id := currentId.loans;
      currentId := currentId.(loans := id + 1);
      var schedule := amortize(ins.amount, ins.interestRate, ins.termMonths);
      l := Loan(id, ins.memberId, ins.amount, ins.interestRate, ins.termMonths,
                schedule.monthlyPayment, schedule.totalAmount, ins.amount,
                ins.purpose, ins.status, None, now);
      loans := loans[id := l];
    }

    method UpdateLoan(id: Id, patch: LoanPatch) returns (r: Option<Loan>)
      requires Valid()
      modifies this`loans
      ensures Valid()
      ensures r.Some? <==> id in old(loans)
      ensures r.None? ==> loans == old(loans)
      ensures r.Some? ==> r.value == PatchLoan(old(loans)[id], patch) &&
                          loans == old(loans)[id := r.value]
      ensures old(BalancesNonNegative()) ==> BalancesNonNegative()
      ensures old(BalancesWithinTotal()) ==> BalancesWithinTotal()
    {
      if id !in loans {
        return None;
      }
      var updated := PatchLoan(loans[id], patch);
      loans := loans[id := updated];
      r := Some(updated);
    }

    /** No cascade: repayments of the loan keep their `loanId`. */
    method DeleteLoan(id: Id) returns (deleted: bool)
      requires Valid()
      modifies this`loans
      ensures Valid()
      ensures deleted <==> id in old(loans)
      ensures loans == old(loans) - {id}
      ensures old(BalancesNonNegative()) ==> BalancesNonNegative()
      ensures old(BalancesWithinTotal()) ==> BalancesWithinTotal()
    {
      deleted := id in loans;
      loans := loans - {id};
    }

    // ---- Repayments

    /** Stores the repayment and, when its loan is stored, lowers that loan's
        balance by the amount, stopping at zero.  Nothing is checked: not the
        amount, not the loan, not an earlier repayment for the month. */
    method CreateRepayment(ins: InsertRepayment, now: Timestamp) returns (r: Repayment)
      requires Valid()
      modifies this`repayments, this`loans, this`currentId
      ensures Valid()
      ensures r.id == old(currentId.repayments) && RepaymentFields(r) == ins && r.paidAt == now
      ensures repayments == old(repayments)[r.id := r]
      ensures forall k :: k in old(repayments) ==> k < r.id
      ensures currentId == old(currentId).(repayments := r.id + 1)
      ensures ins.loanId !in old(loans) ==> loans == old(loans)
      ensures ins.loanId in old(loans) ==>
                loans == old(loans)[ins.loanId := old(loans)[ins.loanId].(
                  remainingBalance := RepaidBalance(old(loans)[ins.loanId].remainingBalance, ins.amount))]
      ensures old(BalancesNonNegative()) ==> BalancesNonNegative()
      ensures old(BalancesWithinTotal()) && ins.amount >= 0 ==> BalancesWithinTotal()
      ensures old(UniqueRepaymentMonths()) && !old(CheckMonthlyRepaymentExists(ins.loanId, ins.paymentMonth)) ==>
                UniqueRepaymentMonths()
    {
      var id := currentId.repayments;
      currentId := currentId.(repayments := id + 1);
      r := Repayment(id, ins.loanId, ins.amount, now, ins.paymentMonth);
      if ins.loanId in loans {
        var loan := loans[ins.loanId];
        var paid := loan.(remainingBalance := RepaidBalance(loan.remainingBalance, ins.amount));
        assert ins.amount >= 0 && 0 <= loan.remainingBalance <= loan.totalAmount ==> paid.remainingBalance <= paid.totalAmount;
        loans := loans[ins.loanId := paid];
      }
      repayments := repayments[id := r];
    }

    /** `checkMonthlyRepaymentExists`: some stored repayment is for this
        loan and this month. */
    function CheckMonthlyRepaymentExists(loanId: Id, month: string): (b: bool)
      reads this
      requires Valid()
      ensures b <==> exists k :: k in repayments && repayments[k].loanId == loanId && repayments[k].paymentMonth == month
    {
      var p := (rp: Repayment) => rp.loanId == loanId && rp.paymentMonth == month;
      AnyValue(repayments, 1, currentId.repayments, p);
      Any(RepaymentValues(), p)
    }

    // ---- Monthly contributions and profits

    method CreateContribution(ins: InsertMonthlyContribution, now: Timestamp) returns (c: MonthlyContribution)
      requires Valid()
      modifies this`contributions, this`currentId
      ensures Valid()
      ensures c.id == old(currentId.contributions) && ContributionFields(c) == ins && c.paidAt == now
      ensures contributions == old(contributions)[c.id := c]
      ensures forall k :: k in old(contributions) ==> k < c.id
      ensures currentId == old(currentId).(contributions := c.id + 1)
    {
      var id := currentId.contributions;
      currentId := currentId.(contributions := id + 1);
      c := MonthlyContribution(id, ins.memberId, ins.month, ins.amountPaid, now);
      contributions := contributions[id := c];
    }

    method CreateProfit(ins: InsertProfit, now: Timestamp) returns (p: Profit)
      requires Valid()
      modifies this`profits, this`currentId
      ensures Valid()
      ensures p.id == old(currentId.profits) && ProfitFields(p) == ins && p.calculationDate == now
      ensures profits == old(profits)[p.id := p]
      ensures forall k :: k in old(profits) ==> k < p.id
      ensures currentId == old(currentId).(profits := p.id + 1)
    {
      var id := currentId.profits;
      currentId := currentId.(profits := id + 1);
      p := Profit(id, ins.totalProfit, ins.fixedPercent, ins.sharedPercentPerMember, now, ins.year);
      profits := profits[id := p];
    }

    // ---- Reads.  `Array.from(this.<table>.values())` lists a table in
    // ascending id order.

    function GetOrganizations(): (r: seq<Organization>)
      reads this
      requires Valid()
      ensures Lists(r, organizations, OrganizationKey)
    {
      Listing(organizations, 1, currentId.organizations, OrganizationKey);
      ValuesFrom(organizations, 1, currentId.organizations)
    }

    function GetOrganization(id: Id): (r: Option<Organization>)
      reads this
      ensures r.Some? <==> id in organizations
      ensures r.Some? ==> r.value == organizations[id] && (Valid() ==> r.value.id == id)
    {
      Get(organizations, id)
    }

    function MemberValues(): (r: seq<Member>)
      reads this
      requires Valid()
      ensures Lists(r, members, MemberKey)
    {
      Listing(members, 1, currentId.members, MemberKey);
      ValuesFrom(members, 1, currentId.members)
    }

    /** Every member, in id order, with its organization embedded. */
    function GetMembers(): (r: seq<MemberWithOrganization>)
      reads this
      requires Valid()
      ensures Lists(Map(r, (row: MemberWithOrganization) => row.member), members, MemberKey)
      ensures forall i :: 0 <= i < |r| ==> r[i] == WithOrganization(r[i].member, organizations)
    {
      var orgs := organizations;
      var r := Map(MemberValues(), (m: Member) => WithOrganization(m, orgs));
      MapUnwrap(MemberValues(), (m: Member) => WithOrganization(m, orgs), (row: MemberWithOrganization) => row.member);
      r
    }

    function GetMember(id: Id): (r: Option<MemberWithOrganization>)
      reads this
      ensures r.Some? <==> id in members
      ensures r.Some? ==> r.value == WithOrganization(members[id], organizations)
    {
      if id in members then Some(WithOrganization(members[id], organizations)) else None
    }

    /** The first member in id order with this email; emails are not
        unique in this store. */
    function GetMemberByEmail(email: string): (r: Option<MemberWithOrganization>)
      reads this
      requires Valid()
      ensures r.None? <==> forall k :: k in members ==> members[k].email != email
      ensures r.Some? ==> var m := r.value.member;
                          m.id in members && members[m.id] == m && m.email == email &&
                          r.value == WithOrganization(m, organizations) &&
                          forall k :: k in members && k < m.id ==> members[k].email != email
    {
      var p := (m: Member) => m.email == email;
      FindValue(members, 1, currentId.members, p);
      match Find(MemberValues(), p)
      case None => None
      case Some(m) => Some(WithOrganization(m, organizations))
    }

    /** The members whose `organizationId` equals the given id, each with
        that organization (looked up without a truthiness test). */
    function GetMembersByOrganization(organizationId: Id): (r: seq<MemberWithOrganization>)
      reads this
      requires Valid()
      ensures ListsWhere(Map(r, (row: MemberWithOrganization) => row.member), members,
                         (m: Member) => m.organizationId == Some(organizationId), MemberKey)
      ensures forall i :: 0 <= i < |r| ==> r[i].organization == Get(organizations, organizationId)
    {
      var p := (m: Member) => m.organizationId == Some(organizationId);
      var org := Get(organizations, organizationId);
      var inOrg := Filter(MemberValues(), p);
      FilteredListing(members, 1, currentId.members, p, MemberKey);
      MapUnwrap(inOrg, (m: Member) => MemberWithOrganization(m, org), (row: MemberWithOrganization) => row.member);
      Map(inOrg, (m: Member) => MemberWithOrganization(m, org))
    }

    function LoanValues(): (r: seq<Loan>)
      reads this
      requires Valid()
      ensures Lists(r, loans, LoanKey)
    {
      Listing(loans, 1, currentId.loans, LoanKey);
      ValuesFrom(loans, 1, currentId.loans)
    }

    /** Every loan, in id order, with its member when that is stored. */
    function GetLoans(): (r: seq<LoanRow>)
      reads this
      requires Valid()
      ensures Lists(Map(r, (row: LoanRow) => row.loan), loans, LoanKey)
      ensures forall i :: 0 <= i < |r| ==> r[i] == LoanRowOf(r[i].loan, members, organizations)
    {
      var ms := members;
      var orgs := organizations;
      MapUnwrap(LoanValues(), (l: Loan) => LoanRowOf(l, ms, orgs), (row: LoanRow) => row.loan);
      Map(LoanValues(), (l: Loan) => LoanRowOf(l, ms, orgs))
    }

    /** Nothing when the loan or its member is missing; otherwise the loan
        with its member and the member's organization. */
    function GetLoan(id: Id): (r: Option<LoanWithMember>)
      reads this
      ensures r.Some? <==> id in loans && loans[id].memberId in members
      ensures r.Some? ==> r.value.loan == loans[id] &&
                          r.value.member == WithOrganization(members[loans[id].memberId], organizations)
    {
      if id !in loans then None
      else
        var loan := loans[id];
        if loan.memberId !in members then None
        else Some(LoanWithMember(loan, WithOrganization(members[loan.memberId], organizations)))
    }

    /** The member's loans in id order, or none at all when the member is
        missing. */
    function GetLoansByMember(memberId: Id): (r: seq<LoanWithMember>)
      reads this
      requires Valid()
      ensures memberId !in members ==> r == []
      ensures memberId in members ==>
                ListsWhere(Map(r, (row: LoanWithMember) => row.loan), loans,
                           (l: Loan) => l.memberId == memberId, LoanKey)
      ensures forall i :: 0 <= i < |r| ==>
                memberId in members && r[i].member == WithOrganization(members[memberId], organizations)
    {
      var p := (l: Loan) => l.memberId == memberId;
      var owned := Filter(LoanValues(), p);
      if memberId !in members then []
      else
        var owner := WithOrganization(members[memberId], organizations);
        FilteredListing(loans, 1, currentId.loans, p, LoanKey);
        MapUnwrap(owned, (l: Loan) => LoanWithMember(l, owner), (row: LoanWithMember) => row.loan);
        Map(owned, (l: Loan) => LoanWithMember(l, owner))
    }

    /** The loans whose member belongs to the organization, each with that
        member and the organization.  Stated over the tables: the member is
        the one stored under the loan's `memberId`, found though the body
        goes through the organization's member list and its ids. */
    function GetLoansByOrganization(organizationId: Id): (r: seq<LoanWithMember>)
      reads this
      requires Valid()
      ensures var ms := members;
              ListsWhere(Map(r, (row: LoanWithMember) => row.loan), loans,
                         (l: Loan) => l.memberId in ms && ms[l.memberId].organizationId == Some(organizationId),
                         LoanKey)
      ensures forall i :: 0 <= i < |r| ==>
                r[i].loan.memberId in members &&
                r[i].member == MemberWithOrganization(members[r[i].loan.memberId], Get(organizations, organizationId))
    {
      var ms := members;
      var inOrg := (m: Member) => m.organizationId == Some(organizationId);
      var orgMembers := Filter(MemberValues(), inOrg);
      var orgMemberIds := Map(orgMembers, MemberKey);
      var orgLoans := Filter(LoanValues(), (l: Loan) => l.memberId in orgMemberIds);
      var org := Get(organizations, organizationId);
      FilteredListing(members, 1, currentId.members, inOrg, MemberKey);
      OrganizationLoans(organizationId, orgMembers, orgLoans);
      JoinMembers(orgLoans, orgMembers, org)
    }

    /** `orgLoans.find(...)!` never fails: the loans kept are exactly those
        whose member is in the organization, and each one's member is found
        in the organization's member list, as the member stored under its
        `memberId`. */
    lemma OrganizationLoans(organizationId: Id, orgMembers: seq<Member>, orgLoans: seq<Loan>)
      requires Valid()
      requires ListsWhere(orgMembers, members, (m: Member) => m.organizationId == Some(organizationId), MemberKey)
      requires orgLoans == Filter(LoanValues(), (l: Loan) => l.memberId in Map(orgMembers, MemberKey))
      ensures var ms := members;
              ListsWhere(orgLoans, loans,
                         (l: Loan) => l.memberId in ms && ms[l.memberId].organizationId == Some(organizationId),
                         LoanKey)
      ensures forall i :: 0 <= i < |orgLoans| ==>
                orgLoans[i].memberId in members &&
                Lookup(orgMembers, MemberKey, orgLoans[i].memberId) == Some(members[orgLoans[i].memberId])
    {
      var ms := members;
      var inOrg := (m: Member) => m.organizationId == Some(organizationId);
      var p := (l: Loan) => l.memberId in ms && ms[l.memberId].organizationId == Some(organizationId);
      OrganizationLoanFilter(organizationId, orgMembers);
      FilteredListing(loans, 1, currentId.loans, p, LoanKey);
      forall i | 0 <= i < |orgLoans|
        ensures orgLoans[i].memberId in members &&
                Lookup(orgMembers, MemberKey, orgLoans[i].memberId) == Some(members[orgLoans[i].memberId])
      {
        ListedLookup(orgMembers, members, inOrg, MemberKey, orgLoans[i].memberId);
      }
    }

    /** Testing a loan's `memberId` against the organization's member ids
        keeps the same loans as looking its member up in the table. */
    lemma OrganizationLoanFilter(organizationId: Id, orgMembers: seq<Member>)
      requires Valid()
      requires ListsWhere(orgMembers, members, (m: Member) => m.organizationId == Some(organizationId), MemberKey)
      ensures var ms := members;
              Filter(LoanValues(), (l: Loan) => l.memberId in Map(orgMembers, MemberKey)) ==
              Filter(LoanValues(), (l: Loan) => l.memberId in ms && ms[l.memberId].organizationId == Some(organizationId))
    {
      var ms := members;
      var inOrg := (m: Member) => m.organizationId == Some(organizationId);
      var ids := Map(orgMembers, MemberKey);
      var p := (l: Loan) => l.memberId in ms && ms[l.memberId].organizationId == Some(organizationId);
      var loanValues := LoanValues();
      forall i | 0 <= i < |loanValues|
        ensures (loanValues[i].memberId in ids) == p(loanValues[i])
      {
        ListedKeys(orgMembers, members, inOrg, MemberKey, loanValues[i].memberId);
      }
      FilterAgree(loanValues, (l: Loan) => l.memberId in ids, p);
    }

    function RepaymentValues(): (r: seq<Repayment>)
      reads this
      requires Valid()
      ensures Lists(r, repayments, RepaymentKey)
    {
      Listing(repayments, 1, currentId.repayments, RepaymentKey);
      ValuesFrom(repayments, 1, currentId.repayments)
    }

    /** Every repayment, in id order, with its loan when that is stored. */
    function GetRepayments(): (r: seq<RepaymentRow>)
      reads this
      requires Valid()
      ensures Lists(Map(r, (row: RepaymentRow) => row.repayment), repayments, RepaymentKey)
      ensures forall i :: 0 <= i < |r| ==>
                (r[i].loan.Some? <==> r[i].repayment.loanId in loans) &&
                (r[i].loan.Some? ==> r[i].loan.value == LoanRowOf(loans[r[i].repayment.loanId], members, organizations))
    {
      var ls := loans;
      var ms := members;
      var orgs := organizations;
      var row := (rp: Repayment) =>
        RepaymentRow(rp, if rp.loanId in ls then Some(LoanRowOf(ls[rp.loanId], ms, orgs)) else None);
      MapUnwrap(RepaymentValues(), row, (x: RepaymentRow) => x.repayment);
      Map(RepaymentValues(), row)
    }

    /** Nothing when the repayment, its loan or the loan's member is
        missing. */
    function GetRepayment(id: Id): (r: Option<RepaymentWithLoan>)
      reads this
      ensures r.Some? <==> id in repayments && repayments[id].loanId in loans &&
                           loans[repayments[id].loanId].memberId in members
      ensures r.Some? ==> r.value.repayment == repayments[id] && Some(r.value.loan) == GetLoan(repayments[id].loanId)
    {
      if id !in repayments then None
      else
        var repayment := repayments[id];
        match GetLoan(repayment.loanId)
        case None => None
        case Some(loan) => Some(RepaymentWithLoan(repayment, loan))
    }

    function GetRepaymentsByLoan(loanId: Id): (r: seq<Repayment>)
      reads this
      requires Valid()
      ensures ListsWhere(r, repayments, (rp: Repayment) => rp.loanId == loanId, RepaymentKey)
    {
      var p := (rp: Repayment) => rp.loanId == loanId;
      FilteredListing(repayments, 1, currentId.repayments, p, RepaymentKey);
      Filter(RepaymentValues(), p)
    }

    /** The repayments of the member's loans, each with its loan and the
        member, or none at all when the member is missing.  Stated over the
        tables: the loan is the one stored under the repayment's `loanId`. */
    function GetRepaymentsByMember(memberId: Id): (r: seq<RepaymentWithLoan>)
      reads this
      requires Valid()
      ensures memberId !in members ==> r == []
      ensures memberId in members ==>
                var ls := loans;
                ListsWhere(Map(r, (row: RepaymentWithLoan) => row.repayment), repayments,
                           (rp: Repayment) => rp.loanId in ls && ls[rp.loanId].memberId == memberId,
                           RepaymentKey)
      ensures forall i :: 0 <= i < |r| ==>
                memberId in members && r[i].repayment.loanId in loans &&
                r[i].loan == LoanWithMember(loans[r[i].repayment.loanId], WithOrganization(members[memberId], organizations))
    {
      var owned := (l: Loan) => l.memberId == memberId;
      var memberLoans := Filter(LoanValues(), owned);
      var loanIds := Map(memberLoans, LoanKey);
      var memberRepayments := Filter(RepaymentValues(), (rp: Repayment) => rp.loanId in loanIds);
      if memberId !in members then []
      else
        var member := WithOrganization(members[memberId], organizations);
        FilteredListing(loans, 1, currentId.loans, owned, LoanKey);
        MemberRepaymentsJoined(memberId, memberLoans, memberRepayments, member);
        JoinLoans(memberRepayments, memberLoans, member)
    }

    /** The join of the member's repayments with the member's loans states
        the table-level contract of `GetRepaymentsByMember`. */
    lemma MemberRepaymentsJoined(memberId: Id, memberLoans: seq<Loan>, memberRepayments: seq<Repayment>,
                                 member: MemberWithOrganization)
      requires Valid()
      requires memberId in members && member == WithOrganization(members[memberId], organizations)
      requires ListsWhere(memberLoans, loans, (l: Loan) => l.memberId == memberId, LoanKey)
      requires memberRepayments == Filter(RepaymentValues(), (rp: Repayment) => rp.loanId in Map(memberLoans, LoanKey))
      ensures forall i :: 0 <= i < |memberRepayments| ==> Lookup(memberLoans, LoanKey, memberRepayments[i].loanId).Some?
      ensures var r := JoinLoans(memberRepayments, memberLoans, member);
              var ls := loans;
              ListsWhere(Map(r, (row: RepaymentWithLoan) => row.repayment), repayments,
                         (rp: Repayment) => rp.loanId in ls && ls[rp.loanId].memberId == memberId,
                         RepaymentKey) &&
              forall i :: 0 <= i < |r| ==>
                r[i].repayment.loanId in loans &&
                r[i].loan == LoanWithMember(loans[r[i].repayment.loanId], member)
    {
      MemberRepayments(memberId, memberLoans, memberRepayments);
      var r := JoinLoans(memberRepayments, memberLoans, member);
      forall i | 0 <= i < |r|
        ensures r[i].repayment.loanId in loans &&
                r[i].loan == LoanWithMember(loans[r[i].repayment.loanId], member)
      {
        assert r[i].repayment == memberRepayments[i];
      }
    }

    /** `memberLoans.find(...)!` never fails: the repayments kept are exactly
        those of the member's loans, and each one's loan is found in the
        member's loan list, as the loan stored under its `loanId`. */
    lemma MemberRepayments(memberId: Id, memberLoans: seq<Loan>, memberRepayments: seq<Repayment>)
      requires Valid()
      requires ListsWhere(memberLoans, loans, (l: Loan) => l.memberId == memberId, LoanKey)
      requires memberRepayments == Filter(RepaymentValues(), (rp: Repayment) => rp.loanId in Map(memberLoans, LoanKey))
      ensures var ls := loans;
              ListsWhere(memberRepayments, repayments,
                         (rp: Repayment) => rp.loanId in ls && ls[rp.loanId].memberId == memberId,
                         RepaymentKey)
      ensures forall i :: 0 <= i < |memberRepayments| ==>
                memberRepayments[i].loanId in loans &&
                Lookup(memberLoans, LoanKey, memberRepayments[i].loanId) == Some(loans[memberRepayments[i].loanId])
    {
      var ls := loans;
      var owned := (l: Loan) => l.memberId == memberId;
      var p := (rp: Repayment) => rp.loanId in ls && ls[rp.loanId].memberId == memberId;
      MemberRepaymentFilter(memberId, memberLoans);
      FilteredListing(repayments, 1, currentId.repayments, p, RepaymentKey);
      forall i | 0 <= i < |memberRepayments|
        ensures memberRepayments[i].loanId in loans &&
                Lookup(memberLoans, LoanKey, memberRepayments[i].loanId) == Some(loans[memberRepayments[i].loanId])
      {
        ListedLookup(memberLoans, loans, owned, LoanKey, memberRepayments[i].loanId);
      }
    }

    /** Testing a repayment's `loanId` against the member's loan ids keeps
        the same repayments as looking its loan up in the table. */
    lemma MemberRepaymentFilter(memberId: Id, memberLoans: seq<Loan>)
      requires Valid()
      requires ListsWhere(memberLoans, loans, (l: Loan) => l.memberId == memberId, LoanKey)
      ensures var ls := loans;
              Filter(RepaymentValues(), (rp: Repayment) => rp.loanId in Map(memberLoans, LoanKey)) ==
              Filter(RepaymentValues(), (rp: Repayment) => rp.loanId in ls && ls[rp.loanId].memberId == memberId)
    {
      var ls := loans;
      var owned := (l: Loan) => l.memberId == memberId;
      var ids := Map(memberLoans, LoanKey);
      var p := (rp: Repayment) => rp.loanId in ls && ls[rp.loanId].memberId == memberId;
      var repaymentValues := RepaymentValues();
      forall i | 0 <= i < |repaymentValues|
        ensures (repaymentValues[i].loanId in ids) == p(repaymentValues[i])
      {
        ListedKeys(memberLoans, loans, owned, LoanKey, repaymentValues[i].loanId);
      }
      FilterAgree(repaymentValues, (rp: Repayment) => rp.loanId in ids, p);
    }

    function GetContributions(): (r: seq<MonthlyContribution>)
      reads this
      requires Valid()
      ensures Lists(r, contributions, ContributionKey)
    {
      Listing(contributions, 1, currentId.contributions, ContributionKey);
      ValuesFrom(contributions, 1, currentId.contributions)
    }

    function GetContributionsByMember(memberId: Id): (r: seq<MonthlyContribution>)
      reads this
      requires Valid()
      ensures ListsWhere(r, contributions, (c: MonthlyContribution) => c.memberId == memberId,
                         ContributionKey)
    {
      var p := (c: MonthlyContribution) => c.memberId == memberId;
      FilteredListing(contributions, 1, currentId.contributions, p, ContributionKey);
      Filter(GetContributions(), p)
    }

    function GetContributionsByMonth(month: string): (r: seq<MonthlyContribution>)
      reads this
      requires Valid()
      ensures ListsWhere(r, contributions, (c: MonthlyContribution) => c.month == month,
                         ContributionKey)
    {
      var p := (c: MonthlyContribution) => c.month == month;
      FilteredListing(contributions, 1, currentId.contributions, p, ContributionKey);
      Filter(GetContributions(), p)
    }

    function GetProfits(): (r: seq<Profit>)
      reads this
      requires Valid()
      ensures Lists(r, profits, ProfitKey)
    {
      Listing(profits, 1, currentId.profits, ProfitKey);
      ValuesFrom(profits, 1, currentId.profits)
    }

    /** The first profit record in id order for the year; more than one per
        year is not prevented. */
    function GetProfitByYear(year: int): (r: Option<Profit>)
      reads this
      requires Valid()
      ensures r.None? <==> forall k :: k in profits ==> profits[k].year != year
      ensures r.Some? ==> r.value.id in profits && profits[r.value.id] == r.value && r.value.year == year &&
                          forall k :: k in profits && k < r.value.id ==> profits[k].year != year
    {
      var p := (x: Profit) => x.year == year;
      FindValue(profits, 1, currentId.profits, p);
      Find(GetProfits(), p)
    }

    /** The dashboard figures.  Money is summed exactly in cents; the
        overdue count is the constant zero. */
    function GetStatistics(): (r: Statistics)
      reads this
      requires Valid()
      ensures r.totalOrganizations == |organizations|
      ensures r.totalMembers == |KeysWith(members, IsActiveMember)|
      ensures r.activeLoans == |KeysWith(loans, IsActive)|
      ensures r.pendingApplications == |KeysWith(loans, IsPending)|
      ensures r.activeLoanAmount == SumOver(loans, KeysWith(loans, IsActive), LoanBalance)
      ensures r.totalProfit == SumOver(profits, profits.Keys, ProfitTotal)
      ensures r.overduePayments == 0
    {
      Statistics(
        totalOrganizations := |organizations|,
        totalMembers := CountActiveMembers(),
        activeLoans := CountLoans(IsActive),
        totalProfit := TotalProfit(),
        activeLoanAmount := ActiveLoanAmount(),
        pendingApplications := CountLoans(IsPending),
        overduePayments := 0)
    }

    /** `members.filter(m => m.isActive).length` */
    function CountActiveMembers(): (n: nat)
      reads this
      requires Valid()
      ensures n == |KeysWith(members, IsActiveMember)|
    {
      FilterCount(members, 1, currentId.members, IsActiveMember);
      KeysWhereAll(members, 1, currentId.members, IsActiveMember);
      |Filter(MemberValues(), IsActiveMember)|
    }

    /** `loans.filter(p).length` */
    function CountLoans(p: Loan -> bool): (n: nat)
      reads this
      requires Valid()
      ensures n == |KeysWith(loans, p)|
    {
      FilterCount(loans, 1, currentId.loans, p);
      KeysWhereAll(loans, 1, currentId.loans, p);
      |Filter(LoanValues(), p)|
    }

    /** The remaining balances of the active loans, summed. */
    function ActiveLoanAmount(): (total: Cents)
      reads this
      requires Valid()
      ensures total == SumOver(loans, KeysWith(loans, IsActive), LoanBalance)
    {
      FilterSum(loans, 1, currentId.loans, IsActive, LoanBalance);
      KeysWhereAll(loans, 1, currentId.loans, IsActive);
      SumOf(Filter(LoanValues(), IsActive), LoanBalance)
    }

    /** Every profit record's total, summed. */
    function TotalProfit(): (total: Cents)
      reads this
      requires Valid()
      ensures total == SumOver(profits, profits.Keys, ProfitTotal)
    {
      ListingSum(profits, 1, currentId.profits, ProfitTotal);
      SumOf(GetProfits(), ProfitTotal)
    }
  }
}
