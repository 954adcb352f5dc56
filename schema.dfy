/** The rows of the six tables, the insert shapes callers submit, the partial
    update shapes, and the joined shapes the read operations return, as
    declared in shared/schema.ts.

    Units: every money column is `decimal(10, 2)` and is held here as whole
    cents; the percentage columns are `decimal(5, 2)` and are held as
    hundredths of a percent.  Timestamps are opaque instants that callers
    pass in. */
module Schema {
  import opened Wrappers

  type Id = int

  /** A `decimal(10, 2)` amount of money, in cents. */
  type Cents = int

  /** A `decimal(5, 2)` percentage, in hundredths of a percent. */
  type Hundredths = int

  /** An instant; the clock (`new Date()`) is outside the model. */
  type Timestamp = int

  /** A boolean column with a declared default.  The insert shape leaves such
      a column optional and does not fill in the default, so a row may lack
      it (`None`); every reader tests it for truthiness. */
  type Flag = Option<bool>

  /** JavaScript truthiness of a flag: only a stored `true` counts. */
  predicate IsSet(f: Flag)
  {
    f == Some(true)
  }

  datatype Organization = Organization(id: Id, name: string, createdBy: Id, createdAt: Timestamp)

  datatype Member = Member(
    id: Id,
    name: string,
    email: string,
    password: string,
    organizationId: Option<Id>,
    isAdmin: Flag,
    canAddMembers: Flag,
    isSuperAdmin: Flag,
    isActive: Flag,
    joinDate: Timestamp)

  datatype Loan = Loan(
    id: Id,
    memberId: Id,
    amount: Cents,
    interestRate: Hundredths,
    termMonths: int,
    monthlyPayment: Cents,
    totalAmount: Cents,
    remainingBalance: Cents,
    purpose: string,
    status: Option<string>,
    startDate: Option<Timestamp>,
    createdAt: Timestamp)

  /** `paymentMonth` is a `varchar(7)` that holds a "YYYY-MM" token. */
  datatype Repayment = Repayment(id: Id, loanId: Id, amount: Cents, paidAt: Timestamp, paymentMonth: string)

  datatype MonthlyContribution = MonthlyContribution(id: Id, memberId: Id, month: string, amountPaid: Cents, paidAt: Timestamp)

  datatype Profit = Profit(
    id: Id,
    totalProfit: Cents,
    fixedPercent: Hundredths,
    sharedPercentPerMember: Hundredths,
    calculationDate: Timestamp,
    year: int)

  // Insert shapes: the row without the columns `createInsertSchema(...).omit`
  // removes.  A column with a default, or a nullable one, is optional.

  datatype InsertOrganization = InsertOrganization(name: string, createdBy: Id)

  datatype InsertMember = InsertMember(
    name: string,
    email: string,
    password: string,
    organizationId: Option<Id>,
    isAdmin: Flag,
    canAddMembers: Flag,
    isSuperAdmin: Flag,
    isActive: Flag)

  /** No id, createdAt, startDate, remainingBalance, monthlyPayment or
      totalAmount: a caller cannot supply the derived columns. */
  datatype InsertLoan = InsertLoan(
    memberId: Id,
    amount: Cents,
    interestRate: Hundredths,
    termMonths: int,
    purpose: string,
    status: Option<string>)

  datatype InsertRepayment = InsertRepayment(loanId: Id, amount: Cents, paymentMonth: string)

  datatype InsertMonthlyContribution = InsertMonthlyContribution(memberId: Id, month: string, amountPaid: Cents)

  datatype InsertProfit = InsertProfit(
    totalProfit: Cents,
    fixedPercent: Hundredths,
    sharedPercentPerMember: Hundredths,
    year: int)

  /** The insert-shape columns of a row. */
  function OrganizationFields(o: Organization): InsertOrganization
  {
    InsertOrganization(o.name, o.createdBy)
  }

  function MemberFields(m: Member): InsertMember
  {
    InsertMember(m.name, m.email, m.password, m.organizationId,
                 m.isAdmin, m.canAddMembers, m.isSuperAdmin, m.isActive)
  }

  function LoanFields(l: Loan): InsertLoan
  {
    InsertLoan(l.memberId, l.amount, l.interestRate, l.termMonths, l.purpose, l.status)
  }

  function RepaymentFields(r: Repayment): InsertRepayment
  {
    InsertRepayment(r.loanId, r.amount, r.paymentMonth)
  }

  function ContributionFields(c: MonthlyContribution): InsertMonthlyContribution
  {
    InsertMonthlyContribution(c.memberId, c.month, c.amountPaid)
  }

  function ProfitFields(p: Profit): InsertProfit
  {
    InsertProfit(p.totalProfit, p.fixedPercent, p.sharedPercentPerMember, p.year)
  }

  // Partial update shapes (`Partial<Insert...>`): `None` leaves a column as
  // it is.

  datatype OrganizationPatch = OrganizationPatch(name: Option<string>, createdBy: Option<Id>)

  /** `organizationId: Some(None)` is an explicit `null`, which clears it. */
  datatype MemberPatch = MemberPatch(
    name: Option<string>,
    email: Option<string>,
    password: Option<string>,
    organizationId: Option<Option<Id>>,
    isAdmin: Option<bool>,
    canAddMembers: Option<bool>,
    isSuperAdmin: Option<bool>,
    isActive: Option<bool>)

  /** The insert-shape columns as options, and `startDate`, which only the
      loan status route sets: it builds its update object by hand instead of
      parsing it with the insert schema. */
  datatype LoanPatch = LoanPatch(
    memberId: Option<Id>,
    amount: Option<Cents>,
    interestRate: Option<Hundredths>,
    termMonths: Option<int>,
    purpose: Option<string>,
    status: Option<string>,
    startDate: Option<Timestamp>)

  // Joined read shapes.  A member's organization is optional; a loan's
  // member and a repayment's loan are required.

  datatype MemberWithOrganization = MemberWithOrganization(member: Member, organization: Option<Organization>)

  datatype LoanWithMember = LoanWithMember(loan: Loan, member: MemberWithOrganization)

  datatype RepaymentWithLoan = RepaymentWithLoan(repayment: Repayment, loan: LoanWithMember)

  // Declared column defaults.  A database applies them on insert; the
  // in-memory store does not (see Storage.MemStorage.CreateMember).

  function DefaultTo(f: Flag, d: bool): Flag
  {
    if f.Some? then f else Some(d)
  }

  /** `isAdmin`, `canAddMembers` and `isSuperAdmin` default to false and
      `isActive` to true. */
  function WithMemberDefaults(m: InsertMember): (r: InsertMember)
    ensures r.isAdmin.Some? && r.canAddMembers.Some? && r.isSuperAdmin.Some? && r.isActive.Some?
    ensures m.isActive.None? ==> IsSet(r.isActive)
    ensures m.isAdmin.None? ==> !IsSet(r.isAdmin)
    ensures m.canAddMembers.None? ==> !IsSet(r.canAddMembers)
    ensures m.isSuperAdmin.None? ==> !IsSet(r.isSuperAdmin)
    ensures m.isAdmin.Some? ==> r.isAdmin == m.isAdmin
    ensures m.canAddMembers.Some? ==> r.canAddMembers == m.canAddMembers
    ensures m.isSuperAdmin.Some? ==> r.isSuperAdmin == m.isSuperAdmin
    ensures m.isActive.Some? ==> r.isActive == m.isActive
    ensures r.(isAdmin := m.isAdmin, canAddMembers := m.canAddMembers,
               isSuperAdmin := m.isSuperAdmin, isActive := m.isActive) == m
  {
    m.(isAdmin := DefaultTo(m.isAdmin, false),
       canAddMembers := DefaultTo(m.canAddMembers, false),
       isSuperAdmin := DefaultTo(m.isSuperAdmin, false),
       isActive := DefaultTo(m.isActive, true))
  }

  /** A loan's `status` defaults to "pending". */
  function WithLoanDefaults(l: InsertLoan): (r: InsertLoan)
    ensures r.status.Some?
    ensures l.status.None? ==> r.status == Some("pending")
    ensures l.status.Some? ==> r == l
    ensures r.(status := l.status) == l
  {
    if l.status.Some? then l else l.(status := Some("pending"))
  }
}
