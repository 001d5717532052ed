/**
 * The records of the finance tracker (lib/models.ts), their partial-field
 * patches, the object-spread merge `{...record, ...patch}`, and the `create*`
 * factories with their defaults.
 *
 * Amounts are `real` (no floating-point rounding). A date is the number of
 * days since 1970-01-01 of the UTC day a "YYYY-MM-DD" string names, and a
 * timestamp is what `Date.now()` returns: milliseconds since the same
 * instant. Ids are strings. The field the source calls `type` is `kind`.
 */
module Models {
  import opened Wrappers

  type Id = string
  type Date = int
  type Timestamp = int

  const MsPerDay: int := 86400000

  /** `new Date("YYYY-MM-DD").getTime()`: the day's UTC midnight. */
  function DayStart(d: Date): Timestamp {
    d * MsPerDay
  }

  datatype WalletType = Checking | Savings | Cash | InvestmentAccount
  datatype TransactionType = Income | Expense
  datatype BudgetPeriod = Weekly | Monthly | Yearly
  datatype LoanType = Lent | Borrowed
  datatype LoanStatus = Active | Paid | Overdue
  datatype InvestmentType =
    FixedDeposit | RecurringDeposit | Stock | MutualFund | Etf | Bond | Crypto | Property | OtherInvestment

  datatype Wallet = Wallet(
    id: Id, name: string, kind: WalletType, balance: real,
    currency: string, description: string, createdAt: Timestamp)

  datatype Transaction = Transaction(
    id: Id, amount: real, kind: TransactionType, category: string,
    description: string, walletId: Id, date: Date, createdAt: Timestamp)

  /** `endDate == None` is an open-ended budget. */
  datatype Budget = Budget(
    id: Id, name: string, category: string, amount: real, period: BudgetPeriod,
    startDate: Date, endDate: Option<Date>, createdAt: Timestamp)

  datatype Saving = Saving(
    id: Id, name: string, targetAmount: real, currentAmount: real,
    targetDate: Option<Date>, description: string, category: string, createdAt: Timestamp)

  /** `paidAmount` is an optional field: None when no payment was ever recorded. */
  datatype Loan = Loan(
    id: Id, kind: LoanType, amount: real, personName: string, description: string,
    dueDate: Option<Date>, interestRate: real, status: LoanStatus,
    paidAmount: Option<real>, createdAt: Timestamp)

  datatype Investment = Investment(
    id: Id, name: string, kind: InvestmentType,
    symbol: Option<string>, institutionName: Option<string>, interestRate: Option<real>,
    startDate: Option<Date>, maturityDate: Option<Date>,
    propertyAddress: Option<string>, propertyAreaSqFt: Option<real>, rentalIncome: Option<real>,
    investedAmount: real, currentValue: real, description: string, createdAt: Timestamp)

  // The id of each kind of record, as the key that `findIndex` and `filter` compare.
  function WalletKey(w: Wallet): Id { w.id }
  function TransactionKey(t: Transaction): Id { t.id }
  function BudgetKey(b: Budget): Id { b.id }
  function SavingKey(s: Saving): Id { s.id }
  function LoanKey(l: Loan): Id { l.id }
  function InvestmentKey(i: Investment): Id { i.id }

  // ---------------------------------------------------------------------
  // Partial<T>: one optional value per field; None is a field the patch
  // does not carry. An optional or nullable field carries an Option, so a
  // patch may set it to a value or to null.

  datatype WalletPatch = WalletPatch(
    id: Option<Id>, name: Option<string>, kind: Option<WalletType>, balance: Option<real>,
    currency: Option<string>, description: Option<string>, createdAt: Option<Timestamp>)

  datatype TransactionPatch = TransactionPatch(
    id: Option<Id>, amount: Option<real>, kind: Option<TransactionType>, category: Option<string>,
    description: Option<string>, walletId: Option<Id>, date: Option<Date>, createdAt: Option<Timestamp>)

  datatype BudgetPatch = BudgetPatch(
    id: Option<Id>, name: Option<string>, category: Option<string>, amount: Option<real>,
    period: Option<BudgetPeriod>, startDate: Option<Date>, endDate: Option<Option<Date>>,
    createdAt: Option<Timestamp>)

  datatype SavingPatch = SavingPatch(
    id: Option<Id>, name: Option<string>, targetAmount: Option<real>, currentAmount: Option<real>,
    targetDate: Option<Option<Date>>, description: Option<string>, category: Option<string>,
    createdAt: Option<Timestamp>)

  datatype LoanPatch = LoanPatch(
    id: Option<Id>, kind: Option<LoanType>, amount: Option<real>, personName: Option<string>,
    description: Option<string>, dueDate: Option<Option<Date>>, interestRate: Option<real>,
    status: Option<LoanStatus>, paidAmount: Option<real>, createdAt: Option<Timestamp>)

  datatype InvestmentPatch = InvestmentPatch(
    id: Option<Id>, name: Option<string>, kind: Option<InvestmentType>,
    symbol: Option<Option<string>>, institutionName: Option<Option<string>>,
    interestRate: Option<Option<real>>, startDate: Option<Option<Date>>,
    maturityDate: Option<Option<Date>>, propertyAddress: Option<Option<string>>,
    propertyAreaSqFt: Option<Option<real>>, rentalIncome: Option<Option<real>>,
    investedAmount: Option<real>, currentValue: Option<real>, description: Option<string>,
    createdAt: Option<Timestamp>)

  const NoWalletChanges := WalletPatch(None, None, None, None, None, None, None)
  const NoTransactionChanges := TransactionPatch(None, None, None, None, None, None, None, None)
  const NoBudgetChanges := BudgetPatch(None, None, None, None, None, None, None, None)
  const NoSavingChanges := SavingPatch(None, None, None, None, None, None, None, None)
  const NoLoanChanges := LoanPatch(None, None, None, None, None, None, None, None, None, None)
  const NoInvestmentChanges := InvestmentPatch(
    None, None, None, None, None, None, None, None, None, None, None, None, None, None, None)

  // {...record, ...patch}: a field the patch carries wins, every other field is kept.

  function MergeWallet(w: Wallet, p: WalletPatch): Wallet {
    Wallet(p.id.GetOr(w.id), p.name.GetOr(w.name), p.kind.GetOr(w.kind),
           p.balance.GetOr(w.balance), p.currency.GetOr(w.currency),
           p.description.GetOr(w.description), p.createdAt.GetOr(w.createdAt))
  }

  function MergeTransaction(t: Transaction, p: TransactionPatch): Transaction {
    Transaction(p.id.GetOr(t.id), p.amount.GetOr(t.amount), p.kind.GetOr(t.kind),
                p.category.GetOr(t.category), p.description.GetOr(t.description),
                p.walletId.GetOr(t.walletId), p.date.GetOr(t.date), p.createdAt.GetOr(t.createdAt))
  }

  function MergeBudget(b: Budget, p: BudgetPatch): Budget {
    Budget(p.id.GetOr(b.id), p.name.GetOr(b.name), p.category.GetOr(b.category),
           p.amount.GetOr(b.amount), p.period.GetOr(b.period), p.startDate.GetOr(b.startDate),
           p.endDate.GetOr(b.endDate), p.createdAt.GetOr(b.createdAt))
  }

  function MergeSaving(s: Saving, p: SavingPatch): Saving {
    Saving(p.id.GetOr(s.id), p.name.GetOr(s.name), p.targetAmount.GetOr(s.targetAmount),
           p.currentAmount.GetOr(s.currentAmount), p.targetDate.GetOr(s.targetDate),
           p.description.GetOr(s.description), p.category.GetOr(s.category),
           p.createdAt.GetOr(s.createdAt))
  }

  function MergeLoan(l: Loan, p: LoanPatch): Loan {
    Loan(p.id.GetOr(l.id), p.kind.GetOr(l.kind), p.amount.GetOr(l.amount),
         p.personName.GetOr(l.personName), p.description.GetOr(l.description),
         p.dueDate.GetOr(l.dueDate), p.interestRate.GetOr(l.interestRate),
         p.status.GetOr(l.status),
         if p.paidAmount.Some? then p.paidAmount else l.paidAmount,
         p.createdAt.GetOr(l.createdAt))
  }

  function MergeInvestment(i: Investment, p: InvestmentPatch): Investment {
    Investment(p.id.GetOr(i.id), p.name.GetOr(i.name), p.kind.GetOr(i.kind),
               p.symbol.GetOr(i.symbol), p.institutionName.GetOr(i.institutionName),
               p.interestRate.GetOr(i.interestRate), p.startDate.GetOr(i.startDate),
               p.maturityDate.GetOr(i.maturityDate), p.propertyAddress.GetOr(i.propertyAddress),
               p.propertyAreaSqFt.GetOr(i.propertyAreaSqFt), p.rentalIncome.GetOr(i.rentalIncome),
               p.investedAmount.GetOr(i.investedAmount), p.currentValue.GetOr(i.currentValue),
               p.description.GetOr(i.description), p.createdAt.GetOr(i.createdAt))
  }

  /** A merge reapplied changes nothing more, and the empty patch changes nothing. */
  lemma MergeLoanIdempotent(l: Loan, p: LoanPatch)
    ensures MergeLoan(MergeLoan(l, p), p) == MergeLoan(l, p)
    ensures MergeLoan(l, NoLoanChanges) == l
  {
  }

  // ---------------------------------------------------------------------
  // Factories. Each takes a Partial<T>, fills the fields it does not carry
  // with defaults, and stamps the record with `id` and `createdAt`, which
  // the caller supplies (Date.now() in the source). Id and createdAt in the
  // patch are never read. `today` stands for today's date.

  function CreateWallet(p: WalletPatch, id: Id, now: Timestamp): (w: Wallet)
    ensures w.id == id && w.createdAt == now
    ensures w.name == p.name.GetOr("New Wallet")
    ensures w.kind == p.kind.GetOr(Checking)
    ensures w.balance == p.balance.GetOr(0.0)
    ensures w.currency == p.currency.GetOr("USD")
    ensures w.description == p.description.GetOr("")
  {
    Wallet(id, p.name.GetOr("New Wallet"), p.kind.GetOr(Checking), p.balance.GetOr(0.0),
           p.currency.GetOr("USD"), p.description.GetOr(""), now)
  }

  function CreateTransaction(p: TransactionPatch, id: Id, now: Timestamp, today: Date): (t: Transaction)
    requires p.amount.Some?
    ensures t.id == id && t.createdAt == now && t.amount == p.amount.value
    ensures t.kind == p.kind.GetOr(Expense)
    ensures t.category == p.category.GetOr("general")
    ensures t.description == p.description.GetOr("")
    ensures t.walletId == p.walletId.GetOr("")
    ensures t.date == p.date.GetOr(today)
  {
    Transaction(id, p.amount.value, p.kind.GetOr(Expense), p.category.GetOr("general"),
                p.description.GetOr(""), p.walletId.GetOr(""), p.date.GetOr(today), now)
  }

  function CreateBudget(p: BudgetPatch, id: Id, now: Timestamp, today: Date): (b: Budget)
    requires p.amount.Some?
    ensures b.id == id && b.createdAt == now && b.amount == p.amount.value
    ensures b.name == p.name.GetOr("New Budget")
    ensures b.category == p.category.GetOr("general")
    ensures b.period == p.period.GetOr(Monthly)
    ensures b.startDate == p.startDate.GetOr(today)
    ensures b.endDate == p.endDate.GetOr(None)
  {
    Budget(id, p.name.GetOr("New Budget"), p.category.GetOr("general"), p.amount.value,
           p.period.GetOr(Monthly), p.startDate.GetOr(today), p.endDate.GetOr(None), now)
  }

  function CreateSaving(p: SavingPatch, id: Id, now: Timestamp): (s: Saving)
    requires p.targetAmount.Some?
    ensures s.id == id && s.createdAt == now && s.targetAmount == p.targetAmount.value
    ensures s.name == p.name.GetOr("New Saving Goal")
    ensures s.currentAmount == p.currentAmount.GetOr(0.0)
    ensures s.targetDate == p.targetDate.GetOr(None)
    ensures s.description == p.description.GetOr("")
    ensures s.category == p.category.GetOr("general")
  {
    Saving(id, p.name.GetOr("New Saving Goal"), p.targetAmount.value, p.currentAmount.GetOr(0.0),
           p.targetDate.GetOr(None), p.description.GetOr(""), p.category.GetOr("general"), now)
  }

  /** The new loan never carries `paidAmount`, even when the patch does. */
  function CreateLoan(p: LoanPatch, id: Id, now: Timestamp): (l: Loan)
    requires p.amount.Some?
    ensures l.id == id && l.createdAt == now && l.amount == p.amount.value
    ensures l.kind == p.kind.GetOr(Lent)
    ensures l.personName == p.personName.GetOr("")
    ensures l.description == p.description.GetOr("")
    ensures l.dueDate == p.dueDate.GetOr(None)
    ensures l.interestRate == p.interestRate.GetOr(0.0)
    ensures l.status == p.status.GetOr(Active)
    ensures l.paidAmount == None
  {
    Loan(id, p.kind.GetOr(Lent), p.amount.value, p.personName.GetOr(""), p.description.GetOr(""),
         p.dueDate.GetOr(None), p.interestRate.GetOr(0.0), p.status.GetOr(Active), None, now)
  }

  /** With nothing supplied, a wallet is an empty US-dollar checking account. */
  lemma DefaultWallet(id: Id, now: Timestamp)
    ensures CreateWallet(NoWalletChanges, id, now)
         == Wallet(id, "New Wallet", Checking, 0.0, "USD", "", now)
  {
  }

  /** With only an amount supplied, a loan is money lent, active, interest-free, undated and unpaid. */
  lemma DefaultLoan(amount: real, id: Id, now: Timestamp)
    ensures CreateLoan(NoLoanChanges.(amount := Some(amount)), id, now)
         == Loan(id, Lent, amount, "", "", None, 0.0, Active, None, now)
  {
  }
}
