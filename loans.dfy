/**
 * The loan screen's logic (screens/LoansScreen.tsx): validating a new
 * loan, recording a payment, marking a loan paid, the status badge, and
 * the four totals.
 *
 * Each handler is split in two: a pure decision (accept with the patch or
 * record to save, or refuse with the alert's reason) and a method that
 * applies an accepted decision to the store. A text field the screen runs
 * through `parseFloat` arrives as `Option<real>`: None for an empty field
 * or one that does not parse.
 */
module Loans {
  import opened Wrappers
  import opened Collections
  import opened Models
  import opened Storage

  /** `loan.paidAmount || 0`. */
  function PaidOrZero(l: Loan): real {
    l.paidAmount.GetOr(0.0)
  }

  function LoanAmount(l: Loan): real { l.amount }

  /** No more has been paid than is owed, and nothing negative. */
  predicate PaidWithinAmount(l: Loan) {
    0.0 <= PaidOrZero(l) <= l.amount
  }

  // ---------------------------------------------------------------------
  // handleAddPayment

  datatype PaymentError =
    | InvalidAmount     // 'Please enter a valid payment amount'
    | NotPositive       // 'Payment amount must be greater than 0'
    | ExceedsRemaining  // 'Payment amount exceeds remaining loan amount'

  /**
   * The checks, in the screen's order, on the loan the payment dialog was
   * opened for (None when none is selected, which the screen reads as an
   * amount of 0, so every payment is refused). An accepted payment yields
   * the patch to save.
   */
  function DecidePayment(selected: Option<Loan>, entered: Option<real>): (r: Result<LoanPatch, PaymentError>)
    ensures entered.None? ==> r == Err(InvalidAmount)
    ensures entered.Some? && entered.value <= 0.0 ==> r == Err(NotPositive)
    ensures entered.Some? && 0.0 < entered.value && !r.Ok? ==> r == Err(ExceedsRemaining)
    ensures r.Ok? <==> selected.Some? && entered.Some? && 0.0 < entered.value
                       && PaidOrZero(selected.value) + entered.value <= selected.value.amount
    ensures r.Ok? ==> r.value.paidAmount == Some(PaidOrZero(selected.value) + entered.value)
    ensures r.Ok? ==> (r.value.status == Some(Paid) <==> PaidOrZero(selected.value) + entered.value == selected.value.amount)
    ensures r.Ok? ==> r.value.status.Some? && r.value.status.value in {Paid, Active}
  {
    if entered.None? then Err(InvalidAmount)
    else
      var amount := entered.value;
      if amount <= 0.0 then Err(NotPositive)
      else
        var currentPaid := if selected.Some? then PaidOrZero(selected.value) else 0.0;
        var loanAmount := if selected.Some? then selected.value.amount else 0.0;
        var newPaidAmount := currentPaid + amount;
        if newPaidAmount > loanAmount then Err(ExceedsRemaining)
        else
          var newStatus := if newPaidAmount >= loanAmount then Paid else Active;
          Ok(NoLoanChanges.(paidAmount := Some(newPaidAmount), status := Some(newStatus)))
  }

  /**
   * Saving an accepted payment changes only the paid amount, which grows
   * by the payment, and the status; a loan that obeyed the bound still does.
   */
  lemma PaymentEffect(l: Loan, x: real)
    requires DecidePayment(Some(l), Some(x)).Ok?
    ensures var m := MergeLoan(l, DecidePayment(Some(l), Some(x)).value);
      m == l.(paidAmount := m.paidAmount, status := m.status)
      && PaidOrZero(m) == PaidOrZero(l) + x && PaidOrZero(l) < PaidOrZero(m)
      && (0.0 <= PaidOrZero(l) ==> PaidWithinAmount(m))
  {
  }

  /**
   * After an accepted payment on a loan whose paid amount is not negative,
   * the badge reads Paid when the loan is settled and Partial otherwise.
   */
  lemma PaymentShowsProgress(l: Loan, x: real, now: Timestamp)
    requires 0.0 <= PaidOrZero(l)
    requires DecidePayment(Some(l), Some(x)).Ok?
    ensures var m := MergeLoan(l, DecidePayment(Some(l), Some(x)).value);
      GetLoanStatus(m, now) == (if PaidOrZero(m) == l.amount then PaidBadge else PartialBadge)
  {
  }

  /** Applies handleAddPayment to the store: a refused payment changes nothing. */
  method HandleAddPayment(store: Store, selected: Option<Loan>, entered: Option<real>)
    returns (r: Result<Option<Loan>, PaymentError>)
    modifies store`loans
    ensures match DecidePayment(selected, entered)
      case Err(e) => r == Err(e) && store.loans == old(store.loans)
      case Ok(patch) =>
        match IndexOf(old(store.loans), selected.value.id, LoanKey)
        case None => r == Ok(None) && store.loans == old(store.loans)
        case Some(i) =>
          r == Ok(Some(MergeLoan(old(store.loans)[i], patch)))
          && store.loans == old(store.loans)[i := MergeLoan(old(store.loans)[i], patch)]
  {
    var decision := DecidePayment(selected, entered);
    if decision.Err? {
      return Err(decision.error);
    }
    var updated := store.UpdateLoan(selected.value.id, decision.value);
    r := Ok(updated);
  }

  // ---------------------------------------------------------------------
  // handleMarkPaid

  /** `{ paidAmount: loan.amount, status: 'paid' }`. */
  function MarkPaidPatch(l: Loan): (p: LoanPatch)
    ensures MergeLoan(l, p) == l.(paidAmount := Some(l.amount), status := Paid)
  {
    NoLoanChanges.(paidAmount := Some(l.amount), status := Some(Paid))
  }

  /** A loan marked paid shows the Paid badge and has its whole amount paid. */
  lemma MarkPaidSettles(l: Loan, now: Timestamp)
    ensures GetLoanStatus(MergeLoan(l, MarkPaidPatch(l)), now) == PaidBadge
    ensures PaidOrZero(MergeLoan(l, MarkPaidPatch(l))) == l.amount
    ensures 0.0 <= l.amount ==> PaidWithinAmount(MergeLoan(l, MarkPaidPatch(l)))
  {
  }

  /** Applies handleMarkPaid once the dialog is answered: cancelling changes nothing. */
  method HandleMarkPaid(store: Store, l: Loan, confirmed: bool) returns (r: Option<Loan>)
    modifies store`loans
    ensures !confirmed ==> r == None && store.loans == old(store.loans)
    ensures confirmed ==>
      match IndexOf(old(store.loans), l.id, LoanKey)
      case None => r == None && store.loans == old(store.loans)
      case Some(i) =>
        r == Some(MergeLoan(old(store.loans)[i], MarkPaidPatch(l)))
        && store.loans == old(store.loans)[i := r.value]
  {
    if !confirmed {
      return None;
    }
    r := store.UpdateLoan(l.id, MarkPaidPatch(l));
  }

  // ---------------------------------------------------------------------
  // getLoanStatus

  datatype StatusBadge = PaidBadge | PartialBadge | OverdueBadge | PendingBadge {
    function Label(): string {
      match this
      case PaidBadge => "Paid"
      case PartialBadge => "Partial"
      case OverdueBadge => "Overdue"
      case PendingBadge => "Pending"
    }

    function Color(): string {
      match this
      case PaidBadge => "#10B981"
      case PartialBadge => "#F59E0B"
      case OverdueBadge => "#EF4444"
      case PendingBadge => "#3B82F6"
    }
  }

  /**
   * The badge, first match wins: the Paid status; a partly paid amount;
   * a due date whose UTC midnight lies before the moment `now`, so a loan
   * is already overdue during its due day; otherwise pending. The stored
   * status Overdue is never consulted.
   */
  function GetLoanStatus(l: Loan, now: Timestamp): (r: StatusBadge)
    ensures r == PaidBadge <==> l.status == Paid
    ensures r == PartialBadge <==> l.status != Paid && 0.0 < PaidOrZero(l) < l.amount
    ensures r == OverdueBadge <==>
      l.status != Paid && !(0.0 < PaidOrZero(l) < l.amount) && l.dueDate.Some? && DayStart(l.dueDate.value) < now
    ensures r == PendingBadge <==>
      l.status != Paid && !(0.0 < PaidOrZero(l) < l.amount) && !(l.dueDate.Some? && DayStart(l.dueDate.value) < now)
  {
    if l.status == Paid then PaidBadge
    else
      var paidAmount := PaidOrZero(l);
      if paidAmount > 0.0 && paidAmount < l.amount then PartialBadge
      else if l.dueDate.Some? && DayStart(l.dueDate.value) < now then OverdueBadge
      else PendingBadge
  }

  /** A loan without a due date is never overdue, and an overdue loan stays overdue as time passes. */
  lemma OverdueIsPermanent(l: Loan, now: Timestamp, later: Timestamp)
    requires now <= later
    ensures l.dueDate.None? ==> GetLoanStatus(l, now) != OverdueBadge
    ensures GetLoanStatus(l, now) == OverdueBadge ==> GetLoanStatus(l, later) == OverdueBadge
  {
  }

  /**
   * On its due day an open, unpaid loan already reads Overdue from the first
   * millisecond after midnight UTC; it reads Pending only up to that midnight.
   */
  lemma DueDayIsOverdue(l: Loan, now: Timestamp)
    requires l.status != Paid && PaidOrZero(l) == 0.0 && l.dueDate.Some?
    ensures DayStart(l.dueDate.value) < now < DayStart(l.dueDate.value + 1) ==> GetLoanStatus(l, now) == OverdueBadge
    ensures now <= DayStart(l.dueDate.value) ==> GetLoanStatus(l, now) == PendingBadge
  {
  }

  // ---------------------------------------------------------------------
  // The totals

  predicate IsLent(l: Loan) { l.kind == Lent }
  predicate IsBorrowed(l: Loan) { l.kind == Borrowed }

  function TotalLent(ls: seq<Loan>): real { Sum(Filter(ls, IsLent), LoanAmount) }
  function TotalBorrowed(ls: seq<Loan>): real { Sum(Filter(ls, IsBorrowed), LoanAmount) }
  function TotalReceived(ls: seq<Loan>): real { Sum(Filter(ls, IsLent), PaidOrZero) }
  function TotalRepaid(ls: seq<Loan>): real { Sum(Filter(ls, IsBorrowed), PaidOrZero) }

  /** Every loan is lent or borrowed, so the two totals share out the whole amount. */
  lemma LentPlusBorrowed(ls: seq<Loan>)
    ensures TotalLent(ls) + TotalBorrowed(ls) == Sum(ls, LoanAmount)
    ensures TotalReceived(ls) + TotalRepaid(ls) == Sum(ls, PaidOrZero)
  {
    SumPartition(ls, IsLent, IsBorrowed, LoanAmount);
    SumPartition(ls, IsLent, IsBorrowed, PaidOrZero);
  }

  /** While every loan obeys the bound, no more was received than lent nor repaid than borrowed. */
  lemma PaidWithinTotals(ls: seq<Loan>)
    requires forall j :: 0 <= j < |ls| ==> PaidWithinAmount(ls[j])
    ensures 0.0 <= TotalReceived(ls) <= TotalLent(ls)
    ensures 0.0 <= TotalRepaid(ls) <= TotalBorrowed(ls)
  {
    var lent, borrowed := Filter(ls, IsLent), Filter(ls, IsBorrowed);
    FilterMembers(ls, IsLent);
    FilterMembers(ls, IsBorrowed);
    forall j | 0 <= j < |lent| ensures PaidWithinAmount(lent[j]) {
      assert lent[j] in ls;
    }
    forall j | 0 <= j < |borrowed| ensures PaidWithinAmount(borrowed[j]) {
      assert borrowed[j] in ls;
    }
    SumMonotone(lent, PaidOrZero, LoanAmount);
    SumMonotone(borrowed, PaidOrZero, LoanAmount);
    SumNonNegative(lent, PaidOrZero);
    SumNonNegative(borrowed, PaidOrZero);
  }

  /** A payment saved on a lent loan raises the total received by the payment and leaves the other totals alone. */
  lemma PaymentRaisesReceived(ls: seq<Loan>, i: nat, x: real)
    requires i < |ls| && ls[i].kind == Lent
    requires DecidePayment(Some(ls[i]), Some(x)).Ok?
    ensures var after := ls[i := MergeLoan(ls[i], DecidePayment(Some(ls[i]), Some(x)).value)];
      TotalReceived(after) == TotalReceived(ls) + x
      && TotalLent(after) == TotalLent(ls)
      && TotalRepaid(after) == TotalRepaid(ls)
  {
    var m := MergeLoan(ls[i], DecidePayment(Some(ls[i]), Some(x)).value);
    var after := ls[i := m];
    PaymentEffect(ls[i], x);
    assert m.amount == ls[i].amount && m.kind == ls[i].kind;
    assert IsLent(m) && IsLent(ls[i]) && !IsBorrowed(m) && !IsBorrowed(ls[i]);
    assert Masked(IsLent, PaidOrZero)(m) == Masked(IsLent, PaidOrZero)(ls[i]) + x;
    assert LoanAmount(m) == LoanAmount(ls[i]);
    assert Masked(IsLent, LoanAmount)(m) == LoanAmount(m);
    assert Masked(IsLent, LoanAmount)(ls[i]) == LoanAmount(ls[i]);
    assert Masked(IsBorrowed, PaidOrZero)(m) == Masked(IsBorrowed, PaidOrZero)(ls[i]);
    SumFilter(ls, IsLent, PaidOrZero);
    SumFilter(after, IsLent, PaidOrZero);
    SumUpdate(ls, i, m, Masked(IsLent, PaidOrZero));
    SumFilter(ls, IsLent, LoanAmount);
    SumFilter(after, IsLent, LoanAmount);
    SumUpdate(ls, i, m, Masked(IsLent, LoanAmount));
    SumFilter(ls, IsBorrowed, PaidOrZero);
    SumFilter(after, IsBorrowed, PaidOrZero);
    SumUpdate(ls, i, m, Masked(IsBorrowed, PaidOrZero));
  }

  // ---------------------------------------------------------------------
  // handleAddLoan

  /** The characters `String.prototype.trim` removes: ECMAScript white space and line terminators. */
  predicate IsWhitespace(c: char) {
    c == '\U{0009}' || c == '\U{000A}' || c == '\U{000B}' || c == '\U{000C}' || c == '\U{000D}'
    || c == '\U{0020}' || c == '\U{00A0}' || c == '\U{1680}' || ('\U{2000}' <= c <= '\U{200A}')
    || c == '\U{2028}' || c == '\U{2029}' || c == '\U{202F}' || c == '\U{205F}'
    || c == '\U{3000}' || c == '\U{FEFF}'
  }

  function TrimStart(s: string): string {
    if |s| > 0 && IsWhitespace(s[0]) then TrimStart(s[1..]) else s
  }

  function TrimEnd(s: string): string {
    if |s| > 0 && IsWhitespace(s[|s| - 1]) then TrimEnd(s[..|s| - 1]) else s
  }

  /** `s.trim()`. */
  function Trim(s: string): string {
    TrimEnd(TrimStart(s))
  }

  /** Trimming the start drops a run of white space and stops at the first other character. */
  lemma {:induction false} TrimStartSpec(s: string)
    ensures var r := TrimStart(s);
      |r| <= |s| && r == s[|s| - |r|..]
      && (forall k :: 0 <= k < |s| - |r| ==> IsWhitespace(s[k]))
      && (|r| > 0 ==> !IsWhitespace(r[0]))
  {
    if |s| > 0 && IsWhitespace(s[0]) {
      TrimStartSpec(s[1..]);
    }
  }

  /** Trimming the end drops a run of white space and stops at the last other character. */
  lemma {:induction false} TrimEndSpec(s: string)
    ensures var r := TrimEnd(s);
      |r| <= |s| && r == s[..|r|]
      && (forall k :: |r| <= k < |s| ==> IsWhitespace(s[k]))
      && (|r| > 0 ==> !IsWhitespace(r[|r| - 1]))
  {
    if |s| > 0 && IsWhitespace(s[|s| - 1]) {
      TrimEndSpec(s[..|s| - 1]);
    }
  }

  /**
   * The trimmed text is what lies between the leading and the trailing
   * white space, and starts and ends with a character that is not white space.
   */
  lemma TrimSpec(s: string)
    ensures var r := Trim(s); var lead := |s| - |TrimStart(s)|;
      0 <= lead && lead + |r| <= |s| && r == s[lead..lead + |r|]
      && (forall k :: 0 <= k < lead ==> IsWhitespace(s[k]))
      && (forall k :: lead + |r| <= k < |s| ==> IsWhitespace(s[k]))
      && (|r| > 0 ==> !IsWhitespace(r[0]) && !IsWhitespace(r[|r| - 1]))
  {
    var t := TrimStart(s);
    TrimStartSpec(s);
    TrimEndSpec(t);
    var lead := |s| - |t|;
    var r := TrimEnd(t);
    assert r == s[lead..lead + |r|];
    forall k | lead + |r| <= k < |s|
      ensures IsWhitespace(s[k])
    {
      assert s[k] == t[k - lead];
    }
    if |r| > 0 {
      assert r[0] == t[0];
    }
  }

  /** A name is blank exactly when it is all white space, and trimming twice is trimming once. */
  lemma TrimBlank(s: string)
    ensures Trim(s) == "" <==> forall k :: 0 <= k < |s| ==> IsWhitespace(s[k])
    ensures Trim(Trim(s)) == Trim(s)
  {
    var r := Trim(s);
    TrimSpec(s);
    if r != "" {
      var lead := |s| - |TrimStart(s)|;
      assert s[lead] == r[0];
    }
    TrimFixed(r);
  }

  lemma TrimFixed(r: string)
    requires |r| > 0 ==> !IsWhitespace(r[0]) && !IsWhitespace(r[|r| - 1])
    ensures Trim(r) == r
  {
    if |r| > 0 {
      assert TrimEnd(r) == r;
      assert TrimStart(r) == r;
    }
  }

  /** The add-loan form as the screen holds it. */
  datatype LoanForm = LoanForm(
    kind: LoanType,
    personName: string,
    amount: Option<real>,
    description: string,
    dueDate: Option<Date>,       // None: left empty, saved as null
    interestRate: Option<real>)  // None: left empty, saved as 0

  datatype FormError =
    | MissingPersonName  // 'Please enter a person name'
    | InvalidLoanAmount  // 'Please enter a valid amount'

  /**
   * The checks in the screen's order; an accepted form yields the fields
   * handed to createLoan. Any amount that parses is accepted, including
   * zero and negative ones.
   */
  function ValidateLoanForm(f: LoanForm): (r: Result<LoanPatch, FormError>)
    ensures r == Err(MissingPersonName) <==> Trim(f.personName) == ""
    ensures r == Err(InvalidLoanAmount) <==> Trim(f.personName) != "" && f.amount.None?
    ensures r.Ok? ==> r.value.amount == f.amount && r.value.personName == Some(Trim(f.personName))
    ensures r.Ok? ==> r.value.kind == Some(f.kind) && r.value.description == Some(Trim(f.description))
    ensures r.Ok? ==> r.value.dueDate == Some(f.dueDate)
    ensures r.Ok? ==> r.value.interestRate == Some(f.interestRate.GetOr(0.0))
    ensures r.Ok? ==> r.value.status.None? && r.value.paidAmount.None?
  {
    if Trim(f.personName) == "" then Err(MissingPersonName)
    else if f.amount.None? then Err(InvalidLoanAmount)
    else Ok(NoLoanChanges.(
      kind := Some(f.kind),
      personName := Some(Trim(f.personName)),
      amount := f.amount,
      description := Some(Trim(f.description)),
      dueDate := Some(f.dueDate),
      interestRate := Some(f.interestRate.GetOr(0.0))))
  }

  /**
   * The loan an accepted form produces: active, unpaid, named with the
   * trimmed name and carrying the form's amount.
   */
  lemma AcceptedFormMakesActiveLoan(f: LoanForm, id: Id, now: Timestamp)
    requires ValidateLoanForm(f).Ok?
    ensures var l := CreateLoan(ValidateLoanForm(f).value, id, now);
      l.status == Active && l.paidAmount == None && PaidOrZero(l) == 0.0
      && l.personName == Trim(f.personName) && l.amount == f.amount.value
      && l.kind == f.kind && l.dueDate == f.dueDate
  {
  }

  /** A fresh loan shows Pending up to the first moment of its due day, and Overdue after. */
  lemma NewLoanBadge(f: LoanForm, id: Id, created: Timestamp, now: Timestamp)
    requires ValidateLoanForm(f).Ok?
    ensures var l := CreateLoan(ValidateLoanForm(f).value, id, created);
      GetLoanStatus(l, now) == (if f.dueDate.Some? && DayStart(f.dueDate.value) < now then OverdueBadge else PendingBadge)
  {
  }

  /**
   * Applies handleAddLoan: the factory stamps the loan with `factoryId`,
   * and the store keeps that id (the record carries one) but stamps its
   * own `createdAt`. A refused form changes nothing.
   */
  method HandleAddLoan(store: Store, f: LoanForm, factoryId: Id, factoryNow: Timestamp, storeId: Id, storeNow: Timestamp)
    returns (r: Result<Loan, FormError>)
    modifies store`loans
    ensures match ValidateLoanForm(f)
      case Err(e) => r == Err(e) && store.loans == old(store.loans)
      case Ok(patch) =>
        r == Ok(CreateLoan(patch, factoryId, factoryNow).(createdAt := storeNow))
        && store.loans == old(store.loans) + [r.value]
  {
    var decision := ValidateLoanForm(f);
    if decision.Err? {
      return Err(decision.error);
    }
    var loanData := CreateLoan(decision.value, factoryId, factoryNow);
    var stored := store.AddLoan(loanData, true, storeId, storeNow);
    r := Ok(stored);
  }
}
