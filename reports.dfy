/**
 * The summaries the screens show (lib/models.ts): total balance, budget
 * and saving progress, transactions in a date range, income against
 * expenses, and the most recent transactions.
 *
 * Dates are integers, so `new Date(a) >= new Date(b)` is `a >= b`; the
 * calendar arithmetic that picks the first day of a week, month or year
 * is left to the caller, who passes that day in.
 */
module Reports {
  import opened Wrappers
  import opened Collections
  import opened Models
  import opened BalanceSync

  function Amount(t: Transaction): real { t.amount }
  function Balance(w: Wallet): real { w.balance }

  // ---------------------------------------------------------------------
  // getTotalBalance

  function TotalBalance(ws: seq<Wallet>): real {
    Sum(ws, Balance)
  }

  /** No wallets total 0, and one more wallet adds its balance. */
  lemma TotalBalanceAppend(ws: seq<Wallet>, w: Wallet)
    ensures TotalBalance([]) == 0.0
    ensures TotalBalance(ws + [w]) == TotalBalance(ws) + w.balance
  {
    SumConcat(ws, [w], Balance);
  }

  /** Crediting a wallet moves the total by the credit when the wallet exists, and not at all otherwise. */
  lemma TotalBalanceCredit(ws: seq<Wallet>, walletId: Id, delta: real)
    ensures TotalBalance(Credit(ws, walletId, delta))
         == TotalBalance(ws) + (if IndexOf(ws, walletId, WalletKey).Some? then delta else 0.0)
  {
    match IndexOf(ws, walletId, WalletKey)
    case None =>
    case Some(i) =>
      var credited := ws[i].(balance := ws[i].balance + delta);
      assert Credit(ws, walletId, delta) == ws[i := credited];
      SumUpdate(ws, i, credited, Balance);
  }

  /** Recording a transaction moves the total balance by its effect, if its wallet exists. */
  lemma AddMovesTotalBalance(b: Books, t: Transaction)
    ensures TotalBalance(AfterAdd(b, t).wallets)
         == TotalBalance(b.wallets) + (if IndexOf(b.wallets, t.walletId, WalletKey).Some? then Effect(t) else 0.0)
  {
    TotalBalanceCredit(b.wallets, t.walletId, Effect(t));
  }

  /** Deleting a recorded transaction undoes its effect on the total, if its wallet exists. */
  lemma DeleteMovesTotalBalance(b: Books, i: nat)
    requires i < |b.transactions|
    requires IndexOf(b.transactions, b.transactions[i].id, TransactionKey) == Some(i)
    ensures TotalBalance(AfterDelete(b, b.transactions[i].id).wallets)
         == TotalBalance(b.wallets)
            - (if IndexOf(b.wallets, b.transactions[i].walletId, WalletKey).Some? then Effect(b.transactions[i]) else 0.0)
  {
    TotalBalanceCredit(b.wallets, b.transactions[i].walletId, Reversal(b.transactions[i]));
  }

  // ---------------------------------------------------------------------
  // calculateBudgetProgress

  /** An expense in the budget's category dated from its start to its end, if it has one. */
  predicate InBudget(b: Budget, t: Transaction) {
    t.category == b.category && t.kind == Expense && b.startDate <= t.date
    && (b.endDate.Some? ==> t.date <= b.endDate.value)
  }

  function InBudgetOf(b: Budget): Transaction -> bool {
    t => InBudget(b, t)
  }

  /** The amounts of the budget's transactions, added up. */
  function Spent(b: Budget, ts: seq<Transaction>): real {
    Sum(Filter(ts, InBudgetOf(b)), Amount)
  }

  datatype BudgetProgress = BudgetProgress(spent: real, remaining: real, percentage: real)

  function Min(x: real, y: real): real {
    if x <= y then x else y
  }

  /** `part / whole * 100` is the share of `whole` that `part` is, and it reaches 100 when `part` reaches `whole`. */
  lemma Percent(part: real, whole: real)
    requires 0.0 < whole
    ensures part / whole * 100.0 * whole == part * 100.0
    ensures 100.0 <= part / whole * 100.0 <==> whole <= part
    ensures 0.0 <= part ==> 0.0 <= part / whole * 100.0
  {
    var q := part / whole;
    assert q * whole == part;
    assert (q - 1.0) * whole == part - whole;
    SignOfProduct(q - 1.0, whole);
  }

  lemma SignOfProduct(x: real, y: real)
    requires 0.0 < y
    ensures 0.0 <= x * y <==> 0.0 <= x
  {
    if x < 0.0 {
      assert x * y < 0.0 * y;
    }
  }
  
  /** A larger part is a larger share. */
  lemma PercentMonotone(p1: real, p2: real, whole: real)
    requires 0.0 < whole && p1 <= p2
    ensures p1 / whole * 100.0 <= p2 / whole * 100.0
  {
    assert p2 / whole - p1 / whole == (p2 - p1) / whole;
  }

  /**
   * The percentage is the share of the budget spent, capped at 100; it
   * reaches 100 exactly when the budget is used up, and a budget whose
   * amount is not positive reports 0.
   */
  function CalculateBudgetProgress(b: Budget, ts: seq<Transaction>): (r: BudgetProgress)
    ensures r.spent == Spent(b, ts)
    ensures r.remaining == b.amount - r.spent
    ensures r.percentage <= 100.0
    ensures b.amount <= 0.0 ==> r.percentage == 0.0
    ensures 0.0 < b.amount ==> (r.percentage == 100.0 <==> b.amount <= r.spent)
    ensures 0.0 < b.amount && r.spent < b.amount ==> r.percentage * b.amount == r.spent * 100.0
  {
    var spent := Spent(b, ts);
    var percentage := if b.amount > 0.0 then (spent / b.amount) * 100.0 else 0.0;
    if b.amount > 0.0 then
      Percent(spent, b.amount);
      BudgetProgress(spent, b.amount - spent, Min(percentage, 100.0))
    else
      BudgetProgress(spent, b.amount - spent, Min(percentage, 100.0))
  }

  /** A new transaction adds its amount to `spent` exactly when it belongs to the budget. */
  lemma SpentAppend(b: Budget, ts: seq<Transaction>, t: Transaction)
    ensures Spent(b, ts + [t]) == Spent(b, ts) + (if InBudget(b, t) then t.amount else 0.0)
  {
    FilterConcat(ts, [t], InBudgetOf(b));
    SumConcat(Filter(ts, InBudgetOf(b)), Filter([t], InBudgetOf(b)), Amount);
  }

  /** Income, other categories and transactions outside the budget's dates never count. */
  lemma OutsideBudgetIgnored(b: Budget, ts: seq<Transaction>, t: Transaction)
    requires t.kind == Income || t.category != b.category || t.date < b.startDate
          || (b.endDate.Some? && b.endDate.value < t.date)
    ensures CalculateBudgetProgress(b, ts + [t]) == CalculateBudgetProgress(b, ts)
  {
    SpentAppend(b, ts, t);
  }

  /** With non-negative amounts, spending only grows, and the percentage with it. */
  lemma BudgetProgressMonotone(b: Budget, ts: seq<Transaction>, t: Transaction)
    requires 0.0 <= t.amount
    ensures CalculateBudgetProgress(b, ts).spent <= CalculateBudgetProgress(b, ts + [t]).spent
    ensures CalculateBudgetProgress(b, ts).percentage <= CalculateBudgetProgress(b, ts + [t]).percentage
  {
    SpentAppend(b, ts, t);
    var s1, s2 := Spent(b, ts), Spent(b, ts + [t]);
    if b.amount > 0.0 {
      PercentMonotone(s1, s2, b.amount);
    }
  }

  /** With non-negative amounts, spending and progress are never negative. */
  lemma BudgetProgressNonNegative(b: Budget, ts: seq<Transaction>)
    requires forall j :: 0 <= j < |ts| ==> 0.0 <= ts[j].amount
    ensures 0.0 <= CalculateBudgetProgress(b, ts).spent
    ensures 0.0 <= CalculateBudgetProgress(b, ts).percentage
  {
    FilterKeepsBound(ts, InBudgetOf(b), Amount);
    SumNonNegative(Filter(ts, InBudgetOf(b)), Amount);
  }

  // ---------------------------------------------------------------------
  // calculateSavingProgress

  datatype SavingProgress = SavingProgress(percentage: real, remaining: real)

  function CalculateSavingProgress(s: Saving): (r: SavingProgress)
    ensures r.remaining == s.targetAmount - s.currentAmount
    ensures r.percentage <= 100.0
    ensures s.targetAmount <= 0.0 ==> r.percentage == 0.0
    ensures 0.0 < s.targetAmount ==> (r.percentage == 100.0 <==> s.targetAmount <= s.currentAmount)
    ensures 0.0 < s.targetAmount && 0.0 <= s.currentAmount ==> 0.0 <= r.percentage
    ensures 0.0 < s.targetAmount && s.currentAmount < s.targetAmount
            ==> r.percentage * s.targetAmount == s.currentAmount * 100.0
  {
    var percentage := if s.targetAmount > 0.0 then (s.currentAmount / s.targetAmount) * 100.0 else 0.0;
    if s.targetAmount > 0.0 then
      Percent(s.currentAmount, s.targetAmount);
      SavingProgress(Min(percentage, 100.0), s.targetAmount - s.currentAmount)
    else
      SavingProgress(Min(percentage, 100.0), s.targetAmount - s.currentAmount)
  }

  // ---------------------------------------------------------------------
  // getTransactionsByDateRange

  predicate InRange(start: Date, end: Date, t: Transaction) {
    start <= t.date <= end
  }

  function InRangeOf(start: Date, end: Date): Transaction -> bool {
    t => InRange(start, end, t)
  }

  /** The transactions dated from `start` to `end`, both included, in their original order. */
  function TransactionsByDateRange(ts: seq<Transaction>, start: Date, end: Date): seq<Transaction> {
    Filter(ts, InRangeOf(start, end))
  }

  /** A transaction is in the result exactly when it is in the input and dated within the range. */
  lemma DateRangeMembers(ts: seq<Transaction>, start: Date, end: Date)
    ensures var r := TransactionsByDateRange(ts, start, end);
      (forall j :: 0 <= j < |r| ==> r[j] in ts && start <= r[j].date <= end)
      && (forall j :: 0 <= j < |ts| && start <= ts[j].date <= end ==> ts[j] in r)
  {
    FilterMembers(ts, InRangeOf(start, end));
  }

  /** The range filter works piece by piece: order is kept and nothing moves across the boundary. */
  lemma DateRangeConcat(a: seq<Transaction>, c: seq<Transaction>, start: Date, end: Date)
    ensures TransactionsByDateRange(a + c, start, end)
         == TransactionsByDateRange(a, start, end) + TransactionsByDateRange(c, start, end)
  {
    FilterConcat(a, c, InRangeOf(start, end));
  }

  /** Filtering a range by a second range is filtering by their overlap. */
  lemma {:induction false} DateRangeNested(ts: seq<Transaction>, s1: Date, e1: Date, s2: Date, e2: Date)
    ensures TransactionsByDateRange(TransactionsByDateRange(ts, s1, e1), s2, e2)
         == TransactionsByDateRange(ts, if s1 < s2 then s2 else s1, if e1 < e2 then e1 else e2)
  {
    if |ts| > 0 {
      var head := if InRange(s1, e1, ts[0]) then [ts[0]] else [];
      DateRangeConcat(head, TransactionsByDateRange(ts[1..], s1, e1), s2, e2);
      DateRangeNested(ts[1..], s1, e1, s2, e2);
    }
  }

  /** An empty range holds nothing. */
  lemma {:induction false} DateRangeEmpty(ts: seq<Transaction>, start: Date, end: Date)
    requires end < start
    ensures TransactionsByDateRange(ts, start, end) == []
  {
    if |ts| > 0 {
      DateRangeEmpty(ts[1..], start, end);
    }
  }

  // ---------------------------------------------------------------------
  // getIncomeVsExpenses

  predicate IsIncome(t: Transaction) { t.kind == Income }
  predicate IsExpense(t: Transaction) { t.kind == Expense }

  datatype IncomeExpenses = IncomeExpenses(income: real, expenses: real, net: real)

  /**
   * Income and expenses dated from `start` (the first day of the chosen
   * period) to `today`, both included. Each total is the period's sum of
   * amounts with the transactions of the other kind counted as zero, and
   * `net` is what the period's transactions did to the wallets together.
   */
  function IncomeVsExpenses(ts: seq<Transaction>, start: Date, today: Date): (r: IncomeExpenses)
    ensures r.income == Sum(Filter(TransactionsByDateRange(ts, start, today), IsIncome), Amount)
    ensures r.expenses == Sum(Filter(TransactionsByDateRange(ts, start, today), IsExpense), Amount)
    ensures r.income == Sum(TransactionsByDateRange(ts, start, today), Masked(IsIncome, Amount))
    ensures r.expenses == Sum(TransactionsByDateRange(ts, start, today), Masked(IsExpense, Amount))
    ensures r.net == r.income - r.expenses
    ensures r.net == Sum(TransactionsByDateRange(ts, start, today), Effect)
  {
    var inPeriod := TransactionsByDateRange(ts, start, today);
    EffectSplits(inPeriod);
    SumFilter(inPeriod, IsIncome, Amount);
    SumFilter(inPeriod, IsExpense, Amount);
    var income := Sum(Filter(inPeriod, IsIncome), Amount);
    var expenses := Sum(Filter(inPeriod, IsExpense), Amount);
    IncomeExpenses(income, expenses, income - expenses)
  }

  /** The signed sum of a list is its income minus its expenses. */
  lemma {:induction false} EffectSplits(s: seq<Transaction>)
    ensures Sum(s, Effect) == Sum(Filter(s, IsIncome), Amount) - Sum(Filter(s, IsExpense), Amount)
  {
    if |s| > 0 {
      EffectSplits(s[1..]);
      SumConcat(if IsIncome(s[0]) then [s[0]] else [], Filter(s[1..], IsIncome), Amount);
      SumConcat(if IsExpense(s[0]) then [s[0]] else [], Filter(s[1..], IsExpense), Amount);
    }
  }

  /**
   * `net` is what the period's transactions did to the wallets together:
   * the sum of their effects; and income plus expenses is their total amount.
   */
  lemma NetIsTotalEffect(ts: seq<Transaction>, start: Date, today: Date)
    ensures IncomeVsExpenses(ts, start, today).net == Sum(TransactionsByDateRange(ts, start, today), Effect)
    ensures IncomeVsExpenses(ts, start, today).income + IncomeVsExpenses(ts, start, today).expenses
         == Sum(TransactionsByDateRange(ts, start, today), Amount)
  {
    SumPartition(TransactionsByDateRange(ts, start, today), IsIncome, IsExpense, Amount);
  }

  /** With non-negative amounts, income and expenses are both non-negative. */
  lemma IncomeExpensesNonNegative(ts: seq<Transaction>, start: Date, today: Date)
    requires forall j :: 0 <= j < |ts| ==> 0.0 <= ts[j].amount
    ensures 0.0 <= IncomeVsExpenses(ts, start, today).income
    ensures 0.0 <= IncomeVsExpenses(ts, start, today).expenses
  {
    var inPeriod := TransactionsByDateRange(ts, start, today);
    FilterKeepsBound(ts, InRangeOf(start, today), Amount);
    FilterKeepsBound(inPeriod, IsIncome, Amount);
    FilterKeepsBound(inPeriod, IsExpense, Amount);
    SumNonNegative(Filter(inPeriod, IsIncome), Amount);
    SumNonNegative(Filter(inPeriod, IsExpense), Amount);
  }

  // ---------------------------------------------------------------------
  // getRecentTransactions: a stable sort, latest date first, then a slice.

  ghost predicate SortedByDateDesc(s: seq<Transaction>) {
    forall i, j :: 0 <= i < j < |s| ==> s[j].date <= s[i].date
  }

  /**
   * `x` goes before the first element dated no later than it, so it lands
   * ahead of every element with the same date. The sort inserts the input
   * from the back, so those elements came after `x` in the input.
   */
  function InsertByDate(x: Transaction, s: seq<Transaction>): (r: seq<Transaction>)
    ensures |r| == |s| + 1
    ensures multiset(r) == multiset(s) + multiset{x}
  {
    if |s| == 0 then [x]
    else if s[0].date <= x.date then [x] + s
    else
      assert s == [s[0]] + s[1..];
      [s[0]] + InsertByDate(x, s[1..])
  }

  /** The comparator `b.date - a.date` under a stable sort. */
  function SortByDateDesc(s: seq<Transaction>): (r: seq<Transaction>)
    ensures |r| == |s|
    ensures multiset(r) == multiset(s)
  {
    if |s| == 0 then []
    else
      assert s == [s[0]] + s[1..];
      InsertByDate(s[0], SortByDateDesc(s[1..]))
  }

  lemma {:induction false} InsertKeepsSorted(x: Transaction, s: seq<Transaction>)
    requires SortedByDateDesc(s)
    ensures SortedByDateDesc(InsertByDate(x, s))
  {
    if |s| > 0 && x.date < s[0].date {
      InsertKeepsSorted(x, s[1..]);
      var tail := InsertByDate(x, s[1..]);
      forall k | 0 <= k < |tail|
        ensures tail[k].date <= s[0].date
      {
        assert tail[k] in multiset(s[1..]) + multiset{x};
        if tail[k] != x {
          assert tail[k] in s[1..];
        }
      }
    }
  }

  /** The result is ordered latest first. */
  lemma {:induction false} SortIsSorted(s: seq<Transaction>)
    ensures SortedByDateDesc(SortByDateDesc(s))
  {
    if |s| > 0 {
      SortIsSorted(s[1..]);
      InsertKeepsSorted(s[0], SortByDateDesc(s[1..]));
    }
  }

  function DateIsOf(d: Date): Transaction -> bool {
    (t: Transaction) => t.date == d
  }

  /** Among the elements dated `d`, the inserted one comes first and the others keep their order. */
  lemma {:induction false} InsertStable(x: Transaction, s: seq<Transaction>, d: Date)
    ensures Filter(InsertByDate(x, s), DateIsOf(d))
         == (if x.date == d then [x] else []) + Filter(s, DateIsOf(d))
  {
    if |s| == 0 {
    } else if s[0].date <= x.date {
      FilterConcat([x], s, DateIsOf(d));
    } else {
      InsertStable(x, s[1..], d);
      FilterConcat([s[0]], InsertByDate(x, s[1..]), DateIsOf(d));
      assert s[0].date != d || x.date != d;
      if x.date == d {
        assert Filter([s[0]], DateIsOf(d)) == [];
      }
    }
  }

  /** Stability: transactions sharing a date keep their original relative order. */
  lemma {:induction false} SortIsStable(s: seq<Transaction>, d: Date)
    ensures Filter(SortByDateDesc(s), DateIsOf(d)) == Filter(s, DateIsOf(d))
  {
    if |s| > 0 {
      SortIsStable(s[1..], d);
      InsertStable(s[0], SortByDateDesc(s[1..]), d);
    }
  }

  /** How many elements `slice(0, limit)` keeps of `n`: a negative limit counts from the end. */
  function SliceLength(n: nat, limit: int): (k: nat)
    ensures k <= n
    ensures 0 <= limit ==> k == (if limit <= n then limit else n)
    ensures limit < 0 ==> k == (if n + limit >= 0 then n + limit else 0)
  {
    if limit >= 0 then (if limit <= n then limit else n)
    else if n + limit >= 0 then n + limit else 0
  }

  function Recent(s: seq<Transaction>, limit: int): seq<Transaction> {
    SortByDateDesc(s)[..SliceLength(|s|, limit)]
  }

  /** In a list sorted latest first, whatever follows the first k is dated no later than any of them. */
  lemma SortedPrefixIsLatest(sorted: seq<Transaction>, k: nat)
    requires SortedByDateDesc(sorted) && k <= |sorted|
    ensures multiset(sorted[..k]) <= multiset(sorted)
    ensures forall x, i :: x in multiset(sorted) - multiset(sorted[..k]) && 0 <= i < k
              ==> x.date <= sorted[i].date
  {
    assert sorted == sorted[..k] + sorted[k..];
    assert multiset(sorted) == multiset(sorted[..k]) + multiset(sorted[k..]);
    forall x, i | x in multiset(sorted) - multiset(sorted[..k]) && 0 <= i < k
      ensures x.date <= sorted[i].date
    {
      assert x in multiset(sorted[k..]);
      var j :| 0 <= j < |sorted[k..]| && sorted[k..][j] == x;
      assert sorted[k + j] == x;
    }
  }

  /**
   * The recent list is ordered latest first, holds `limit` transactions
   * (or all of them), and every transaction left out is dated no later
   * than every one kept.
   */
  lemma RecentAreLatest(s: seq<Transaction>, limit: int)
    ensures 0 <= limit ==> |Recent(s, limit)| == (if limit <= |s| then limit else |s|)
    ensures SortedByDateDesc(Recent(s, limit))
    ensures multiset(Recent(s, limit)) <= multiset(s)
    ensures forall x, i :: x in multiset(s) - multiset(Recent(s, limit)) && 0 <= i < |Recent(s, limit)|
              ==> x.date <= Recent(s, limit)[i].date
  {
    SortIsSorted(s);
    SortedPrefixIsLatest(SortByDateDesc(s), SliceLength(|s|, limit));
  }

  /**
   * getRecentTransactions sorts the caller's array IN PLACE (later dates
   * first) and returns a copy of its first `limit` elements. The source's
   * comparator sort is represented by its specification, the stable
   * insertion sort `SortByDateDesc`: the array is overwritten with that
   * sorted sequence, so the order, ties included, is the one `SortIsSorted`
   * and `SortIsStable` describe.
   */
  method GetRecentTransactions(a: array<Transaction>, limit: int := 5) returns (r: seq<Transaction>)
    modifies a
    ensures a[..] == SortByDateDesc(old(a[..]))
    ensures r == Recent(old(a[..]), limit)
  {
    var sorted := SortByDateDesc(a[..]);
    forall i | 0 <= i < a.Length {
      a[i] := sorted[i];
    }
    assert a[..] == sorted;
    r := a[..SliceLength(a.Length, limit)];
  }
}
