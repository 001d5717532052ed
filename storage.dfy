/**
 * The persisted collection store (lib/storage.ts).
 *
 * The key-value backend holds one list per kind of record; here each list
 * is a `seq` field of `Store`. Every operation loads its collection whole,
 * changes it, and saves it whole: add appends, update merges a patch onto
 * the first record with the id, delete filters out every record with the
 * id. The three transaction operations also keep wallet balances in step,
 * as the steps of module BalanceSync describe.
 *
 * The backend's outcome is a parameter: a read that fails yields the
 * default (empty) list, a write that fails reports false and changes
 * nothing. The ids and timestamps the source takes from Date.now() are
 * parameters too.
 */
module Storage {
  import opened Wrappers
  import opened Collections
  import opened Models
  import opened BalanceSync

  /** The six persisted collections. */
  datatype Collection = WalletsData | TransactionsData | BudgetsData | SavingsData | LoansData | InvestmentsData

  /** The backend key each collection is stored under. */
  function StorageKey(c: Collection): (key: string)
    ensures |key| > 8 && key[..8] == "budgety_"
  {
    match c
    case WalletsData => "budgety_wallets"
    case TransactionsData => "budgety_transactions"
    case BudgetsData => "budgety_budgets"
    case SavingsData => "budgety_savings"
    case LoansData => "budgety_loans"
    case InvestmentsData => "budgety_investments"
  }

  /** No two collections share a key, so saving one never overwrites another. */
  lemma StorageKeysDistinct(c: Collection, d: Collection)
    ensures c != d ==> StorageKey(c) != StorageKey(d)
  {
  }

  // Every add method stores `{ id: generatedId, ...input, createdAt: now }`:
  // the spread comes after the generated id, so an input that carries its
  // own id (a record built by a create* factory does) keeps it, while the
  // store's timestamp always wins.

  class Store {
    var wallets: seq<Wallet>
    var transactions: seq<Transaction>
    var budgets: seq<Budget>
    var savings: seq<Saving>
    var loans: seq<Loan>
    var investments: seq<Investment>

    /** A backend with no keys: every collection reads as empty. */
    constructor ()
      ensures wallets == [] && transactions == [] && budgets == []
      ensures savings == [] && loans == [] && investments == []
    {
      wallets, transactions, budgets := [], [], [];
      savings, loans, investments := [], [], [];
    }

    /** The wallet and transaction collections, as the balance-sync steps see them. */
    function CurrentBooks(): Books
      reads this
    {
      Books(wallets, transactions)
    }

    // -----------------------------------------------------------------
    // The backend: remove one key, or clear them all.

    method RemoveData(c: Collection, writeOk: bool) returns (ok: bool)
      modifies this
      ensures ok == writeOk
      ensures !writeOk ==> unchanged(this)
      ensures wallets == if writeOk && c == WalletsData then [] else old(wallets)
      ensures transactions == if writeOk && c == TransactionsData then [] else old(transactions)
      ensures budgets == if writeOk && c == BudgetsData then [] else old(budgets)
      ensures savings == if writeOk && c == SavingsData then [] else old(savings)
      ensures loans == if writeOk && c == LoansData then [] else old(loans)
      ensures investments == if writeOk && c == InvestmentsData then [] else old(investments)
    {
      ok := writeOk;
      if writeOk {
        match c
        case WalletsData => wallets := [];
        case TransactionsData => transactions := [];
        case BudgetsData => budgets := [];
        case SavingsData => savings := [];
        case LoansData => loans := [];
        case InvestmentsData => investments := [];
      }
    }

    method ClearAllData(writeOk: bool) returns (ok: bool)
      modifies this
      ensures ok == writeOk
      ensures !writeOk ==> unchanged(this)
      ensures writeOk ==> wallets == [] && transactions == [] && budgets == []
      ensures writeOk ==> savings == [] && loans == [] && investments == []
    {
      ok := writeOk;
      if writeOk {
        wallets, transactions, budgets := [], [], [];
        savings, loans, investments := [], [], [];
      }
    }

    // -----------------------------------------------------------------
    // Wallets: the template every other collection follows.

    method GetWallets(readOk: bool) returns (ws: seq<Wallet>)
      ensures ws == if readOk then wallets else []
    {
      ws := if readOk then wallets else [];
    }

    method SaveWallets(ws: seq<Wallet>, writeOk: bool) returns (ok: bool)
      modifies this`wallets
      ensures ok == writeOk
      ensures wallets == if writeOk then ws else old(wallets)
    {
      ok := writeOk;
      if writeOk { wallets := ws; }
    }

    method AddWallet(input: Wallet, carriesId: bool, generatedId: Id, now: Timestamp) returns (w: Wallet)
      modifies this`wallets
      ensures w == input.(id := if carriesId then input.id else generatedId, createdAt := now)
      ensures wallets == old(wallets) + [w]
    {
      w := input.(id := if carriesId then input.id else generatedId, createdAt := now);
      wallets := wallets + [w];
    }

    /** Unknown id: null and nothing saved. Otherwise the merge replaces the first match in place. */
    method UpdateWallet(walletId: Id, updates: WalletPatch) returns (r: Option<Wallet>)
      modifies this`wallets
      ensures match IndexOf(old(wallets), walletId, WalletKey)
        case None => r == None && wallets == old(wallets)
        case Some(i) => r == Some(MergeWallet(old(wallets)[i], updates)) && wallets == old(wallets)[i := r.value]
    {
      var index := IndexOf(wallets, walletId, WalletKey);
      if index.None? {
        return None;
      }
      var merged := MergeWallet(wallets[index.value], updates);
      wallets := wallets[index.value := merged];
      r := Some(merged);
    }

    /** Always true, even for an unknown id; transactions referencing the wallet are kept. */
    method DeleteWallet(walletId: Id) returns (ok: bool)
      modifies this`wallets
      ensures ok
      ensures wallets == Without(old(wallets), walletId, WalletKey)
      ensures transactions == old(transactions)
    {
      wallets := Without(wallets, walletId, WalletKey);
      ok := true;
    }

    // -----------------------------------------------------------------
    // Transactions, with balance sync.

    method GetTransactions(readOk: bool) returns (ts: seq<Transaction>)
      ensures ts == if readOk then transactions else []
    {
      ts := if readOk then transactions else [];
    }

    method SaveTransactions(ts: seq<Transaction>, writeOk: bool) returns (ok: bool)
      modifies this`transactions
      ensures ok == writeOk
      ensures transactions == if writeOk then ts else old(transactions)
    {
      ok := writeOk;
      if writeOk { transactions := ts; }
    }

    /**
     * `wallets[findIndex(id)].balance += delta`, then saved; the
     * wallets are left alone when none has the id.
     */
    method CreditWallet(walletId: Id, delta: real)
      modifies this`wallets
      ensures wallets == Credit(old(wallets), walletId, delta)
    {
      var ws := wallets;
      ghost var before := ws;
      var walletIndex := IndexOf(ws, walletId, WalletKey);
      if walletIndex.Some? {
        var i := walletIndex.value;
        ws := ws[i := ws[i].(balance := ws[i].balance + delta)];
        assert ws == Credit(before, walletId, delta);
      } else {
        assert ws == Credit(before, walletId, delta);
      }
      wallets := ws;
    }

    /**
     * The stored record is appended whether or not a wallet has its
     * walletId; the first wallet that does is credited with its effect.
     */
    method AddTransaction(input: Transaction, carriesId: bool, generatedId: Id, now: Timestamp)
      returns (t: Transaction)
      modifies this`transactions, this`wallets
      ensures t == input.(id := if carriesId then input.id else generatedId, createdAt := now)
      ensures CurrentBooks() == AfterAdd(old(CurrentBooks()), t)
    {
      t := input.(id := if carriesId then input.id else generatedId, createdAt := now);
      transactions := transactions + [t];
      var balanceChange := if input.kind == Income then input.amount else -input.amount;
      assert balanceChange == Effect(t);
      CreditWallet(input.walletId, balanceChange);
    }

    /**
     * The merge replaces the first record with the id; only a patch with
     * amount or type touches a balance, and then the ORIGINAL record's
     * wallet gets the old effect undone and the new one applied.
     */
    method UpdateTransaction(transactionId: Id, updates: TransactionPatch) returns (r: Option<Transaction>)
      modifies this`transactions, this`wallets
      ensures r == UpdateResult(old(CurrentBooks()), transactionId, updates)
      ensures CurrentBooks() == AfterUpdate(old(CurrentBooks()), transactionId, updates)
    {
      var index := IndexOf(transactions, transactionId, TransactionKey);
      if index.None? {
        return None;
      }
      var oldTransaction := transactions[index.value];
      var updatedTransaction := MergeTransaction(oldTransaction, updates);
      transactions := transactions[index.value := updatedTransaction];
      if updates.amount.Some? || updates.kind.Some? {
        var oldBalanceChange := if oldTransaction.kind == Income then -oldTransaction.amount else oldTransaction.amount;
        var newBalanceChange := if updatedTransaction.kind == Income then updatedTransaction.amount else -updatedTransaction.amount;
        assert oldBalanceChange + newBalanceChange == Reversal(oldTransaction) + Effect(updatedTransaction);
        CreditWallet(oldTransaction.walletId, oldBalanceChange + newBalanceChange);
      }
      r := Some(updatedTransaction);
    }

    /**
     * False for an unknown id. Otherwise the first record's wallet has it
     * undone, and every record with the id is removed.
     */
    method DeleteTransaction(transactionId: Id) returns (ok: bool)
      modifies this`transactions, this`wallets
      ensures ok == DeleteResult(old(CurrentBooks()), transactionId)
      ensures CurrentBooks() == AfterDelete(old(CurrentBooks()), transactionId)
    {
      var index := IndexOf(transactions, transactionId, TransactionKey);
      if index.None? {
        return false;
      }
      var transaction := transactions[index.value];
      var balanceChange := if transaction.kind == Income then -transaction.amount else transaction.amount;
      assert balanceChange == Reversal(transaction);
      CreditWallet(transaction.walletId, balanceChange);
      transactions := Without(transactions, transactionId, TransactionKey);
      ok := true;
    }

    // -----------------------------------------------------------------
    // Budgets, savings, loans and investments: the wallet pattern.

    method GetBudgets(readOk: bool) returns (bs: seq<Budget>)
      ensures bs == if readOk then budgets else []
    {
      bs := if readOk then budgets else [];
    }

    method SaveBudgets(bs: seq<Budget>, writeOk: bool) returns (ok: bool)
      modifies this`budgets
      ensures ok == writeOk
      ensures budgets == if writeOk then bs else old(budgets)
    {
      ok := writeOk;
      if writeOk { budgets := bs; }
    }

    method AddBudget(input: Budget, carriesId: bool, generatedId: Id, now: Timestamp) returns (b: Budget)
      modifies this`budgets
      ensures b == input.(id := if carriesId then input.id else generatedId, createdAt := now)
      ensures budgets == old(budgets) + [b]
    {
      b := input.(id := if carriesId then input.id else generatedId, createdAt := now);
      budgets := budgets + [b];
    }

    method UpdateBudget(budgetId: Id, updates: BudgetPatch) returns (r: Option<Budget>)
      modifies this`budgets
      ensures match IndexOf(old(budgets), budgetId, BudgetKey)
        case None => r == None && budgets == old(budgets)
        case Some(i) => r == Some(MergeBudget(old(budgets)[i], updates)) && budgets == old(budgets)[i := r.value]
    {
      var index := IndexOf(budgets, budgetId, BudgetKey);
      if index.None? {
        return None;
      }
      var merged := MergeBudget(budgets[index.value], updates);
      budgets := budgets[index.value := merged];
      r := Some(merged);
    }

    method DeleteBudget(budgetId: Id) returns (ok: bool)
      modifies this`budgets
      ensures ok
      ensures budgets == Without(old(budgets), budgetId, BudgetKey)
    {
      budgets := Without(budgets, budgetId, BudgetKey);
      ok := true;
    }

    method GetSavings(readOk: bool) returns (ss: seq<Saving>)
      ensures ss == if readOk then savings else []
    {
      ss := if readOk then savings else [];
    }

    method SaveSavings(ss: seq<Saving>, writeOk: bool) returns (ok: bool)
      modifies this`savings
      ensures ok == writeOk
      ensures savings == if writeOk then ss else old(savings)
    {
      ok := writeOk;
      if writeOk { savings := ss; }
    }

    method AddSaving(input: Saving, carriesId: bool, generatedId: Id, now: Timestamp) returns (s: Saving)
      modifies this`savings
      ensures s == input.(id := if carriesId then input.id else generatedId, createdAt := now)
      ensures savings == old(savings) + [s]
    {
      s := input.(id := if carriesId then input.id else generatedId, createdAt := now);
      savings := savings + [s];
    }

    method UpdateSaving(savingId: Id, updates: SavingPatch) returns (r: Option<Saving>)
      modifies this`savings
      ensures match IndexOf(old(savings), savingId, SavingKey)
        case None => r == None && savings == old(savings)
        case Some(i) => r == Some(MergeSaving(old(savings)[i], updates)) && savings == old(savings)[i := r.value]
    {
      var index := IndexOf(savings, savingId, SavingKey);
      if index.None? {
        return None;
      }
      var merged := MergeSaving(savings[index.value], updates);
      savings := savings[index.value := merged];
      r := Some(merged);
    }

    method DeleteSaving(savingId: Id) returns (ok: bool)
      modifies this`savings
      ensures ok
      ensures savings == Without(old(savings), savingId, SavingKey)
    {
      savings := Without(savings, savingId, SavingKey);
      ok := true;
    }

    method GetLoans(readOk: bool) returns (ls: seq<Loan>)
      ensures ls == if readOk then loans else []
    {
      ls := if readOk then loans else [];
    }

    method SaveLoans(ls: seq<Loan>, writeOk: bool) returns (ok: bool)
      modifies this`loans
      ensures ok == writeOk
      ensures loans == if writeOk then ls else old(loans)
    {
      ok := writeOk;
      if writeOk { loans := ls; }
    }

    method AddLoan(input: Loan, carriesId: bool, generatedId: Id, now: Timestamp) returns (l: Loan)
      modifies this`loans
      ensures l == input.(id := if carriesId then input.id else generatedId, createdAt := now)
      ensures loans == old(loans) + [l]
    {
      l := input.(id := if carriesId then input.id else generatedId, createdAt := now);
      loans := loans + [l];
    }

    method UpdateLoan(loanId: Id, updates: LoanPatch) returns (r: Option<Loan>)
      modifies this`loans
      ensures match IndexOf(old(loans), loanId, LoanKey)
        case None => r == None && loans == old(loans)
        case Some(i) => r == Some(MergeLoan(old(loans)[i], updates)) && loans == old(loans)[i := r.value]
    {
      var index := IndexOf(loans, loanId, LoanKey);
      if index.None? {
        return None;
      }
      var merged := MergeLoan(loans[index.value], updates);
      loans := loans[index.value := merged];
      r := Some(merged);
    }

    method DeleteLoan(loanId: Id) returns (ok: bool)
      modifies this`loans
      ensures ok
      ensures loans == Without(old(loans), loanId, LoanKey)
    {
      loans := Without(loans, loanId, LoanKey);
      ok := true;
    }

    method GetInvestments(readOk: bool) returns (invs: seq<Investment>)
      ensures invs == if readOk then investments else []
    {
      invs := if readOk then investments else [];
    }

    method SaveInvestments(invs: seq<Investment>, writeOk: bool) returns (ok: bool)
      modifies this`investments
      ensures ok == writeOk
      ensures investments == if writeOk then invs else old(investments)
    {
      ok := writeOk;
      if writeOk { investments := invs; }
    }

    method AddInvestment(input: Investment, carriesId: bool, generatedId: Id, now: Timestamp)
      returns (inv: Investment)
      modifies this`investments
      ensures inv == input.(id := if carriesId then input.id else generatedId, createdAt := now)
      ensures investments == old(investments) + [inv]
    {
      inv := input.(id := if carriesId then input.id else generatedId, createdAt := now);
      investments := investments + [inv];
    }

    method UpdateInvestment(investmentId: Id, updates: InvestmentPatch) returns (r: Option<Investment>)
      modifies this`investments
      ensures match IndexOf(old(investments), investmentId, InvestmentKey)
        case None => r == None && investments == old(investments)
        case Some(i) =>
          r == Some(MergeInvestment(old(investments)[i], updates)) && investments == old(investments)[i := r.value]
    {
      var index := IndexOf(investments, investmentId, InvestmentKey);
      if index.None? {
        return None;
      }
      var merged := MergeInvestment(investments[index.value], updates);
      investments := investments[index.value := merged];
      r := Some(merged);
    }

    method DeleteInvestment(investmentId: Id) returns (ok: bool)
      modifies this`investments
      ensures ok
      ensures investments == Without(old(investments), investmentId, InvestmentKey)
    {
      investments := Without(investments, investmentId, InvestmentKey);
      ok := true;
    }
  }

  /**
   * A wallet opened at 100 takes an income of 30, has it raised to 50,
   * turned into an expense, and deleted: the balance reads 130, 150, 50
   * and finally 100 again.
   */
  method BalanceScenario() returns (balances: seq<real>)
    ensures balances == [130.0, 150.0, 50.0, 100.0]
  {
    var store := new Store();
    var w := store.AddWallet(Wallet("", "W1", Checking, 100.0, "USD", "", 0), false, "w1", 1);
    var t := store.AddTransaction(Transaction("", 30.0, Income, "Salary", "", "w1", 0, 0), false, "t1", 2);
    assert FirstWith([w], "w1", 0);
    var afterAdd := store.wallets[0].balance;
    assert store.transactions == [t];
    var u1 := store.UpdateTransaction("t1", NoTransactionChanges.(amount := Some(50.0)));
    var afterRaise := store.wallets[0].balance;
    var u2 := store.UpdateTransaction("t1", NoTransactionChanges.(kind := Some(Expense)));
    var afterFlip := store.wallets[0].balance;
    var deleted := store.DeleteTransaction("t1");
    balances := [afterAdd, afterRaise, afterFlip, store.wallets[0].balance];
  }

  /** A transaction whose walletId names no wallet is stored, and no wallet changes. */
  method OrphanScenario() returns (stored: seq<Transaction>, balance: real)
    ensures |stored| == 1 && stored[0].walletId == "missing"
    ensures balance == 100.0
  {
    var store := new Store();
    var w := store.AddWallet(Wallet("", "W1", Checking, 100.0, "USD", "", 0), false, "w1", 1);
    var t := store.AddTransaction(Transaction("", 30.0, Income, "Salary", "", "missing", 0, 0), false, "t1", 2);
    stored := store.GetTransactions(true);
    balance := store.wallets[0].balance;
  }
}
