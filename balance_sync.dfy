/**
 * Wallet-balance synchronisation (lib/storage.ts, addTransaction,
 * updateTransaction and deleteTransaction): what each transaction
 * mutation does to the wallet and transaction collections, as functions
 * from the collections before to the collections after, and the ledger
 * invariant those steps keep.
 *
 * The invariant, `Synced`, says every wallet's balance is its opening
 * balance plus the signed amounts of the transactions that reference it.
 * The source does not enforce what it rests on: wallet ids must be unique,
 * transaction ids must be unique for delete, and an update must not move a
 * transaction to another wallet. The lemmas at the end show each of these
 * is needed.
 */
module BalanceSync {
  import opened Wrappers
  import opened Collections
  import opened Models

  /** The two collections a transaction mutation reads and writes. */
  datatype Books = Books(wallets: seq<Wallet>, transactions: seq<Transaction>)

  /** What recording `t` does to its wallet: +amount for income, -amount for expense. */
  function Effect(t: Transaction): real {
    if t.kind == Income then t.amount else -t.amount
  }

  /** What undoing `t` does to its wallet: -amount for income, +amount for expense. */
  function Reversal(t: Transaction): real {
    if t.kind == Income then -t.amount else t.amount
  }

  /** `j` is the first wallet whose id is `walletId`, the one `findIndex` picks. */
  ghost predicate FirstWith(ws: seq<Wallet>, walletId: Id, j: int) {
    0 <= j < |ws| && ws[j].id == walletId && forall k :: 0 <= k < j ==> ws[k].id != walletId
  }

  /**
   * `wallets[findIndex(w => w.id === walletId)].balance += delta`, and
   * nothing when no wallet has that id.
   */
  function Credit(ws: seq<Wallet>, walletId: Id, delta: real): seq<Wallet> {
    match IndexOf(ws, walletId, WalletKey)
    case None => ws
    case Some(i) => ws[i := ws[i].(balance := ws[i].balance + delta)]
  }

  /** Only the first wallet with the id changes, only in its balance, and by exactly `delta`. */
  lemma CreditEffect(ws: seq<Wallet>, walletId: Id, delta: real)
    ensures var r := Credit(ws, walletId, delta);
      |r| == |ws|
      && (forall j :: 0 <= j < |ws| ==> r[j] == ws[j].(balance := r[j].balance))
      && (forall j :: 0 <= j < |ws| ==>
            r[j].balance == ws[j].balance + (if FirstWith(ws, walletId, j) then delta else 0.0))
      && ((forall j :: 0 <= j < |ws| ==> ws[j].id != walletId) ==> r == ws)
  {
  }

  /** Crediting leaves every wallet id where it was, so later lookups find the same wallet. */
  lemma CreditKeepsLookup(ws: seq<Wallet>, walletId: Id, delta: real, other: Id)
    ensures IndexOf(Credit(ws, walletId, delta), other, WalletKey) == IndexOf(ws, other, WalletKey)
  {
    var r := Credit(ws, walletId, delta);
    assert forall j :: 0 <= j < |ws| ==> WalletKey(r[j]) == WalletKey(ws[j]);
    IndexOfSameKeys(ws, r, other);
  }

  lemma {:induction false} IndexOfSameKeys(s: seq<Wallet>, t: seq<Wallet>, id: Id)
    requires |s| == |t|
    requires forall j :: 0 <= j < |s| ==> WalletKey(s[j]) == WalletKey(t[j])
    ensures IndexOf(s, id, WalletKey) == IndexOf(t, id, WalletKey)
  {
    if |s| > 0 {
      IndexOfSameKeys(s[1..], t[1..], id);
    }
  }

  // ---------------------------------------------------------------------
  // The three mutations.

  /** addTransaction: append the stored record, then credit its wallet with its effect. */
  function AfterAdd(b: Books, t: Transaction): Books {
    Books(Credit(b.wallets, t.walletId, Effect(t)), b.transactions + [t])
  }

  /** The patch carries `amount` or `type`: only then is the wallet touched. */
  predicate TouchesBalance(p: TransactionPatch) {
    p.amount.Some? || p.kind.Some?
  }

  /** What updateTransaction returns: the merged record, or null for an unknown id. */
  function UpdateResult(b: Books, id: Id, p: TransactionPatch): Option<Transaction> {
    match IndexOf(b.transactions, id, TransactionKey)
    case None => None
    case Some(i) => Some(MergeTransaction(b.transactions[i], p))
  }

  /**
   * updateTransaction: the first record with the id is replaced by the
   * merge; when the patch carries amount or type, the wallet of the
   * ORIGINAL record gets the old effect reversed and the new one applied.
   */
  function AfterUpdate(b: Books, id: Id, p: TransactionPatch): Books {
    match IndexOf(b.transactions, id, TransactionKey)
    case None => b
    case Some(i) =>
      var prior := b.transactions[i];
      var updated := MergeTransaction(prior, p);
      Books(if TouchesBalance(p) then Credit(b.wallets, prior.walletId, Reversal(prior) + Effect(updated))
            else b.wallets,
            b.transactions[i := updated])
  }

  /** What deleteTransaction returns: whether a record had the id. */
  function DeleteResult(b: Books, id: Id): bool {
    IndexOf(b.transactions, id, TransactionKey).Some?
  }

  /**
   * deleteTransaction: the wallet of the first record with the id gets
   * that record reversed, then EVERY record with the id is removed.
   */
  function AfterDelete(b: Books, id: Id): Books {
    match IndexOf(b.transactions, id, TransactionKey)
    case None => b
    case Some(i) =>
      var t := b.transactions[i];
      Books(Credit(b.wallets, t.walletId, Reversal(t)), Without(b.transactions, id, TransactionKey))
  }

  // ---------------------------------------------------------------------
  // Properties of single steps.

  /** An unknown id: update returns null, delete returns false, and neither changes anything. */
  lemma UnknownIdChangesNothing(b: Books, id: Id, p: TransactionPatch)
    requires forall j :: 0 <= j < |b.transactions| ==> b.transactions[j].id != id
    ensures UpdateResult(b, id, p) == None && AfterUpdate(b, id, p) == b
    ensures !DeleteResult(b, id) && AfterDelete(b, id) == b
  {
  }

  /** A transaction naming no existing wallet is still stored, and no wallet changes. */
  lemma OrphanAddKeepsWallets(b: Books, t: Transaction)
    requires forall j :: 0 <= j < |b.wallets| ==> b.wallets[j].id != t.walletId
    ensures AfterAdd(b, t).wallets == b.wallets
    ensures AfterAdd(b, t).transactions == b.transactions + [t]
  {
  }

  /** Update replaces the record in place: same length, same order, every other record kept. */
  lemma UpdateReplacesInPlace(b: Books, id: Id, p: TransactionPatch, i: nat)
    requires IndexOf(b.transactions, id, TransactionKey) == Some(i)
    ensures UpdateResult(b, id, p) == Some(MergeTransaction(b.transactions[i], p))
    ensures |AfterUpdate(b, id, p).transactions| == |b.transactions|
    ensures AfterUpdate(b, id, p).transactions[i] == MergeTransaction(b.transactions[i], p)
    ensures forall j :: 0 <= j < |b.transactions| && j != i ==>
      AfterUpdate(b, id, p).transactions[j] == b.transactions[j]
  {
  }

  /** A patch without amount or type (description, category, date, ...) leaves every wallet as it was. */
  lemma UnrelatedEditKeepsWallets(b: Books, id: Id, p: TransactionPatch)
    requires !TouchesBalance(p)
    ensures AfterUpdate(b, id, p).wallets == b.wallets
  {
  }

  /** amount A -> B on the same type moves the wallet by B - A for income and A - B for expense. */
  lemma UpdateAmountShift(b: Books, id: Id, newAmount: real, i: nat, k: nat)
    requires IndexOf(b.transactions, id, TransactionKey) == Some(i)
    requires FirstWith(b.wallets, b.transactions[i].walletId, k)
    ensures var prior := b.transactions[i];
      AfterUpdate(b, id, NoTransactionChanges.(amount := Some(newAmount))).wallets[k].balance
      == b.wallets[k].balance
         + (if prior.kind == Income then newAmount - prior.amount else prior.amount - newAmount)
  {
  }

  /** income -> expense at the same amount A moves the wallet by -2A. */
  lemma UpdateTypeFlip(b: Books, id: Id, i: nat, k: nat)
    requires IndexOf(b.transactions, id, TransactionKey) == Some(i)
    requires b.transactions[i].kind == Income
    requires FirstWith(b.wallets, b.transactions[i].walletId, k)
    ensures AfterUpdate(b, id, NoTransactionChanges.(kind := Some(Expense))).wallets[k].balance
         == b.wallets[k].balance - 2.0 * b.transactions[i].amount
  {
  }

  /** A credit followed by the opposite credit to the same id leaves the wallets as they were. */
  lemma CreditUndone(ws: seq<Wallet>, walletId: Id, delta: real)
    ensures Credit(Credit(ws, walletId, delta), walletId, -delta) == ws
  {
    match IndexOf(ws, walletId, WalletKey)
    case None =>
      assert Credit(ws, walletId, delta) == ws;
    case Some(i) =>
      var w := ws[i];
      var credited := ws[i := w.(balance := w.balance + delta)];
      assert Credit(ws, walletId, delta) == credited;
      CreditKeepsLookup(ws, walletId, delta, walletId);
      assert IndexOf(credited, walletId, WalletKey) == Some(i);
      assert credited[i].(balance := credited[i].balance + -delta) == w;
      assert Credit(credited, walletId, -delta) == credited[i := w];
      assert credited[i := w] == ws;
  }

  /** A transaction with a fresh id is found at the end once appended, and removing its id removes just it. */
  lemma FreshAppend(ts: seq<Transaction>, t: Transaction)
    requires forall j :: 0 <= j < |ts| ==> ts[j].id != t.id
    ensures IndexOf(ts + [t], t.id, TransactionKey) == Some(|ts|)
    ensures Without(ts + [t], t.id, TransactionKey) == ts
  {
    assert forall j :: 0 <= j < |ts| ==> TransactionKey(ts[j]) != TransactionKey(t);
    IndexOfAppendFresh(ts, t, TransactionKey);
    WithoutConcat(ts, [t], t.id, TransactionKey);
    WithoutAbsent(ts, t.id, TransactionKey);
    assert Without([t], t.id, TransactionKey) == [];
  }

  /** Adding a transaction with a fresh id and deleting it again restores both collections. */
  lemma AddThenDeleteRestores(b: Books, t: Transaction)
    requires forall j :: 0 <= j < |b.transactions| ==> b.transactions[j].id != t.id
    ensures DeleteResult(AfterAdd(b, t), t.id)
    ensures AfterDelete(AfterAdd(b, t), t.id) == b
  {
    var added := AfterAdd(b, t);
    FreshAppend(b.transactions, t);
    assert added.transactions[|b.transactions|] == t;
    var restored := Credit(added.wallets, t.walletId, Reversal(t));
    assert restored == b.wallets by {
      CreditUndone(b.wallets, t.walletId, Effect(t));
      assert Reversal(t) == -Effect(t);
    }
    assert AfterDelete(added, t.id) == Books(restored, b.transactions);
  }

  // ---------------------------------------------------------------------
  // The ledger invariant.

  /** The signed amounts of the transactions that reference `walletId`. */
  function Ledger(ts: seq<Transaction>, walletId: Id): real {
    if |ts| == 0 then 0.0
    else (if ts[0].walletId == walletId then Effect(ts[0]) else 0.0) + Ledger(ts[1..], walletId)
  }

  lemma {:induction false} LedgerConcat(a: seq<Transaction>, c: seq<Transaction>, walletId: Id)
    ensures Ledger(a + c, walletId) == Ledger(a, walletId) + Ledger(c, walletId)
  {
    if |a| == 0 {
      assert a + c == c;
    } else {
      assert (a + c)[1..] == a[1..] + c;
      LedgerConcat(a[1..], c, walletId);
    }
  }

  /** Replacing one transaction by another on the same wallet moves that wallet's ledger by the difference. */
  lemma LedgerReplace(ts: seq<Transaction>, i: nat, t: Transaction, walletId: Id)
    requires i < |ts| && t.walletId == ts[i].walletId
    ensures Ledger(ts[i := t], walletId)
         == Ledger(ts, walletId) + (if t.walletId == walletId then Effect(t) - Effect(ts[i]) else 0.0)
  {
    assert ts == ts[..i] + [ts[i]] + ts[i + 1..];
    assert ts[i := t] == ts[..i] + [t] + ts[i + 1..];
    LedgerConcat(ts[..i] + [ts[i]], ts[i + 1..], walletId);
    LedgerConcat(ts[..i], [ts[i]], walletId);
    LedgerConcat(ts[..i] + [t], ts[i + 1..], walletId);
    LedgerConcat(ts[..i], [t], walletId);
  }

  /** With unique ids, removing the id of element i leaves every other element, in order. */
  lemma WithoutUnique(ts: seq<Transaction>, i: nat)
    requires i < |ts| && UniqueKeys(ts, TransactionKey)
    ensures Without(ts, ts[i].id, TransactionKey) == ts[..i] + ts[i + 1..]
  {
    forall j | 0 <= j < |ts| && j != i
      ensures TransactionKey(ts[j]) != TransactionKey(ts[i])
    {
      if j < i {
        assert TransactionKey(ts[j]) != TransactionKey(ts[i]);
      } else {
        assert TransactionKey(ts[i]) != TransactionKey(ts[j]);
      }
    }
    WithoutOnly(ts, i, TransactionKey);
  }

  /** With unique ids, removing the id removes exactly one transaction from the ledger. */
  lemma LedgerWithout(ts: seq<Transaction>, i: nat, walletId: Id)
    requires i < |ts| && UniqueKeys(ts, TransactionKey)
    ensures Ledger(Without(ts, ts[i].id, TransactionKey), walletId)
         == Ledger(ts, walletId) - (if ts[i].walletId == walletId then Effect(ts[i]) else 0.0)
  {
    var pre, suf := ts[..i], ts[i + 1..];
    assert ts == pre + [ts[i]] + suf;
    WithoutUnique(ts, i);
    LedgerConcat(pre + [ts[i]], suf, walletId);
    LedgerConcat(pre, [ts[i]], walletId);
    LedgerConcat(pre, suf, walletId);
  }

  /**
   * Every wallet's balance is its opening balance plus the signed amounts
   * of the transactions referencing it (`opening[j]` belongs to wallet j).
   */
  ghost predicate Synced(b: Books, opening: seq<real>) {
    |opening| == |b.wallets| &&
    forall j :: 0 <= j < |b.wallets| ==>
      b.wallets[j].balance == opening[j] + Ledger(b.transactions, b.wallets[j].id)
  }

  /** A fresh wallet collection, before any transaction, is synced with its own balances as openings. */
  lemma StartSynced(ws: seq<Wallet>)
    ensures Synced(Books(ws, []), seq(|ws|, j requires 0 <= j < |ws| => ws[j].balance))
  {
  }

  /** With unique wallet ids, the credited wallet is the only one the id names. */
  lemma CreditSyncsOne(ws: seq<Wallet>, walletId: Id, delta: real, j: nat)
    requires UniqueKeys(ws, WalletKey) && j < |ws|
    ensures Credit(ws, walletId, delta)[j].balance
         == ws[j].balance + (if ws[j].id == walletId then delta else 0.0)
  {
    if ws[j].id == walletId {
      forall k | 0 <= k < j ensures ws[k].id != walletId {
        assert WalletKey(ws[k]) != WalletKey(ws[j]);
      }
      assert FirstWith(ws, walletId, j);
    }
  }

  lemma AddKeepsSynced(b: Books, t: Transaction, opening: seq<real>)
    requires UniqueKeys(b.wallets, WalletKey)
    requires Synced(b, opening)
    ensures Synced(AfterAdd(b, t), opening)
  {
    var after := AfterAdd(b, t);
    forall j | 0 <= j < |b.wallets|
      ensures after.wallets[j].balance == opening[j] + Ledger(after.transactions, after.wallets[j].id)
    {
      CreditSyncsOne(b.wallets, t.walletId, Effect(t), j);
      LedgerConcat(b.transactions, [t], b.wallets[j].id);
    }
  }

  /** The update keeps the transaction on its wallet: the patch carries no walletId, or the same one. */
  predicate KeepsWallet(b: Books, id: Id, p: TransactionPatch) {
    match IndexOf(b.transactions, id, TransactionKey)
    case None => true
    case Some(i) => p.walletId.GetOr(b.transactions[i].walletId) == b.transactions[i].walletId
  }

  lemma UpdateKeepsSynced(b: Books, id: Id, p: TransactionPatch, opening: seq<real>)
    requires UniqueKeys(b.wallets, WalletKey)
    requires KeepsWallet(b, id, p)
    requires Synced(b, opening)
    ensures Synced(AfterUpdate(b, id, p), opening)
  {
    match IndexOf(b.transactions, id, TransactionKey)
    case None =>
    case Some(i) =>
      var prior := b.transactions[i];
      var updated := MergeTransaction(prior, p);
      var after := AfterUpdate(b, id, p);
      forall j | 0 <= j < |b.wallets|
        ensures after.wallets[j].balance == opening[j] + Ledger(after.transactions, after.wallets[j].id)
      {
        LedgerReplace(b.transactions, i, updated, b.wallets[j].id);
        if TouchesBalance(p) {
          CreditSyncsOne(b.wallets, prior.walletId, Reversal(prior) + Effect(updated), j);
        }
      }
  }

  lemma DeleteKeepsSynced(b: Books, id: Id, opening: seq<real>)
    requires UniqueKeys(b.wallets, WalletKey)
    requires UniqueKeys(b.transactions, TransactionKey)
    requires Synced(b, opening)
    ensures Synced(AfterDelete(b, id), opening)
  {
    match IndexOf(b.transactions, id, TransactionKey)
    case None =>
    case Some(i) =>
      var t := b.transactions[i];
      var after := AfterDelete(b, id);
      forall j | 0 <= j < |b.wallets|
        ensures after.wallets[j].balance == opening[j] + Ledger(after.transactions, after.wallets[j].id)
      {
        LedgerWithout(b.transactions, i, b.wallets[j].id);
        CreditSyncsOne(b.wallets, t.walletId, Reversal(t), j);
      }
  }

  // ---------------------------------------------------------------------
  // The assumptions survive the steps, so the invariant holds after any run.

  /** Crediting changes no wallet id, so unique wallet ids stay unique. */
  lemma CreditKeepsIds(ws: seq<Wallet>, walletId: Id, delta: real)
    ensures |Credit(ws, walletId, delta)| == |ws|
    ensures forall j :: 0 <= j < |ws| ==> Credit(ws, walletId, delta)[j].id == ws[j].id
    ensures UniqueKeys(ws, WalletKey) ==> UniqueKeys(Credit(ws, walletId, delta), WalletKey)
  {
    CreditEffect(ws, walletId, delta);
    var r := Credit(ws, walletId, delta);
    assert forall j :: 0 <= j < |ws| ==> r[j].id == ws[j].id;
  }

  /** The update keeps the record's id: the patch carries no id, or the one looked up. */
  predicate KeepsId(id: Id, p: TransactionPatch) {
    p.id.GetOr(id) == id
  }

  /** Wallet ids and transaction ids are unique, and the balances are synced. */
  ghost predicate Sound(b: Books, opening: seq<real>) {
    UniqueKeys(b.wallets, WalletKey) && UniqueKeys(b.transactions, TransactionKey) && Synced(b, opening)
  }

  /** An add with a fresh transaction id keeps both collections' ids unique. */
  lemma AddKeepsUniqueIds(b: Books, t: Transaction)
    requires UniqueKeys(b.wallets, WalletKey) && UniqueKeys(b.transactions, TransactionKey)
    requires forall j :: 0 <= j < |b.transactions| ==> b.transactions[j].id != t.id
    ensures UniqueKeys(AfterAdd(b, t).wallets, WalletKey)
    ensures UniqueKeys(AfterAdd(b, t).transactions, TransactionKey)
  {
    CreditKeepsIds(b.wallets, t.walletId, Effect(t));
    var ts := b.transactions + [t];
    forall i, j | 0 <= i < j < |ts| ensures TransactionKey(ts[i]) != TransactionKey(ts[j]) {
      if j == |b.transactions| {
        assert ts[i] == b.transactions[i];
      } else {
        assert ts[i] == b.transactions[i] && ts[j] == b.transactions[j];
      }
    }
  }

  /** An update that keeps the record's id keeps both collections' ids unique. */
  lemma UpdateKeepsUniqueIds(b: Books, id: Id, p: TransactionPatch)
    requires UniqueKeys(b.wallets, WalletKey) && UniqueKeys(b.transactions, TransactionKey)
    requires KeepsId(id, p)
    ensures UniqueKeys(AfterUpdate(b, id, p).wallets, WalletKey)
    ensures UniqueKeys(AfterUpdate(b, id, p).transactions, TransactionKey)
  {
    match IndexOf(b.transactions, id, TransactionKey)
    case None =>
    case Some(i) =>
      var prior := b.transactions[i];
      var updated := MergeTransaction(prior, p);
      CreditKeepsIds(b.wallets, prior.walletId, Reversal(prior) + Effect(updated));
      assert updated.id == prior.id;
      var ts := b.transactions[i := updated];
      assert forall j :: 0 <= j < |ts| ==> TransactionKey(ts[j]) == TransactionKey(b.transactions[j]);
  }

  /** A delete keeps both collections' ids unique. */
  lemma DeleteKeepsUniqueIds(b: Books, id: Id)
    requires UniqueKeys(b.wallets, WalletKey) && UniqueKeys(b.transactions, TransactionKey)
    ensures UniqueKeys(AfterDelete(b, id).wallets, WalletKey)
    ensures UniqueKeys(AfterDelete(b, id).transactions, TransactionKey)
  {
    match IndexOf(b.transactions, id, TransactionKey)
    case None =>
    case Some(i) =>
      var t := b.transactions[i];
      CreditKeepsIds(b.wallets, t.walletId, Reversal(t));
      WithoutKeepsUnique(b.transactions, id, TransactionKey);
  }

  /** One transaction mutation, as the store offers them. */
  datatype Step = AddStep(t: Transaction) | UpdateStep(id: Id, patch: TransactionPatch) | DeleteStep(id: Id)

  function Apply(b: Books, s: Step): Books {
    match s
    case AddStep(t) => AfterAdd(b, t)
    case UpdateStep(id, p) => AfterUpdate(b, id, p)
    case DeleteStep(id) => AfterDelete(b, id)
  }

  /** The steps applied one after another. */
  function Run(b: Books, steps: seq<Step>): Books
    decreases |steps|
  {
    if |steps| == 0 then b else Run(Apply(b, steps[0]), steps[1..])
  }

  /**
   * What the app leaves to its callers: an added transaction has an id no
   * stored one has, and an update keeps the record's id and its wallet.
   */
  ghost predicate Admissible(b: Books, s: Step) {
    match s
    case AddStep(t) => forall j :: 0 <= j < |b.transactions| ==> b.transactions[j].id != t.id
    case UpdateStep(id, p) => KeepsWallet(b, id, p) && KeepsId(id, p)
    case DeleteStep(_) => true
  }

  /** Every step is admissible in the state the steps before it left. */
  ghost predicate AllAdmissible(b: Books, steps: seq<Step>)
    decreases |steps|
  {
    |steps| == 0 || (Admissible(b, steps[0]) && AllAdmissible(Apply(b, steps[0]), steps[1..]))
  }

  lemma StepKeepsSound(b: Books, s: Step, opening: seq<real>)
    requires Sound(b, opening) && Admissible(b, s)
    ensures Sound(Apply(b, s), opening)
  {
    match s
    case AddStep(t) =>
      AddKeepsSynced(b, t, opening);
      AddKeepsUniqueIds(b, t);
    case UpdateStep(id, p) =>
      UpdateKeepsSynced(b, id, p, opening);
      UpdateKeepsUniqueIds(b, id, p);
    case DeleteStep(id) =>
      DeleteKeepsSynced(b, id, opening);
      DeleteKeepsUniqueIds(b, id);
  }

  /** From a sound state, any run of admissible steps ends with every balance still synced. */
  lemma {:induction false} RunKeepsSynced(b: Books, steps: seq<Step>, opening: seq<real>)
    requires Sound(b, opening) && AllAdmissible(b, steps)
    ensures Sound(Run(b, steps), opening)
    decreases |steps|
  {
    if |steps| > 0 {
      StepKeepsSound(b, steps[0], opening);
      RunKeepsSynced(Apply(b, steps[0]), steps[1..], opening);
    }
  }

  /** Starting from wallets alone, with unique ids, every admissible run stays synced with the opening balances. */
  lemma RunFromStartSynced(ws: seq<Wallet>, steps: seq<Step>)
    requires UniqueKeys(ws, WalletKey) && AllAdmissible(Books(ws, []), steps)
    ensures Synced(Run(Books(ws, []), steps), seq(|ws|, j requires 0 <= j < |ws| => ws[j].balance))
  {
    StartSynced(ws);
    RunKeepsSynced(Books(ws, []), steps, seq(|ws|, j requires 0 <= j < |ws| => ws[j].balance));
  }

  // ---------------------------------------------------------------------
  // Each assumption is needed: a synced state that one step un-syncs.

  const WalletA := Wallet("a", "A", Checking, 30.0, "USD", "", 0)
  const WalletB := Wallet("b", "B", Cash, 0.0, "USD", "", 0)
  const Salary := Transaction("t", 30.0, Income, "Salary", "", "a", 0, 0)

  /** Moving a transaction to another wallet by update leaves both balances stale. */
  lemma MovingWalletBreaksSync()
    ensures Synced(Books([WalletA, WalletB], [Salary]), [0.0, 0.0])
    ensures var after := AfterUpdate(Books([WalletA, WalletB], [Salary]), "t",
                                     NoTransactionChanges.(walletId := Some("b")));
      |after.wallets| == 2
      && after.wallets[0].balance == 30.0 && Ledger(after.transactions, "a") == 0.0
      && after.wallets[1].balance == 0.0 && Ledger(after.transactions, "b") == 30.0
    ensures !Synced(AfterUpdate(Books([WalletA, WalletB], [Salary]), "t",
                                NoTransactionChanges.(walletId := Some("b"))), [0.0, 0.0])
  {
    var b := Books([WalletA, WalletB], [Salary]);
    assert Ledger([Salary], "a") == 30.0;
    assert Ledger([Salary], "b") == 0.0;
    var p := NoTransactionChanges.(walletId := Some("b"));
    assert IndexOf([Salary], "t", TransactionKey) == Some(0);
    var after := AfterUpdate(b, "t", p);
    assert after.wallets == b.wallets;
    assert after.transactions == [Salary.(walletId := "b")];
    assert Ledger(after.transactions, "a") == 0.0;
    assert Ledger(after.transactions, "b") == 30.0;
    assert after.wallets[0].balance != 0.0 + Ledger(after.transactions, after.wallets[0].id);
  }

  /** Two transactions sharing an id: delete reverses one and removes both. */
  lemma DuplicateTransactionIdBreaksSync()
    ensures Synced(Books([WalletA.(balance := 60.0)], [Salary, Salary]), [0.0])
    ensures !Synced(AfterDelete(Books([WalletA.(balance := 60.0)], [Salary, Salary]), "t"), [0.0])
  {
    var b := Books([WalletA.(balance := 60.0)], [Salary, Salary]);
    assert Ledger([Salary], "a") == 30.0;
    assert Ledger([Salary, Salary], "a") == 60.0;
    var after := AfterDelete(b, "t");
    assert Without([Salary, Salary], "t", TransactionKey) == [];
    assert after.wallets[0].balance == 30.0;
  }

  /** Two wallets sharing an id: add credits only the first, though both reference the transaction. */
  lemma DuplicateWalletIdBreaksSync()
    ensures Synced(Books([WalletA, WalletA], []), [30.0, 30.0])
    ensures !Synced(AfterAdd(Books([WalletA, WalletA], []), Salary), [30.0, 30.0])
  {
    var after := AfterAdd(Books([WalletA, WalletA], []), Salary);
    assert Ledger([Salary], "a") == 30.0;
    assert FirstWith([WalletA, WalletA], "a", 0);
    assert !FirstWith([WalletA, WalletA], "a", 1);
    assert after.wallets[1].balance == 30.0;
  }

  /** A patch carrying another record's id makes two records share it, so a later delete breaks the sync. */
  lemma PatchIdCanDuplicate()
    ensures UniqueKeys([Salary, Salary.(id := "u")], TransactionKey)
    ensures var after := AfterUpdate(Books([WalletA], [Salary, Salary.(id := "u")]), "u",
                                     NoTransactionChanges.(id := Some("t")));
      !UniqueKeys(after.transactions, TransactionKey)
  {
    var ts := [Salary, Salary.(id := "u")];
    assert IndexOf(ts, "u", TransactionKey) == Some(1);
    var after := AfterUpdate(Books([WalletA], ts), "u", NoTransactionChanges.(id := Some("t")));
    assert after.transactions == [Salary, Salary];
    assert TransactionKey(after.transactions[0]) == TransactionKey(after.transactions[1]);
  }
}
