# Budgety core in Dafny

Budgety is a personal-finance app. It keeps six collections on the device:
wallets, transactions, budgets, saving goals, loans and investments.
This project models three parts of it.

- **The storage layer** (`lib/storage.ts`) becomes `Storage.Store`.
  - The store is a class whose six `seq` fields are the persisted collections.
  - Each collection has get, save, add, update and delete methods. Each method
    states its whole new state and frames only the field it touches.
  - Recording, editing or deleting a transaction also moves the balance of the
    wallet it names.
- **What the balance sync does** is stated as functions on the wallet and
  transaction collections (`BalanceSync`).
  - A ledger invariant holds: every wallet's balance is its opening balance
    plus the signed amounts of the transactions that reference it. The three
    transaction mutations preserve it, one step at a time and over any run of
    steps. The model spells out the assumptions the invariant needs and the
    app never enforces:
    - wallet ids are unique;
    - transaction ids are unique, so an added transaction needs a fresh id;
    - an update does not move a transaction to another wallet;
    - an update does not change the transaction's id.
  - The id assumptions are shown to survive every admissible step.
    Counterexample lemmas show that each assumption is needed.
- **The model helpers** (`lib/models.ts`) become `Models` and `Reports`.
  - The `Models` module holds the entity records, the `create*` factories
    with their defaults, and `{...record, ...patch}` merges.
  - The `Reports` module holds:
    - budget and saving progress;
    - total balance;
    - the date-range filter;
    - income versus expenses over a period;
    - the recent-transactions list. It sorts the caller's array in place,
      latest first and stably, then keeps a JavaScript `slice(0, limit)`.
- **The loans screen** (`screens/LoansScreen.tsx`) becomes `Loans`.
  - Each handler becomes a pure decision plus a method that applies it to the
    store. The decisions cover:
    - recording a payment;
    - marking a loan paid;
    - validating the add-loan form, including JavaScript `trim()`.
  - The module also has the status badge and the four totals: lent,
    borrowed, received and repaid.

How JavaScript entities are represented:
- Amounts are `real`.
- A calendar date is an integer: the UTC day, counted from 1970-01-01, that a
  "YYYY-MM-DD" string names. A timestamp is what `Date.now()` gives:
  milliseconds since the same instant. `new Date()` is a timestamp parameter.
- Ids and text are `string`.
- The TypeScript field `type` is called `kind`, because `type` is a Dafny keyword.
- `Partial<T>` is a patch datatype with one `Option` per field. A nullable
  field has an `Option<Option<…>>`, so a patch can set it to null.
- A form field parsed with `parseFloat` is an `Option<real>`: `None` stands
  for a blank or non-numeric entry.
- The outcome of the get, save, remove and clear operations on the device
  store is a `readOk`/`writeOk` parameter. The add, update and delete methods
  assume their reads and writes succeed (see "## Left out").
- The clock and generated ids are parameters.

Modules:
- `Wrappers` holds `Option` and `Result`.
- `Collections` holds `findIndex`, `filter` and `reduce` on sequences, with
  their lemmas.
- `Models`, `BalanceSync`, `Storage`, `Reports` and `Loans` are described above.

## Model

| member | source | states |
|---|---|---|
| Collections.IndexOf | lib/storage.ts:79 | `findIndex` by id: a found index holds the id and no earlier element does; there is no result exactly when nothing holds the id |
| Collections.WithoutMembers | lib/storage.ts:93 | `filter(x => x.id !== id)` keeps exactly the elements of the input whose id differs, in both directions |
| Collections.WithoutKeepsUnique | lib/storage.ts:197 | removing an id from a list with unique keys leaves the keys unique |
| Collections.WithoutOnly | lib/storage.ts:197 | when no other element shares element i's id, removing that id removes just element i and keeps the rest in order |
| Collections.FilterMembers | lib/models.ts:216-221 | `filter(p)` keeps exactly the elements of the input that satisfy p |
| Collections.SumPartition | lib/models.ts:276-284 | when two predicates split the list, the sums over the two filtered lists add up to the sum of the whole |
| Collections.SumFilter | screens/LoansScreen.tsx:170-192 | a filtered sum equals the sum of the whole list with every rejected element counted as 0 |
| Models.CreateWallet | lib/models.ts:60-74 | a new wallet takes the supplied fields; otherwise it is named "New Wallet", is a checking account with balance 0 in "USD" with an empty description, and is stamped with the given id and time |
| Models.CreateTransaction | lib/models.ts:77-93 | a new transaction takes the supplied amount; by default it is an expense in "general" with empty description and wallet, dated today |
| Models.CreateBudget | lib/models.ts:96-112 | a new budget is named "New Budget" in "general", is monthly, starts today and has no end date, unless those fields are supplied |
| Models.CreateSaving | lib/models.ts:115-131 | a new saving goal is named "New Saving Goal" in "general", has saved 0 and has no target date, unless those fields are supplied |
| Models.CreateLoan | lib/models.ts:134-152 | a new loan is lent, active, interest-free, with no due date and empty name and description, unless supplied; it never carries a paid amount |
| Models.DefaultWallet | lib/models.ts:60-74 | with nothing supplied, the wallet is exactly an empty US-dollar checking account called "New Wallet" |
| Models.DefaultLoan | lib/models.ts:134-152 | with only an amount supplied, the loan is exactly that amount lent, active, at 0 interest, undated and unpaid |
| Models.MergeWallet | lib/storage.ts:83 | defines `{...wallet, ...updates}`: a field the patch carries wins, every other field is kept (no contract; describes the definition) |
| Models.MergeTransaction | lib/storage.ts:142-144 | defines `{...transaction, ...updates}` field by field (no contract; describes the definition) |
| Models.MergeBudget | lib/storage.ts:224-236 | defines `{...budget, ...updates}` field by field (no contract; describes the definition) |
| Models.MergeSaving | lib/storage.ts:266-278 | defines `{...saving, ...updates}` field by field (no contract; describes the definition) |
| Models.MergeLoan | lib/storage.ts:308-320 | defines `{...loan, ...updates}`; a patch can set the nullable paid amount (no contract; `MergeLoanIdempotent` is its lemma) |
| Models.MergeInvestment | lib/storage.ts:354-370 | defines `{...investment, ...updates}` field by field (no contract; describes the definition) |
| Models.MergeLoanIdempotent | lib/storage.ts:308-320 | merging a patch a second time changes nothing more, and the empty patch changes nothing |
| Storage.StorageKey | lib/storage.ts:5-12 | every collection is stored under a key starting "budgety_" |
| Storage.StorageKeysDistinct | lib/storage.ts:5-12 | different collections have different keys, so saving one never overwrites another |
| Storage.Store.constructor | lib/storage.ts:26-34 | with no keys stored, every collection reads as empty |
| Storage.Store.RemoveData | lib/storage.ts:36-44 | a successful remove empties exactly that collection; a failed one changes nothing; the result reports success |
| Storage.Store.ClearAllData | lib/storage.ts:46-54 | a successful clear empties all six collections; a failed one changes nothing |
| Storage.Store.GetWallets | lib/storage.ts:26-34 | a read returns the stored collection, or [] when the read fails |
| Storage.Store.SaveWallets | lib/storage.ts:15-24 | a successful save replaces the collection and only it; a failed one changes nothing |
| Storage.Store.AddWallet | lib/storage.ts:65-75 | stores `{id: generated, ...input, createdAt: now}` at the end: an input's own id wins, the store's timestamp always wins, and only the wallet collection changes |
| Storage.Store.UpdateWallet | lib/storage.ts:77-89 | an unknown id returns none and changes nothing; otherwise the first wallet with the id is replaced in place by the merge, which is returned |
| Storage.Store.DeleteWallet | lib/storage.ts:91-96 | removes every wallet with the id, keeps the rest in order, returns true and leaves the transactions as they were |
| Storage.Store.GetTransactions | lib/storage.ts:99-101 | a read returns the stored transactions, or [] on failure |
| Storage.Store.SaveTransactions | lib/storage.ts:103-105 | a successful save replaces the transactions and only them |
| Storage.Store.CreditWallet | lib/storage.ts:117-124 | the first wallet with the id gets its balance moved by the delta; nothing changes when no wallet has the id |
| Storage.Store.AddTransaction | lib/storage.ts:107-127 | the stamped transaction is appended and its wallet credited with +amount (income) or -amount (expense), exactly as `BalanceSync.AfterAdd` says |
| Storage.Store.UpdateTransaction | lib/storage.ts:129-168 | the store becomes `BalanceSync.AfterUpdate` of the old one, and the result is the merged record or none |
| Storage.Store.DeleteTransaction | lib/storage.ts:170-201 | the store becomes `BalanceSync.AfterDelete` of the old one; the result says whether the id was found |
| Storage.Store.GetBudgets | lib/storage.ts:204-206 | a read returns the stored budgets, or [] on failure |
| Storage.Store.SaveBudgets | lib/storage.ts:208-210 | a successful save replaces the budgets and only them |
| Storage.Store.AddBudget | lib/storage.ts:212-222 | the budget is stamped with an id and the store's time and appended |
| Storage.Store.UpdateBudget | lib/storage.ts:224-236 | the first budget with the id is replaced in place by the merge; an unknown id changes nothing |
| Storage.Store.DeleteBudget | lib/storage.ts:238-243 | every budget with the id is removed, the rest keep their order |
| Storage.Store.GetSavings | lib/storage.ts:246-248 | a read returns the stored saving goals, or [] on failure |
| Storage.Store.SaveSavings | lib/storage.ts:250-252 | a successful save replaces the saving goals and only them |
| Storage.Store.AddSaving | lib/storage.ts:254-264 | the goal is stamped with an id and the store's time and appended |
| Storage.Store.UpdateSaving | lib/storage.ts:266-278 | the first goal with the id is replaced in place by the merge; an unknown id changes nothing |
| Storage.Store.DeleteSaving | lib/storage.ts:280-285 | every goal with the id is removed, the rest keep their order |
| Storage.Store.GetLoans | lib/storage.ts:288-290 | a read returns the stored loans, or [] on failure |
| Storage.Store.SaveLoans | lib/storage.ts:292-294 | a successful save replaces the loans and only them |
| Storage.Store.AddLoan | lib/storage.ts:296-306 | the loan is stamped with an id and the store's time and appended |
| Storage.Store.UpdateLoan | lib/storage.ts:308-320 | the first loan with the id is replaced in place by the merge; an unknown id changes nothing |
| Storage.Store.DeleteLoan | lib/storage.ts:322-327 | every loan with the id is removed, the rest keep their order |
| Storage.Store.GetInvestments | lib/storage.ts:330-332 | a read returns the stored investments, or [] on failure |
| Storage.Store.SaveInvestments | lib/storage.ts:334-336 | a successful save replaces the investments and only them |
| Storage.Store.AddInvestment | lib/storage.ts:338-352 | the investment is stamped with an id and the store's time and appended |
| Storage.Store.UpdateInvestment | lib/storage.ts:354-370 | the first investment with the id is replaced in place by the merge; an unknown id changes nothing |
| Storage.Store.DeleteInvestment | lib/storage.ts:372-377 | every investment with the id is removed, the rest keep their order |
| Storage.BalanceScenario | lib/storage.ts:107-201 | a wallet at 100 that takes income 30, has it raised to 50, turned into an expense and deleted reads 130, 150, 50 and 100 |
| Storage.OrphanScenario | lib/storage.ts:107-127 | a transaction naming no wallet is still stored, and the wallet balance stays 100 |
| BalanceSync.Credit | lib/storage.ts:117-124 | defines `wallets[findIndex(id)].balance += delta`, a no-op when no wallet has the id (no contract; `CreditEffect` states what it does) |
| BalanceSync.AfterAdd | lib/storage.ts:107-127 | defines the books after addTransaction: the record appended, then its wallet credited with its effect (no contract; the lemmas below state its properties) |
| BalanceSync.AfterUpdate | lib/storage.ts:129-168 | defines the books after updateTransaction: the first match replaced by the merge, and the original record's wallet moved only when amount or type is patched (no contract; the lemmas below state its properties) |
| BalanceSync.AfterDelete | lib/storage.ts:170-201 | defines the books after deleteTransaction: the first match's wallet reversed, then every match removed (no contract; the lemmas below state its properties) |
| BalanceSync.CreditEffect | lib/storage.ts:117-124 | crediting changes only the balance of the first wallet with the id, by exactly the delta, and nothing when no wallet has the id |
| BalanceSync.CreditKeepsLookup | lib/storage.ts:147-164 | crediting keeps every wallet id in place, so the next lookup by id finds the same wallet |
| BalanceSync.CreditUndone | lib/storage.ts:117-124 | a credit followed by the opposite credit to the same id restores the wallets |
| BalanceSync.UnknownIdChangesNothing | lib/storage.ts:129-140 | for an id no transaction has, update returns null, delete returns false, and neither changes anything |
| BalanceSync.OrphanAddKeepsWallets | lib/storage.ts:107-127 | adding a transaction whose wallet does not exist stores it and changes no wallet |
| BalanceSync.UpdateReplacesInPlace | lib/storage.ts:142-144 | update returns the merged record and replaces it at its own index; the other records, the length and the order are kept |
| BalanceSync.UnrelatedEditKeepsWallets | lib/storage.ts:147 | a patch carrying neither amount nor type leaves every wallet balance alone |
| BalanceSync.UpdateAmountShift | lib/storage.ts:147-164 | changing the amount from A to B moves the wallet by B - A for income and by A - B for expense |
| BalanceSync.UpdateTypeFlip | lib/storage.ts:147-164 | turning an income of A into an expense moves its wallet by -2A |
| BalanceSync.FreshAppend | lib/storage.ts:107-115 | a transaction appended with a fresh id is found at the end, and removing its id gives back the old list |
| BalanceSync.AddThenDeleteRestores | lib/storage.ts:107-201 | adding a transaction with a fresh id and then deleting it restores both the wallets and the transactions |
| BalanceSync.LedgerConcat | lib/storage.ts:107-115 | a wallet's ledger over two lists joined is the sum of the two ledgers |
| BalanceSync.LedgerReplace | lib/storage.ts:142-164 | replacing a transaction on the same wallet moves that wallet's ledger by the new effect minus the old one |
| BalanceSync.WithoutUnique | lib/storage.ts:197 | with unique transaction ids, deleting an id removes exactly one record |
| BalanceSync.LedgerWithout | lib/storage.ts:170-201 | with unique transaction ids, deleting one removes exactly its effect from its wallet's ledger |
| BalanceSync.StartSynced | lib/storage.ts:65-75 | wallets with no transactions are synced, with their own balances as openings |
| BalanceSync.CreditSyncsOne | lib/storage.ts:117-124 | with unique wallet ids, a credit reaches exactly the wallet whose id it names |
| BalanceSync.AddKeepsSynced | lib/storage.ts:107-127 | with unique wallet ids, adding any transaction keeps every balance equal to opening plus ledger |
| BalanceSync.UpdateKeepsSynced | lib/storage.ts:129-168 | with unique wallet ids and an update that keeps the wallet, every balance stays equal to opening plus ledger |
| BalanceSync.DeleteKeepsSynced | lib/storage.ts:170-201 | with unique wallet and transaction ids, deleting keeps every balance equal to opening plus ledger |
| BalanceSync.MovingWalletBreaksSync | lib/storage.ts:147-164 | an update that moves an income of 30 from wallet a to wallet b leaves a at 30 with a ledger of 0 and b at 0 with a ledger of 30, so the books are no longer synced |
| BalanceSync.PatchIdCanDuplicate | lib/storage.ts:142-144 | a patch carrying another record's id gives two records the same id |
| BalanceSync.CreditKeepsIds | lib/storage.ts:117-124 | crediting keeps the number of wallets and every wallet id, so unique wallet ids stay unique |
| BalanceSync.AddKeepsUniqueIds | lib/storage.ts:107-127 | adding a transaction whose id no stored one has keeps wallet ids and transaction ids unique |
| BalanceSync.UpdateKeepsUniqueIds | lib/storage.ts:129-168 | an update whose patch carries no id, or the looked-up one, keeps wallet ids and transaction ids unique |
| BalanceSync.DeleteKeepsUniqueIds | lib/storage.ts:170-201 | a delete keeps wallet ids and transaction ids unique |
| BalanceSync.StepKeepsSound | lib/storage.ts:107-201 | an admissible add, update or delete keeps unique ids and synced balances together |
| BalanceSync.RunKeepsSynced | lib/storage.ts:107-201 | from unique ids and synced balances, every run of admissible transaction mutations ends with unique ids and synced balances |
| BalanceSync.RunFromStartSynced | lib/storage.ts:65-201 | wallets with unique ids and no transactions stay synced with their opening balances through every run of admissible transaction mutations |
| BalanceSync.DuplicateTransactionIdBreaksSync | lib/storage.ts:170-201 | with two records sharing an id, delete reverses one and removes both, breaking the invariant |
| BalanceSync.DuplicateWalletIdBreaksSync | lib/storage.ts:117-124 | with two wallets sharing an id, add credits only the first, breaking the invariant |
| Reports.TotalBalance | lib/models.ts:241-243 | defines the sum of the wallet balances (no contract; `TotalBalanceAppend` and `TotalBalanceCredit` are its lemmas) |
| Reports.TotalBalanceAppend | lib/models.ts:241-243 | the total balance of no wallets is 0, and one more wallet adds its balance |
| Reports.TotalBalanceCredit | lib/models.ts:241-243 | crediting a wallet moves the total by the credit when the wallet exists, and not at all otherwise |
| Reports.AddMovesTotalBalance | lib/storage.ts:107-127 | recording a transaction moves the total balance by its signed amount, when its wallet exists |
| Reports.DeleteMovesTotalBalance | lib/storage.ts:170-201 | deleting a transaction moves the total balance back by its signed amount, when its wallet exists |
| Reports.Percent | lib/models.ts:228 | `spent / amount * 100` is spent's share of amount; it reaches 100 exactly when spent reaches amount |
| Reports.CalculateBudgetProgress | lib/models.ts:215-231 | spent is the sum of the budget's expenses in its category and dates; remaining is amount - spent; the percentage is spent's share capped at 100, is 100 exactly when spent reaches the amount, and is 0 for an amount that is not positive |
| Reports.SpentAppend | lib/models.ts:216-223 | a new transaction adds its amount to spent exactly when it is an expense in the budget's category and dates |
| Reports.OutsideBudgetIgnored | lib/models.ts:216-221 | income, other categories and transactions outside the budget's dates leave the progress unchanged |
| Reports.BudgetProgressMonotone | lib/models.ts:215-231 | with a non-negative amount, a new transaction never lowers spent or the percentage |
| Reports.BudgetProgressNonNegative | lib/models.ts:215-231 | with non-negative amounts, spent and the percentage are never negative |
| Reports.CalculateSavingProgress | lib/models.ts:233-239 | remaining is target - current; the percentage is current's share capped at 100, is 100 exactly when the target is reached, and is 0 for a target that is not positive |
| Reports.TransactionsByDateRange | lib/models.ts:251-256 | defines the filter on dates from start to end inclusive (no contract; `DateRangeMembers` states what it keeps) |
| Reports.DateRangeMembers | lib/models.ts:251-256 | a transaction is in the result exactly when it is in the input and dated from start to end inclusive |
| Reports.DateRangeConcat | lib/models.ts:251-256 | the range filter keeps the original order, piece by piece |
| Reports.DateRangeNested | lib/models.ts:251-256 | filtering by one range and then another is filtering by their overlap |
| Reports.DateRangeEmpty | lib/models.ts:251-256 | a range ending before it starts holds nothing |
| Reports.IncomeVsExpenses | lib/models.ts:258-287 | income is the sum of the amounts of the income transactions dated from the period's first day to today (equivalently, the period's sum with every other transaction counted as 0), expenses the same for expenses, and net is income minus expenses and also the signed sum of the period's transactions |
| Reports.EffectSplits | lib/models.ts:276-286 | the signed sum of a list is its income minus its expenses |
| Reports.NetIsTotalEffect | lib/models.ts:276-286 | net is the signed sum of the transactions in the period, and income plus expenses is their total amount (every transaction is one or the other) |
| Reports.IncomeExpensesNonNegative | lib/models.ts:276-286 | with non-negative amounts, income and expenses are both non-negative |
| Reports.InsertByDate | lib/models.ts:247 | inserting a transaction into the list adds exactly that element |
| Reports.SortByDateDesc | lib/models.ts:247 | the sort is a permutation of its input |
| Reports.InsertKeepsSorted | lib/models.ts:247 | inserting into a list ordered latest first keeps it ordered |
| Reports.SortIsSorted | lib/models.ts:247 | the sorted list is ordered latest first |
| Reports.InsertStable | lib/models.ts:247 | among the elements of one date, the inserted element comes first and the others keep their order |
| Reports.SortIsStable | lib/models.ts:247 | transactions sharing a date keep their original relative order |
| Reports.SliceLength | lib/models.ts:248 | `slice(0, limit)` keeps `limit` elements, or all of them when fewer; a negative limit drops that many from the end, leaving none when it exceeds the length; never more than the list holds |
| Reports.Recent | lib/models.ts:245-249 | defines the sort followed by `slice(0, limit)` (no contract; `RecentAreLatest` states its properties) |
| Reports.SortedPrefixIsLatest | lib/models.ts:245-249 | in a list ordered latest first, whatever lies beyond the first k is dated no later than any of them |
| Reports.RecentAreLatest | lib/models.ts:245-249 | the recent list has min(limit, n) elements for a non-negative limit, is ordered latest first, is drawn from the input, and nothing left out is later than anything kept |
| Reports.GetRecentTransactions | lib/models.ts:245-249 | the caller's array is left sorted latest first, and the result is its first `limit` elements (default 5) |
| Loans.DecidePayment | screens/LoansScreen.tsx:76-101 | a blank or non-numeric payment is refused as invalid and one that is not positive as not positive; a positive payment above what remains, or with no loan selected, is refused as exceeding the remaining amount; otherwise the patch adds it to the amount already paid and marks the loan paid exactly when the new total equals the amount, active otherwise |
| Loans.PaymentEffect | screens/LoansScreen.tsx:96-104 | saving an accepted payment raises the paid amount by it, keeps it within the loan amount and changes nothing else about the loan |
| Loans.PaymentShowsProgress | screens/LoansScreen.tsx:96-104 | after an accepted payment the badge is Paid when the loan is settled and Partial otherwise |
| Loans.HandleAddPayment | screens/LoansScreen.tsx:76-109 | a refused payment changes no loan; an accepted one updates the selected loan in the store with the patch |
| Loans.MarkPaidPatch | screens/LoansScreen.tsx:121-124 | marking paid sets the paid amount to the loan amount and the status to paid, and keeps every other field |
| Loans.MarkPaidSettles | screens/LoansScreen.tsx:111-133 | a loan marked paid shows the Paid badge and has its whole amount paid |
| Loans.HandleMarkPaid | screens/LoansScreen.tsx:111-133 | cancelling changes nothing; confirming updates the loan in the store with the mark-paid patch |
| Loans.GetLoanStatus | screens/LoansScreen.tsx:155-168 | Paid exactly when the status is paid; otherwise Partial exactly when something but not everything is paid; otherwise Overdue exactly when the due day's UTC midnight lies before the moment `now`; Pending in every other case |
| Loans.DueDayIsOverdue | screens/LoansScreen.tsx:163-165 | an open, unpaid loan reads Overdue throughout its due day after midnight UTC, and Pending up to that midnight |
| Loans.OverdueIsPermanent | screens/LoansScreen.tsx:163-165 | a loan with no due date is never overdue, and an overdue loan stays overdue as time passes |
| Loans.TotalLent | screens/LoansScreen.tsx:170-174 | defines the sum of the amounts of the lent loans (no contract; lemmas below) |
| Loans.TotalBorrowed | screens/LoansScreen.tsx:176-180 | defines the sum of the amounts of the borrowed loans (no contract; lemmas below) |
| Loans.TotalReceived | screens/LoansScreen.tsx:182-186 | defines the sum of the paid amounts, 0 when unset, of the lent loans (no contract; lemmas below) |
| Loans.TotalRepaid | screens/LoansScreen.tsx:188-192 | defines the sum of the paid amounts, 0 when unset, of the borrowed loans (no contract; lemmas below) |
| Loans.LentPlusBorrowed | screens/LoansScreen.tsx:170-192 | total lent plus total borrowed is the total of all loans, and received plus repaid is everything paid |
| Loans.PaidWithinTotals | screens/LoansScreen.tsx:170-192 | while each loan's paid amount lies between 0 and its amount, received is between 0 and lent, and repaid between 0 and borrowed |
| Loans.PaymentRaisesReceived | screens/LoansScreen.tsx:96-104 | a payment saved on a lent loan raises the total received by the payment and leaves lent, borrowed and repaid unchanged |
| Loans.Trim | screens/LoansScreen.tsx:40 | defines `trim()` as trimming the start and then the end (no contract; `TrimSpec` states what it returns) |
| Loans.TrimStartSpec | screens/LoansScreen.tsx:40 | trimming the start drops a run of white space and stops at the first other character |
| Loans.TrimEndSpec | screens/LoansScreen.tsx:40 | trimming the end drops a run of white space and stops at the last other character |
| Loans.TrimSpec | screens/LoansScreen.tsx:40 | `trim()` is the input with its leading and trailing white space removed, and it neither starts nor ends with white space |
| Loans.TrimBlank | screens/LoansScreen.tsx:40-43 | a name trims to empty exactly when it is all white space, and trimming twice is trimming once |
| Loans.TrimFixed | screens/LoansScreen.tsx:40 | a string that neither starts nor ends with white space is left unchanged by `trim()` |
| Loans.ValidateLoanForm | screens/LoansScreen.tsx:39-58 | a name that is blank after trimming is refused; otherwise a missing amount is refused; otherwise the patch carries the trimmed name and description, the type, the amount, the due date and the interest rate (0 when blank) |
| Loans.AcceptedFormMakesActiveLoan | screens/LoansScreen.tsx:51-58 | an accepted form makes an active loan with nothing paid and the trimmed name |
| Loans.NewLoanBadge | screens/LoansScreen.tsx:51-58 | a new loan shows Pending up to the UTC midnight that starts its due day, and Overdue after |
| Loans.HandleAddLoan | screens/LoansScreen.tsx:39-74 | a refused form changes no loan; an accepted one appends the created loan with the factory's id and the store's timestamp |

## Left out

- Device storage: AsyncStorage and JSON (de)serialisation are left out. In
  get, save, remove and clear, the outcome is a `readOk`/`writeOk` parameter,
  and a failed read yields an empty collection.
- Storing and loading are not separate in the model: a collection's field is
  what is persisted. The `console.error` logging on failure is left out.
- Read and write failures inside the mutations are not modelled. These
  methods assume every read succeeds and ignore a failed save, as the source
  does:
  - Storage.Store.AddWallet, Storage.Store.UpdateWallet and Storage.Store.DeleteWallet;
  - Storage.Store.AddTransaction, Storage.Store.UpdateTransaction and Storage.Store.DeleteTransaction;
  - Storage.Store.AddBudget, Storage.Store.UpdateBudget and Storage.Store.DeleteBudget;
  - Storage.Store.AddSaving, Storage.Store.UpdateSaving and Storage.Store.DeleteSaving;
  - Storage.Store.AddLoan, Storage.Store.UpdateLoan and Storage.Store.DeleteLoan;
  - Storage.Store.AddInvestment, Storage.Store.UpdateInvestment and Storage.Store.DeleteInvestment.
- In the app, a failed read gives `[]` (lib/storage.ts:31-32), and the
  method goes on from that empty list:
  - an add saves a collection holding only the new record, and every stored
    record is lost;
  - a delete saves an empty collection;
  - an update finds nothing and returns null;
  - a failed wallet read inside addTransaction, updateTransaction or
    deleteTransaction (lib/storage.ts:118, 148 and 184) skips the balance
    change, while the transaction itself is still saved.
  The model does not capture any of these outcomes.
- Clock: `Date.now()` and `new Date()` are parameters of the operations that
  read them.
- The `create*` factories stamp `createdAt` with an ISO string from
  `new Date().toISOString()` (lib/models.ts:60-152). That string is not
  modelled, because the store always replaces it with the `Date.now()`
  number when it adds the record (lib/storage.ts:65-75). The factories take
  the timestamp as a parameter instead.
- Reports.IncomeVsExpenses takes the first day of the period and today as
  parameters. It does not compute them from `new Date()` and the `week`,
  `month` or `year` argument (lib/models.ts:259-274). The UTC
  `toISOString()` day conversion is not modelled either.
- JavaScript parsing of date strings is not modelled, and neither are
  comparisons with an invalid date (NaN, which makes every comparison false).
  The model assumes every stored date is a valid "YYYY-MM-DD" day.
  - Loans.GetLoanStatus compares the due day's UTC midnight with the current
    timestamp. A due date written with a time of day, or in another format,
    is not modelled.
  - Reports.SortByDateDesc assumes every date parses, so the comparator never
    yields NaN.
- Reports.RecentAreLatest: a non-integer `limit` is not modelled.
- `parseFloat` is not modelled: a form amount is `Some(x)` or `None`.
  - Loans.ValidateLoanForm: an interest rate that is present but non-numeric
    gives NaN in the source. The model has only "blank, so 0" or a number.
- Models.CreateTransaction, Models.CreateBudget and Models.CreateLoan require
  the amount to be supplied. Models.CreateSaving requires the target amount.
  Without it the source stores `parseFloat(undefined)`, which is NaN.
- Floating point is left out. Amounts are exact reals, so rounding in the sums
  and in the percentages is not modelled.
- Loans.ValidateLoanForm accepts any numeric amount, including zero and
  negative ones, because the source does.
- The category, wallet-type, period and status tables (lib/models.ts:155-198)
  are left out; they are display data.
- The Intl-based `formatCurrency` and `formatDate` (lib/models.ts:200-213) are
  left out; they are display formatting.
- The ids the store generates with `Date.now().toString()` are a parameter.
- The React rendering, modals, alerts and navigation of the loans screen are
  left out. Only the handlers' decisions and their effect on the store are
  modelled.
  - The screen's reload from storage after each change is left out, because
    the store is the state.
- hooks/useFinanceData.ts is not part of this model. That includes its
  in-memory filter of a deleted wallet's transactions; the store itself never
  removes them.
- The other screens and components are left out.
- The Investment record is not declared in lib/models.ts. Its fields come from
  the investment form (screens/InvestmentsScreen.tsx:37-52). The source's
  unfinished investment handling (lib/storage.ts:346 and 362) is not modelled
  beyond the generic add and update pattern.
- Concurrency is left out. Calls run one at a time: two overlapping async
  calls in the source can interleave their reads and writes, and the model
  does not capture that.
