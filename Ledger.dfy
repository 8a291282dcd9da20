/** The finance store: its four entity lists, the reducer that every change
    goes through, the read-only queries derived from the lists, the default
    data set and the fallback applied when the stored copy is loaded.

    Amounts are whole numbers of the currency's smallest unit. */
module Ledger {
  import opened Common
  import opened Format

  type Id = string

  /** `TransactionType`. (`type` is a reserved word here, so every `type`
      field of the source is called `kind`.) */
  datatype TransactionType = Income | Expense

  /** `AccountType`. */
  datatype AccountType = Cash | Debit | Credit

  datatype Category = Category(id: Id, name: string, icon: string, color: string,
                               kind: TransactionType, budget: Option<int>)

  /** `limit`, `cutoffDay` and `paymentDay` are kept for credit accounts and
      read by no computation. */
  datatype Account = Account(id: Id, name: string, kind: AccountType, icon: string, color: string,
                             initialBalance: Option<int>, limit: Option<int>,
                             cutoffDay: Option<int>, paymentDay: Option<int>)

  datatype Transaction = Transaction(id: Id, kind: TransactionType, amount: int, description: string,
                                     categoryId: Id, accountId: Option<Id>, date: Moment,
                                     note: Option<string>)

  /** A quick (template) transaction, possibly recurring; `lastAutoExec` is
      the moment of its last automatic run. */
  datatype QuickTransaction = QuickTransaction(id: Id, name: string, icon: string, amount: Option<int>,
                                               categoryId: Id, kind: TransactionType, note: Option<string>,
                                               recurrence: Option<Recurrence>,
                                               lastAutoExec: Option<Moment>)

  datatype FinanceState = FinanceState(transactions: seq<Transaction>, categories: seq<Category>,
                                       quickTransactions: seq<QuickTransaction>, accounts: seq<Account>,
                                       isLoaded: bool)

  datatype Action =
    | Load(state: FinanceState)
    | AddTransaction(transaction: Transaction)
    | DeleteTransaction(transactionId: Id)
    | AddCategory(category: Category)
    | UpdateCategory(category: Category)
    | DeleteCategory(categoryId: Id)
    | AddQuick(quick: QuickTransaction)
    | UpdateQuick(quick: QuickTransaction)
    | DeleteQuick(quickId: Id)
    | AddAccount(account: Account)
    | UpdateAccount(account: Account)
    | DeleteAccount(accountId: Id)
  {
    predicate OnTransactions() { AddTransaction? || DeleteTransaction? }
    predicate OnCategories() { AddCategory? || UpdateCategory? || DeleteCategory? }
    predicate OnQuicks() { AddQuick? || UpdateQuick? || DeleteQuick? }
    predicate OnAccounts() { AddAccount? || UpdateAccount? || DeleteAccount? }
  }

  function TransactionId(t: Transaction): Id { t.id }
  function CategoryId(c: Category): Id { c.id }
  function QuickId(q: QuickTransaction): Id { q.id }
  function AccountId(a: Account): Id { a.id }

  // ---------------------------------------------------------------------------
  // The reducer
  // ---------------------------------------------------------------------------

  /** `reducer(state, action)`. Apart from `Load`, which replaces everything,
      an action changes the one list it is about and nothing else. */
  function Reduce(s: FinanceState, a: Action): (r: FinanceState)
    ensures a.Load? ==> r == a.state
    ensures !a.Load? ==> r.isLoaded == s.isLoaded
    ensures !a.Load? && !a.OnTransactions() ==> r.transactions == s.transactions
    ensures !a.Load? && !a.OnCategories() ==> r.categories == s.categories
    ensures !a.Load? && !a.OnQuicks() ==> r.quickTransactions == s.quickTransactions
    ensures !a.Load? && !a.OnAccounts() ==> r.accounts == s.accounts
  {
    match a
    case Load(p) => p
    case AddTransaction(t) => s.(transactions := [t] + s.transactions)
    case DeleteTransaction(id) => s.(transactions := Without(s.transactions, TransactionId, id))
    case AddCategory(c) => s.(categories := s.categories + [c])
    case UpdateCategory(c) => s.(categories := ReplaceById(s.categories, CategoryId, c))
    case DeleteCategory(id) => s.(categories := Without(s.categories, CategoryId, id))
    case AddQuick(q) => s.(quickTransactions := s.quickTransactions + [q])
    case UpdateQuick(q) => s.(quickTransactions := ReplaceById(s.quickTransactions, QuickId, q))
    case DeleteQuick(id) => s.(quickTransactions := Without(s.quickTransactions, QuickId, id))
    case AddAccount(acc) => s.(accounts := s.accounts + [acc])
    case UpdateAccount(acc) => s.(accounts := ReplaceById(s.accounts, AccountId, acc))
    case DeleteAccount(id) => s.(accounts := Without(s.accounts, AccountId, id))
  }

  /** A new transaction goes in front: it is the newest one and the older
      ones follow in their order. */
  lemma AddTransactionPrepends(s: FinanceState, t: Transaction)
    ensures var r := Reduce(s, AddTransaction(t));
            |r.transactions| == |s.transactions| + 1 && r.transactions[0] == t &&
            r.transactions[1..] == s.transactions &&
            r.categories == s.categories && r.quickTransactions == s.quickTransactions &&
            r.accounts == s.accounts && r.isLoaded == s.isLoaded
  {
  }

  /** A new category, template or account goes at the end, after the old
      list unchanged; looking its id up afterwards finds it when the id was
      fresh. */
  lemma AddAppends(s: FinanceState, a: Action)
    requires a.AddCategory? || a.AddQuick? || a.AddAccount?
    ensures var r := Reduce(s, a);
            match a
            case AddCategory(c) =>
              |r.categories| == |s.categories| + 1 && r.categories[..|s.categories|] == s.categories &&
              r.categories[|s.categories|] == c &&
              ((forall x :: x in s.categories ==> x.id != c.id) ==> FindById(r.categories, CategoryId, c.id) == Some(c))
            case AddQuick(q) =>
              |r.quickTransactions| == |s.quickTransactions| + 1 &&
              r.quickTransactions[..|s.quickTransactions|] == s.quickTransactions &&
              r.quickTransactions[|s.quickTransactions|] == q &&
              ((forall x :: x in s.quickTransactions ==> x.id != q.id) ==> FindById(r.quickTransactions, QuickId, q.id) == Some(q))
            case AddAccount(acc) =>
              |r.accounts| == |s.accounts| + 1 && r.accounts[..|s.accounts|] == s.accounts &&
              r.accounts[|s.accounts|] == acc &&
              ((forall x :: x in s.accounts ==> x.id != acc.id) ==> FindById(r.accounts, AccountId, acc.id) == Some(acc))
            case _ => true
  {
    match a
    case AddCategory(c) =>
      if forall x :: x in s.categories ==> x.id != c.id { FindAppended(s.categories, CategoryId, c); }
    case AddQuick(q) =>
      if forall x :: x in s.quickTransactions ==> x.id != q.id { FindAppended(s.quickTransactions, QuickId, q); }
    case AddAccount(acc) =>
      if forall x :: x in s.accounts ==> x.id != acc.id { FindAppended(s.accounts, AccountId, acc); }
  }

  /** An update keeps the list's length, order and ids: every entry with the
      payload's id becomes the payload, the others stay; a lookup of the id
      then finds the payload if the id was present, and an absent id leaves
      the list as it was. */
  lemma UpdateReplaces(s: FinanceState, a: Action)
    requires a.UpdateCategory? || a.UpdateQuick? || a.UpdateAccount?
    ensures var r := Reduce(s, a);
            match a
            case UpdateCategory(c) =>
              |r.categories| == |s.categories| &&
              (forall i :: 0 <= i < |s.categories| ==>
                 r.categories[i] == if s.categories[i].id == c.id then c else s.categories[i]) &&
              FindById(r.categories, CategoryId, c.id) ==
                (if exists x :: x in s.categories && x.id == c.id then Some(c) else None) &&
              ((forall x :: x in s.categories ==> x.id != c.id) ==> r == s)
            case UpdateQuick(q) =>
              |r.quickTransactions| == |s.quickTransactions| &&
              (forall i :: 0 <= i < |s.quickTransactions| ==>
                 r.quickTransactions[i] == if s.quickTransactions[i].id == q.id then q else s.quickTransactions[i]) &&
              FindById(r.quickTransactions, QuickId, q.id) ==
                (if exists x :: x in s.quickTransactions && x.id == q.id then Some(q) else None) &&
              ((forall x :: x in s.quickTransactions ==> x.id != q.id) ==> r == s)
            case UpdateAccount(acc) =>
              |r.accounts| == |s.accounts| &&
              (forall i :: 0 <= i < |s.accounts| ==>
                 r.accounts[i] == if s.accounts[i].id == acc.id then acc else s.accounts[i]) &&
              FindById(r.accounts, AccountId, acc.id) ==
                (if exists x :: x in s.accounts && x.id == acc.id then Some(acc) else None) &&
              ((forall x :: x in s.accounts ==> x.id != acc.id) ==> r == s)
            case _ => true
  {
    match a
    case UpdateCategory(c) =>
      FindAfterReplace(s.categories, CategoryId, c);
      if forall x :: x in s.categories ==> x.id != c.id { ReplaceAbsent(s.categories, CategoryId, c); }
    case UpdateQuick(q) =>
      FindAfterReplace(s.quickTransactions, QuickId, q);
      if forall x :: x in s.quickTransactions ==> x.id != q.id { ReplaceAbsent(s.quickTransactions, QuickId, q); }
    case UpdateAccount(acc) =>
      FindAfterReplace(s.accounts, AccountId, acc);
      if forall x :: x in s.accounts ==> x.id != acc.id { ReplaceAbsent(s.accounts, AccountId, acc); }
  }

  /** A delete leaves no entry with the id, keeps every other entry (as often
      as before, in the same relative order) and is the identity when the id
      is absent. */
  lemma DeleteRemoves(s: FinanceState, a: Action)
    requires a.DeleteTransaction? || a.DeleteCategory? || a.DeleteQuick? || a.DeleteAccount?
    ensures var r := Reduce(s, a);
            match a
            case DeleteTransaction(id) =>
              FindById(r.transactions, TransactionId, id) == None &&
              (forall x :: x in s.transactions && x.id != id ==> multiset(r.transactions)[x] == multiset(s.transactions)[x]) &&
              IsSubsequence(r.transactions, s.transactions) &&
              ((forall x :: x in s.transactions ==> x.id != id) ==> r == s)
            case DeleteCategory(id) =>
              FindById(r.categories, CategoryId, id) == None &&
              (forall x :: x in s.categories && x.id != id ==> multiset(r.categories)[x] == multiset(s.categories)[x]) &&
              IsSubsequence(r.categories, s.categories) &&
              ((forall x :: x in s.categories ==> x.id != id) ==> r == s)
            case DeleteQuick(id) =>
              FindById(r.quickTransactions, QuickId, id) == None &&
              (forall x :: x in s.quickTransactions && x.id != id ==>
                 multiset(r.quickTransactions)[x] == multiset(s.quickTransactions)[x]) &&
              IsSubsequence(r.quickTransactions, s.quickTransactions) &&
              ((forall x :: x in s.quickTransactions ==> x.id != id) ==> r == s)
            case DeleteAccount(id) =>
              FindById(r.accounts, AccountId, id) == None &&
              (forall x :: x in s.accounts && x.id != id ==> multiset(r.accounts)[x] == multiset(s.accounts)[x]) &&
              IsSubsequence(r.accounts, s.accounts) &&
              ((forall x :: x in s.accounts ==> x.id != id) ==> r == s)
            case _ => true
  {
  }

  // ---------------------------------------------------------------------------
  // Queries
  // ---------------------------------------------------------------------------

  /** `reduce((s, t) => s + t.amount, 0)`. */
  function SumAmounts(ts: seq<Transaction>): int
    decreases |ts|
  {
    if ts == [] then 0 else ts[0].amount + SumAmounts(ts[1..])
  }

  /** Summing a list with at most one element put in front. */
  lemma SumFront(c: bool, t: Transaction, ts: seq<Transaction>)
    ensures SumAmounts((if c then [t] else []) + ts) == (if c then t.amount else 0) + SumAmounts(ts)
  {
    if c {
      assert ([t] + ts)[1..] == ts;
    } else {
      assert [] + ts == ts;
    }
  }

  function IsKind(k: TransactionType): Transaction -> bool {
    (t: Transaction) => t.kind == k
  }

  function InAccount(id: Id): Transaction -> bool {
    (t: Transaction) => t.accountId == Some(id)
  }

  /** `transactions.filter(t => t.type === k)`. */
  function OfKind(ts: seq<Transaction>, k: TransactionType): seq<Transaction> {
    Filter(ts, IsKind(k))
  }

  /** `transactions.filter(t => t.accountId === id)`: a transaction without
      an account matches no id. */
  function OfAccount(ts: seq<Transaction>, id: Id): seq<Transaction> {
    Filter(ts, InAccount(id))
  }

  /** The signed running balance a list of transactions produces, read one
      by one: the reference the totals are compared with. */
  function Net(ts: seq<Transaction>): int
    decreases |ts|
  {
    if ts == [] then 0 else Signed(ts[0]) + Net(ts[1..])
  }

  /** What a transaction does to a balance: `+amount` for income, `-amount`
      for an expense. */
  function Signed(t: Transaction): int {
    if t.kind == Income then t.amount else -t.amount
  }

  /** Over transactions of one kind the plain sum is the signed balance, or
      its negation for expenses. */
  lemma {:induction false} SumOfOneKind(ts: seq<Transaction>, k: TransactionType)
    requires forall t :: t in ts ==> t.kind == k
    ensures SumAmounts(ts) == if k == Income then Net(ts) else -Net(ts)
    decreases |ts|
  {
    if ts != [] {
      assert ts[0] in ts;
      assert forall t :: t in ts[1..] ==> t in ts;
      SumOfOneKind(ts[1..], k);
    }
  }

  /** `totalIncome`: what the income transactions add to the balance. */
  function TotalIncome(s: FinanceState): (total: int)
    ensures total == Net(OfKind(s.transactions, Income))
  {
    SumOfOneKind(OfKind(s.transactions, Income), Income);
    SumAmounts(OfKind(s.transactions, Income))
  }

  /** `totalExpense`: what the expense transactions take from the balance. */
  function TotalExpense(s: FinanceState): (total: int)
    ensures total == -Net(OfKind(s.transactions, Expense))
  {
    SumOfOneKind(OfKind(s.transactions, Expense), Expense);
    SumAmounts(OfKind(s.transactions, Expense))
  }

  /** `totalBalance = totalIncome - totalExpense`: the signed sum of all
      transactions. */
  function TotalBalance(s: FinanceState): (balance: int)
    ensures balance == Net(s.transactions)
  {
    SplitByKind(s.transactions);
    TotalIncome(s) - TotalExpense(s)
  }

  /** Income and expense sums of a list. */
  lemma {:induction false} SplitByKind(ts: seq<Transaction>)
    ensures SumAmounts(OfKind(ts, Income)) - SumAmounts(OfKind(ts, Expense)) == Net(ts)
    decreases |ts|
  {
    if ts != [] {
      SplitByKind(ts[1..]);
      assert ts == [ts[0]] + ts[1..];
      FilterCons(ts[0], ts[1..], IsKind(Income));
      FilterCons(ts[0], ts[1..], IsKind(Expense));
      SumFront(ts[0].kind == Income, ts[0], OfKind(ts[1..], Income));
      SumFront(ts[0].kind == Expense, ts[0], OfKind(ts[1..], Expense));
    }
  }

  /** A new transaction moves only the total of its own kind, by its amount. */
  lemma AddTransactionTotals(s: FinanceState, t: Transaction)
    ensures var r := Reduce(s, AddTransaction(t));
            TotalIncome(r) == TotalIncome(s) + (if t.kind == Income then t.amount else 0) &&
            TotalExpense(r) == TotalExpense(s) + (if t.kind == Expense then t.amount else 0) &&
            TotalBalance(r) == TotalBalance(s) + Signed(t)
  {
    var r := Reduce(s, AddTransaction(t));
    FilterCons(t, s.transactions, IsKind(Income));
    FilterCons(t, s.transactions, IsKind(Expense));
    SumFront(t.kind == Income, t, OfKind(s.transactions, Income));
    SumFront(t.kind == Expense, t, OfKind(s.transactions, Expense));
  }

  /** `getCategoryById`: the first category with the id, if any. */
  function GetCategoryById(s: FinanceState, id: Id): (r: Option<Category>)
    ensures r.None? <==> forall c :: c in s.categories ==> c.id != id
    ensures r.Some? ==> exists i :: 0 <= i < |s.categories| && s.categories[i] == r.value && r.value.id == id &&
                                    forall j :: 0 <= j < i ==> s.categories[j].id != id
  {
    FindById(s.categories, CategoryId, id)
  }

  /** `getAccountById`: the first account with the id, if any. */
  function GetAccountById(s: FinanceState, id: Id): (r: Option<Account>)
    ensures r.None? <==> forall a :: a in s.accounts ==> a.id != id
    ensures r.Some? ==> exists i :: 0 <= i < |s.accounts| && s.accounts[i] == r.value && r.value.id == id &&
                                    forall j :: 0 <= j < i ==> s.accounts[j].id != id
  {
    FindById(s.accounts, AccountId, id)
  }

  /** `acc?.initialBalance ?? 0` for the first account with that id. */
  function InitialBalance(s: FinanceState, id: Id): (b: int)
    ensures (forall a :: a in s.accounts ==> a.id != id) ==> b == 0
    ensures forall i :: (0 <= i < |s.accounts| && s.accounts[i].id == id &&
                         (forall j :: 0 <= j < i ==> s.accounts[j].id != id)) ==>
                        b == s.accounts[i].initialBalance.GetOr(0)
  {
    match GetAccountById(s, id)
    case Some(acc) =>
      var k :| 0 <= k < |s.accounts| && s.accounts[k] == acc && acc.id == id &&
               forall j :: 0 <= j < k ==> s.accounts[j].id != id;
      assert forall i :: (0 <= i < |s.accounts| && s.accounts[i].id == id &&
                          (forall j :: 0 <= j < i ==> s.accounts[j].id != id)) ==> i == k;
      acc.initialBalance.GetOr(0)
    case None => 0
  }

  /** `getAccountBalance(id)`: the account's initial balance (0 when unknown
      or unset) plus the signed sum of the transactions booked to it; with
      none booked, exactly the initial balance. */
  function GetAccountBalance(s: FinanceState, id: Id): (balance: int)
    ensures balance == InitialBalance(s, id) + Net(OfAccount(s.transactions, id))
    ensures (forall t :: t in s.transactions ==> t.accountId != Some(id)) ==> balance == InitialBalance(s, id)
  {
    var txs := OfAccount(s.transactions, id);
    SplitByKind(txs);
    if forall t :: t in s.transactions ==> t.accountId != Some(id) then
      FilterKeepsNone(s.transactions, InAccount(id));
      InitialBalance(s, id) + SumAmounts(OfKind(txs, Income)) - SumAmounts(OfKind(txs, Expense))
    else
      InitialBalance(s, id) + SumAmounts(OfKind(txs, Income)) - SumAmounts(OfKind(txs, Expense))
  }

  function IsAccountExpense(id: Id): Transaction -> bool {
    (t: Transaction) => t.accountId == Some(id) && t.kind == Expense
  }

  /** `getAccountExpense(id)`: the single combined filter picks the same
      transactions as the account filter followed by the kind filter of
      `getAccountBalance`, so the spending is the expense part of the balance. */
  function GetAccountExpense(s: FinanceState, id: Id): (expense: int)
    ensures expense == SumAmounts(OfKind(OfAccount(s.transactions, id), Expense))
    ensures GetAccountBalance(s, id) ==
            InitialBalance(s, id) + SumAmounts(OfKind(OfAccount(s.transactions, id), Income)) - expense
  {
    FilterFilter(s.transactions, InAccount(id), IsKind(Expense), IsAccountExpense(id));
    SumAmounts(Filter(s.transactions, IsAccountExpense(id)))
  }

  /** Income, and transactions of other accounts (or of none), do not change
      an account's expense. */
  lemma AccountExpenseIgnores(s: FinanceState, t: Transaction, id: Id)
    requires t.kind == Income || t.accountId != Some(id)
    ensures GetAccountExpense(Reduce(s, AddTransaction(t)), id) == GetAccountExpense(s, id)
  {
    FilterCons(t, s.transactions, IsAccountExpense(id));
    assert !IsAccountExpense(id)(t);
    assert [] + Filter(s.transactions, IsAccountExpense(id)) == Filter(s.transactions, IsAccountExpense(id));
  }

  // ---------------------------------------------------------------------------
  // Initial and default data, loading
  // ---------------------------------------------------------------------------

  const DefaultCategories: seq<Category> := [
    Category("cat-food", "Comida", "fast-food", "#FF6B35", Expense, None),
    Category("cat-transport", "Transporte", "car", "#4ECDC4", Expense, None),
    Category("cat-bills", "Servicios", "flash", "#F5A623", Expense, None),
    Category("cat-health", "Salud", "heart", "#FF6B9D", Expense, None),
    Category("cat-leisure", "Ocio", "game-controller", "#C77DFF", Expense, None),
    Category("cat-shop", "Compras", "bag", "#3483FA", Expense, None),
    Category("cat-salary", "Salario", "briefcase", "#00A650", Income, None),
    Category("cat-freelance", "Freelance", "laptop", "#00BCD4", Income, None),
    Category("cat-other-exp", "Otros gastos", "flag", "#999999", Expense, None),
    Category("cat-other-inc", "Otros ingresos", "cash", "#FFA000", Income, None)
  ]

  const DefaultAccounts: seq<Account> := [
    Account("acc-cash", "Efectivo", Cash, "cash", "#00A650", Some(0), None, None, None),
    Account("acc-debit", "Cuenta Ahorro", Debit, "card-outline", "#3483FA", Some(0), None, None, None)
  ]

  const DefaultQuickTransactions: seq<QuickTransaction> := [
    QuickTransaction("qt-netflix", "Netflix", "film", Some(219), "cat-leisure", Expense, None,
                     Some(Recurrence(Monthly, None, Some(1))), None),
    QuickTransaction("qt-cafe", "Café", "cafe", Some(55), "cat-food", Expense, None, None, None),
    QuickTransaction("qt-uber", "Uber", "car", None, "cat-transport", Expense, None, None, None),
    QuickTransaction("qt-spotify", "Spotify", "musical-notes", Some(99), "cat-leisure", Expense, None,
                     Some(Recurrence(Monthly, None, Some(15))), None),
    QuickTransaction("qt-salario", "Salario", "briefcase", None, "cat-salary", Income, None,
                     Some(Recurrence(Monthly, None, Some(1))), None)
  ]

  /** The state before the stored copy is read. */
  function InitialState(): (s: FinanceState)
    ensures !s.isLoaded && s.transactions == []
  {
    FinanceState([], DefaultCategories, DefaultQuickTransactions, DefaultAccounts, false)
  }

  /** The stored copy as parsed: the template and account lists may be
      missing from copies written by older versions. */
  datatype StoredState = StoredState(transactions: seq<Transaction>, categories: seq<Category>,
                                     quickTransactions: Option<seq<QuickTransaction>>,
                                     accounts: Option<seq<Account>>)

  /** What reading the storage key gives: nothing, something that does not
      parse, or a parsed copy. */
  datatype Stored = Missing | Unreadable | Parsed(copy: StoredState)

  /** The payload of the `LOAD` dispatched at start-up: the parsed copy with
      defaults for missing template and account lists, or the default data
      set with no transactions when there is no usable copy; marked loaded
      either way. */
  function LoadedState(stored: Stored): (s: FinanceState)
    ensures s.isLoaded
    ensures !stored.Parsed? ==> s == InitialState().(isLoaded := true)
    ensures stored.Parsed? ==>
              s.transactions == stored.copy.transactions && s.categories == stored.copy.categories &&
              s.quickTransactions == stored.copy.quickTransactions.GetOr(DefaultQuickTransactions) &&
              s.accounts == stored.copy.accounts.GetOr(DefaultAccounts)
  {
    match stored
    case Parsed(c) =>
      FinanceState(c.transactions, c.categories, c.quickTransactions.GetOr(DefaultQuickTransactions),
                   c.accounts.GetOr(DefaultAccounts), true)
    case _ =>
      FinanceState([], DefaultCategories, DefaultQuickTransactions, DefaultAccounts, true)
  }
}
