/** The state of the `App` component: the transaction list, the search
    criteria and their last result, and the entry form, with the operations
    that update them. Each list change is followed by the persist-and-search
    effect, which the methods below run at their end. */
module Wallet {
  import opened Lists
  import opened Ledger
  import opened Storage

  /** The amount input: empty, or a non-negative number of cents (the input
      has `min: '0'` and `step: '0.01'`). */
  datatype AmountInput = Blank | Cents(value: nat)

  /** The four fields of the entry form. */
  datatype FormState = FormState(kind: Kind, date: string, description: string, amount: AmountInput)

  /** The form as it is after a submit or a cancel: type income, today's
      date, and nothing the browser would let through until the description
      and the amount are filled in again. */
  function ResetForm(today: string): (f: FormState)
    ensures f.kind == Income && f.date == today
    ensures !Submittable(f)
  {
    FormState(Income, today, "", Blank)
  }

  /** The form's `required` inputs (date, description, amount) are all filled,
      so the browser lets the submit handler run. */
  predicate Submittable(f: FormState): (b: bool)
    ensures b ==> f.amount.Cents? && EntryOf(f).amount >= 0 && EntryOf(f).description != "" && EntryOf(f).date != ""
  {
    f.date != "" && f.description != "" && f.amount.Cents?
  }

  /** The entry a submitted form adds: the form's type, date and
      description, and its amount, which is never negative. */
  function EntryOf(f: FormState): (t: Transaction)
    requires f.amount.Cents?
    ensures t.kind == f.kind && t.date == f.date && t.description == f.description
    ensures t.amount == f.amount.value && t.amount >= 0
  {
    Transaction(f.kind, f.date, f.description, f.amount.value)
  }

  class App {
    const store: LocalStorage

    var transactions: seq<Transaction>
    var filterType: TypeFilter
    var searchKeyword: string
    var filteredTransactions: seq<Transaction>

    var kind: Kind
    var date: string
    var description: string
    var amount: AmountInput

    /** The criteria of the last search; `filteredTransactions` is their
        result, and it goes stale when the criteria change until the next
        search runs. */
    ghost var searchedType: TypeFilter
    ghost var searchedKeyword: string

    ghost predicate Valid()
      reads this
    {
      filteredTransactions == Search(transactions, searchedType, searchedKeyword)
    }

    /** The storage slot holds exactly the list in memory. */
    ghost predicate Persisted()
      reads this, store
    {
      store.GetItem(TransactionsKey) == Some(JsonList(transactions))
    }

    ghost function Form(): FormState
      reads this
    {
      FormState(kind, date, description, amount)
    }

    /** Mounting: the initial state, then the load effect, then the persist
        effect (which also writes an empty list when nothing was loaded). */
    constructor (store: LocalStorage, today: string)
      modifies store
      ensures this.store == store && Valid() && Persisted()
      ensures transactions == Loaded(old(store.GetItem(TransactionsKey)), [])
      ensures store.items == old(store.items)[TransactionsKey := JsonList(transactions)]
      ensures filterType == All && searchKeyword == ""
      ensures filteredTransactions == transactions
      ensures Form() == ResetForm(today)
    {
      this.store := store;
      transactions := [];
      filterType := All;
      searchKeyword := "";
      filteredTransactions := [];
      kind, date, description, amount := Income, today, "", Blank;
      searchedType, searchedKeyword := All, "";
      new;
      LoadTransactions();
      PersistAndSearch();
      SearchAllIsIdentity(transactions);
    }

    /** `handleSearch`: recompute the shown list from the current criteria. */
    method HandleSearch()
      modifies this
      ensures Valid()
      ensures filteredTransactions == Search(transactions, filterType, searchKeyword)
      ensures searchedType == filterType && searchedKeyword == searchKeyword
      ensures transactions == old(transactions) && Form() == old(Form())
      ensures filterType == old(filterType) && searchKeyword == old(searchKeyword)
    {
      filteredTransactions := Search(transactions, filterType, searchKeyword);
      searchedType, searchedKeyword := filterType, searchKeyword;
    }

    /** The effect run after every change of `transactions`: write the whole
        list under its key, then search again. */
    method PersistAndSearch()
      modifies this, store
      ensures Valid() && Persisted()
      ensures store.items == old(store.items)[TransactionsKey := JsonList(transactions)]
      ensures filteredTransactions == Search(transactions, filterType, searchKeyword)
      ensures transactions == old(transactions) && Form() == old(Form())
      ensures filterType == old(filterType) && searchKeyword == old(searchKeyword)
    {
      store.SetItem(TransactionsKey, JsonList(transactions));
      HandleSearch();
    }

    /** `loadTransactions`, run on mount and on every `storage-imported`
        signal: a stored list replaces the one in memory (and the effect
        persists it and searches again); a missing or empty slot changes
        nothing. */
    method LoadTransactions()
      requires Valid()
      modifies this, store
      ensures Valid()
      ensures transactions == Loaded(old(store.GetItem(TransactionsKey)), old(transactions))
      ensures store.items == old(store.items)
      ensures HoldsList(old(store.GetItem(TransactionsKey))) ==>
        Persisted() && filteredTransactions == Search(transactions, filterType, searchKeyword)
      ensures !(HoldsList(old(store.GetItem(TransactionsKey)))) ==> unchanged(this)
      ensures Form() == old(Form())
      ensures filterType == old(filterType) && searchKeyword == old(searchKeyword)
    {
      var stored := store.GetItem(TransactionsKey);
      if HoldsList(stored) {
        transactions := stored.value.items;
        PersistAndSearch();
      }
    }

    /** `addTransaction`: append, then persist and search. */
    method AddTransaction(t: Transaction)
      modifies this, store
      ensures Valid() && Persisted()
      ensures transactions == old(transactions) + [t]
      ensures store.items == old(store.items)[TransactionsKey := JsonList(transactions)]
      ensures filteredTransactions == Search(transactions, filterType, searchKeyword)
      ensures KindSum(transactions, Income) == KindSum(old(transactions), Income) + Share(t, Income)
      ensures KindSum(transactions, Expense) == KindSum(old(transactions), Expense) + Share(t, Expense)
      ensures Form() == old(Form())
      ensures filterType == old(filterType) && searchKeyword == old(searchKeyword)
    {
      transactions := transactions + [t];
      PersistAndSearch();
      KindSumConcat(old(transactions), [t], Income);
      KindSumConcat(old(transactions), [t], Expense);
    }

    /** `deleteTransaction`: keep every entry whose position in the FULL list
        differs from `index`, then persist and search. */
    method DeleteTransaction(index: int)
      modifies this, store
      ensures Valid() && Persisted()
      ensures transactions == RemoveAt(old(transactions), index)
      ensures 0 <= index < |old(transactions)| ==>
        transactions == old(transactions)[..index] + old(transactions)[index + 1..]
      ensures !(0 <= index < |old(transactions)|) ==> transactions == old(transactions)
      ensures 0 <= index < |old(transactions)| ==>
        && KindSum(transactions, Income) == KindSum(old(transactions), Income) - Share(old(transactions)[index], Income)
        && KindSum(transactions, Expense) == KindSum(old(transactions), Expense) - Share(old(transactions)[index], Expense)
      ensures store.items == old(store.items)[TransactionsKey := JsonList(transactions)]
      ensures filteredTransactions == Search(transactions, filterType, searchKeyword)
      ensures Form() == old(Form())
      ensures filterType == old(filterType) && searchKeyword == old(searchKeyword)
    {
      RemoveAtSpec(transactions, index);
      if 0 <= index < |transactions| {
        KindSumAfterRemove(transactions, index, Income);
        KindSumAfterRemove(transactions, index, Expense);
      }
      transactions := RemoveAt(transactions, index);
      PersistAndSearch();
    }

    /** The type selector's `onChange`: the shown list is not recomputed. */
    method SetFilterType(f: TypeFilter)
      requires Valid()
      modifies this
      ensures Valid()
      ensures filterType == f && searchKeyword == old(searchKeyword)
      ensures transactions == old(transactions) && filteredTransactions == old(filteredTransactions)
      ensures OverviewTotals() == old(OverviewTotals())
      ensures Form() == old(Form())
    {
      filterType := f;
    }

    /** The search box's `onChange`: the shown list is not recomputed. */
    method SetSearchKeyword(k: string)
      requires Valid()
      modifies this
      ensures Valid()
      ensures searchKeyword == k && filterType == old(filterType)
      ensures transactions == old(transactions) && filteredTransactions == old(filteredTransactions)
      ensures OverviewTotals() == old(OverviewTotals())
      ensures Form() == old(Form())
    {
      searchKeyword := k;
    }

    /** The entry form's `onChange` handlers, one field each. */
    method SetFormField(f: FormState)
      requires Valid()
      modifies this
      ensures Valid()
      ensures Form() == f
      ensures transactions == old(transactions) && filteredTransactions == old(filteredTransactions)
      ensures filterType == old(filterType) && searchKeyword == old(searchKeyword)
    {
      kind, date, description, amount := f.kind, f.date, f.description, f.amount;
    }

    /** `handleSubmit`: when the browser lets the form through, append the
        entry built from the form fields and reset the form; otherwise nothing
        happens. */
    method HandleSubmit(today: string) returns (submitted: bool)
      requires Valid()
      modifies this, store
      ensures Valid()
      ensures submitted == Submittable(old(Form()))
      ensures submitted ==>
        && transactions == old(transactions) + [EntryOf(old(Form()))]
        && Persisted()
        && store.items == old(store.items)[TransactionsKey := JsonList(transactions)]
        && filteredTransactions == Search(transactions, filterType, searchKeyword)
        && Form() == ResetForm(today)
      ensures !submitted ==> unchanged(this) && unchanged(store)
      ensures filterType == old(filterType) && searchKeyword == old(searchKeyword)
    {
      submitted := date != "" && description != "" && amount.Cents?;
      if submitted {
        var entry := Transaction(kind, date, description, amount.value);
        assert entry == EntryOf(old(Form()));
        AddTransaction(entry);
        kind, date, description, amount := Income, today, "", Blank;
      }
    }

    /** `handleCancel`: reset the form; the list is untouched. */
    method HandleCancel(today: string)
      requires Valid()
      modifies this
      ensures Valid()
      ensures Form() == ResetForm(today)
      ensures transactions == old(transactions) && filteredTransactions == old(filteredTransactions)
      ensures filterType == old(filterType) && searchKeyword == old(searchKeyword)
    {
      kind, date, description, amount := Income, today, "", Blank;
    }

    /** The overview card, from the full list only. */
    function OverviewTotals(): (r: Totals)
      reads this
      ensures r.income == KindSum(transactions, Income)
      ensures r.expense == KindSum(transactions, Expense)
      ensures r.balance == r.income - r.expense
    {
      Overview(transactions)
    }
  }

  /** The backup component overwrites the slot and signals `storage-imported`:
      the list is replaced entirely by the imported one, not merged; a later
      signal over an emptied slot keeps it. */
  method ImportScenario(today: string, mine: Transaction, imported: seq<Transaction>)
    returns (afterImport: seq<Transaction>, afterEmptied: seq<Transaction>)
    ensures afterImport == imported && afterEmptied == imported
  {
    var store := new LocalStorage(map[]);
    var app := new App(store, today);
    assert app.transactions == [];
    app.AddTransaction(mine);
    assert app.transactions == [mine];
    store.SetItem(TransactionsKey, JsonList(imported));
    app.LoadTransactions();
    afterImport := app.transactions;
    store.SetItem(TransactionsKey, EmptyText);
    app.LoadTransactions();
    afterEmptied := app.transactions;
  }
}
