/** The wallet's list logic: the transaction record, the search filter,
    the income/expense totals, and deletion from the displayed list. */
module Ledger {
  import opened Text
  import opened Lists

  /** The `type` of a transaction: the two radio values of the entry form. */
  datatype Kind = Income | Expense

  /** The search form's type selector: 'all', 'income' or 'expense'. */
  datatype TypeFilter = All | Only(kind: Kind)

  /** One entry (`type` is a keyword in Dafny, hence `kind`); `amount` is in cents. */
  datatype Transaction = Transaction(kind: Kind, date: string, description: string, amount: int)

  /** The search predicate: the type matches (or the filter is 'all') and the
      lowercased description includes the lowercased keyword (or the keyword
      is empty). The empty-keyword shortcut agrees with `includes`, which
      accepts the empty string anyway. */
  predicate Matches(t: Transaction, filter: TypeFilter, keyword: string): (b: bool)
    ensures b <==> (filter.All? || t.kind == filter.kind) && Contains(Lower(t.description), Lower(keyword))
  {
    (filter.All? || t.kind == filter.kind)
    && (keyword == "" || Contains(Lower(t.description), Lower(keyword)))
  }

  /** The search callback handed to `filter`. */
  function Criteria(filter: TypeFilter, keyword: string): Transaction -> bool {
    (t: Transaction) => Matches(t, filter, keyword)
  }

  /** `handleSearch`'s `transactions.filter(...)`: every entry it returns is
      one of the list's entries and matches the criteria. */
  function Search(ts: seq<Transaction>, filter: TypeFilter, keyword: string): (r: seq<Transaction>)
    ensures |r| <= |ts|
    ensures forall x :: x in r ==> x in ts && Matches(x, filter, keyword)
  {
    FilterSoundComplete(ts, Criteria(filter, keyword));
    Filter(ts, Criteria(filter, keyword))
  }

  /** Search keeps exactly the matching entries, at strictly increasing
      positions of the full list: sound, complete and order-preserving. */
  lemma {:induction false} SearchSelectsMatching(ts: seq<Transaction>, filter: TypeFilter, keyword: string)
    ensures var r, idx := Search(ts, filter, keyword), FilterIndices(ts, Criteria(filter, keyword));
      && |idx| == |r|
      && (forall m :: 0 <= m < |idx| ==> idx[m] < |ts| && r[m] == ts[idx[m]])
      && (forall m, n :: 0 <= m < n < |idx| ==> idx[m] < idx[n])
      && (forall j :: 0 <= j < |ts| ==> (j in idx <==> Matches(ts[j], filter, keyword)))
  {
    FilterSelectsKept(ts, Criteria(filter, keyword));
  }

  /** An entry is shown exactly when it is in the list and matches. */
  lemma {:induction false} SearchSoundComplete(ts: seq<Transaction>, filter: TypeFilter, keyword: string)
    ensures forall x :: x in Search(ts, filter, keyword) <==> x in ts && Matches(x, filter, keyword)
  {
    FilterSoundComplete(ts, Criteria(filter, keyword));
  }

  /** With type 'all' and an empty keyword the whole list is shown. */
  lemma {:induction false} SearchAllIsIdentity(ts: seq<Transaction>)
    ensures Search(ts, All, "") == ts
  {
    FilterKeepsAll(ts, Criteria(All, ""));
  }

  /** Running the search again with the same criteria changes nothing. */
  lemma {:induction false} SearchIdempotent(ts: seq<Transaction>, filter: TypeFilter, keyword: string)
    ensures Search(Search(ts, filter, keyword), filter, keyword) == Search(ts, filter, keyword)
  {
    FilterIdempotent(ts, Criteria(filter, keyword));
  }

  /** After an append, the search result gains the new entry at its end if it
      matches, and is otherwise unchanged. */
  lemma {:induction false} SearchAfterAppend(ts: seq<Transaction>, t: Transaction, filter: TypeFilter, keyword: string)
    ensures Search(ts + [t], filter, keyword) ==
            Search(ts, filter, keyword) + (if Matches(t, filter, keyword) then [t] else [])
  {
    FilterConcat(ts, [t], Criteria(filter, keyword));
    FilterSingle(t, Criteria(filter, keyword));
  }

  // ---------------------------------------------------------------------
  // Totals
  // ---------------------------------------------------------------------

  /** `.reduce((sum, t) => sum + t.amount, 0)`: the amounts added left to
      right. Every entry is income or expense, so the sum splits into the two
      reference sums. */
  function SumAmounts(ts: seq<Transaction>): (r: int)
    ensures r == KindSum(ts, Income) + KindSum(ts, Expense)
  {
    if ts == [] then 0
    else
      var init, last := ts[..|ts| - 1], ts[|ts| - 1];
      assert init + [last] == ts;
      KindSumSnoc(init, last, Income);
      KindSumSnoc(init, last, Expense);
      SumAmounts(init) + last.amount
  }

  /** The callback `t => t.type === kind`. */
  function OfKind(kind: Kind): Transaction -> bool {
    (t: Transaction) => t.kind == kind
  }

  /** `totalIncome`: the amounts of the income entries of the full list. */
  function TotalIncome(ts: seq<Transaction>): (r: int)
    ensures r == KindSum(ts, Income)
  {
    FilterSumIsKindSum(ts, Income);
    SumAmounts(Filter(ts, OfKind(Income)))
  }

  /** `totalExpense`: the amounts of the expense entries of the full list. */
  function TotalExpense(ts: seq<Transaction>): (r: int)
    ensures r == KindSum(ts, Expense)
  {
    FilterSumIsKindSum(ts, Expense);
    SumAmounts(Filter(ts, OfKind(Expense)))
  }

  /** The contribution of one entry to the total of `kind`. */
  function Share(t: Transaction, kind: Kind): int {
    if t.kind == kind then t.amount else 0
  }

  /** Reference definition of a per-kind total, summed from the front and
      without building a filtered list. */
  function KindSum(ts: seq<Transaction>, kind: Kind): int {
    if ts == [] then 0 else Share(ts[0], kind) + KindSum(ts[1..], kind)
  }

  lemma {:induction false} KindSumConcat(a: seq<Transaction>, b: seq<Transaction>, kind: Kind)
    ensures KindSum(a + b, kind) == KindSum(a, kind) + KindSum(b, kind)
  {
    if a == [] {
      assert a + b == b;
    } else {
      assert (a + b)[1..] == a[1..] + b;
      KindSumConcat(a[1..], b, kind);
    }
  }

  lemma {:induction false} SumAmountsSnoc(ts: seq<Transaction>, t: Transaction)
    ensures SumAmounts(ts + [t]) == SumAmounts(ts) + t.amount
  {
    assert (ts + [t])[..|ts|] == ts;
  }

  lemma {:induction false} KindSumSnoc(ts: seq<Transaction>, t: Transaction, kind: Kind)
    ensures KindSum(ts + [t], kind) == KindSum(ts, kind) + Share(t, kind)
  {
    KindSumConcat(ts, [t], kind);
    assert [t][1..] == [];
  }

  /** Filter-then-reduce gives the same total as the reference sum. */
  lemma {:induction false} FilterSumIsKindSum(ts: seq<Transaction>, kind: Kind)
    ensures SumAmounts(Filter(ts, OfKind(kind))) == KindSum(ts, kind)
  {
    if ts != [] {
      var init, last := ts[..|ts| - 1], ts[|ts| - 1];
      assert ts == init + [last];
      FilterSumIsKindSum(init, kind);
      FilterSnoc(init, last, OfKind(kind));
      KindSumSnoc(init, last, kind);
      if last.kind == kind {
        SumAmountsSnoc(Filter(init, OfKind(kind)), last);
      }
    }
  }

  /** The two totals together add up every amount in the list. */
  lemma {:induction false} TotalsPartition(ts: seq<Transaction>)
    ensures TotalIncome(ts) + TotalExpense(ts) == SumAmounts(ts)
  {
  }

  /** With non-negative amounts (the entry form's minimum is 0) both totals
      are non-negative. */
  lemma {:induction false} KindSumNonNegative(ts: seq<Transaction>, kind: Kind)
    requires forall i :: 0 <= i < |ts| ==> ts[i].amount >= 0
    ensures KindSum(ts, kind) >= 0
  {
    if ts != [] {
      KindSumNonNegative(ts[1..], kind);
    }
  }

  /** Appending an entry adds its amount to the total of its own kind only. */
  lemma {:induction false} TotalsAfterAppend(ts: seq<Transaction>, t: Transaction)
    ensures TotalIncome(ts + [t]) == TotalIncome(ts) + Share(t, Income)
    ensures TotalExpense(ts + [t]) == TotalExpense(ts) + Share(t, Expense)
  {
    KindSumConcat(ts, [t], Income);
    KindSumConcat(ts, [t], Expense);
  }

  /** Removing at a valid position takes that entry's share out of a
      reference sum. */
  lemma {:induction false} KindSumAfterRemove(ts: seq<Transaction>, index: int, kind: Kind)
    requires 0 <= index < |ts|
    ensures KindSum(RemoveAt(ts, index), kind) == KindSum(ts, kind) - Share(ts[index], kind)
  {
    RemoveAtSpec(ts, index);
    var pre, post := ts[..index], ts[index + 1..];
    assert ts == pre + ([ts[index]] + post);
    KindSumConcat(pre, [ts[index]] + post, kind);
    KindSumConcat([ts[index]], post, kind);
    KindSumConcat(pre, post, kind);
  }

  /** Removing the entry at a valid position takes its amount out of the
      total of its kind; an out-of-range index changes no total. */
  lemma {:induction false} TotalsAfterRemove(ts: seq<Transaction>, index: int)
    ensures 0 <= index < |ts| ==>
      && TotalIncome(RemoveAt(ts, index)) == TotalIncome(ts) - Share(ts[index], Income)
      && TotalExpense(RemoveAt(ts, index)) == TotalExpense(ts) - Share(ts[index], Expense)
    ensures !(0 <= index < |ts|) ==>
      TotalIncome(RemoveAt(ts, index)) == TotalIncome(ts) && TotalExpense(RemoveAt(ts, index)) == TotalExpense(ts)
  {
    RemoveAtSpec(ts, index);
    if 0 <= index < |ts| {
      KindSumAfterRemove(ts, index, Income);
      KindSumAfterRemove(ts, index, Expense);
    }
  }

  /** The three figures of the overview card. */
  datatype Totals = Totals(income: int, expense: int, balance: int)

  /** The overview card: computed from the full list only, with no filter
      criteria involved; the balance is income minus expense, and income plus
      expense is the sum of every amount. */
  function Overview(ts: seq<Transaction>): (r: Totals)
    ensures r.income == KindSum(ts, Income)
    ensures r.expense == KindSum(ts, Expense)
    ensures r.balance == r.income - r.expense
    ensures r.income + r.expense == SumAmounts(ts)
  {
    TotalsPartition(ts);
    var income, expense := TotalIncome(ts), TotalExpense(ts);
    Totals(income, expense, income - expense)
  }

  // ---------------------------------------------------------------------
  // Deleting from the displayed list
  // ---------------------------------------------------------------------

  /** The delete button of displayed row `row` passes `row` itself, a
      position in the filtered list, to the removal on the full list. With an
      expense filter over [income, expense], row 0 shows the expense entry,
      yet the income entry is the one removed. */
  lemma {:induction false} DisplayedRowDeleteRemovesOtherEntry(salary: Transaction, rent: Transaction)
    requires salary.kind == Income && rent.kind == Expense
    ensures Search([salary, rent], Only(Expense), "") == [rent]
    ensures RemoveAt([salary, rent], 0) == [rent]
  {
    FilterDropsFirst(salary, rent, Criteria(Only(Expense), ""));
    RemoveAtSpec([salary, rent], 0);
  }

  /** The intended deletion of displayed row `row`: map the row back to its
      position in the full list and remove that position. */
  function RemoveDisplayedRow(ts: seq<Transaction>, filter: TypeFilter, keyword: string, row: nat): (r: seq<Transaction>)
    requires row < |Search(ts, filter, keyword)|
    ensures |r| == |ts| - 1
    ensures multiset(r) + multiset{Search(ts, filter, keyword)[row]} == multiset(ts)
  {
    var j := FilterIndices(ts, Criteria(filter, keyword))[row];
    FilterAfterRemovingKept(ts, Criteria(filter, keyword), row);
    RemoveAtMultiset(ts, j);
    RemoveAt(ts, j)
  }

  /** The corrected deletion removes from the full list exactly the entry
      shown in that row, and the displayed list loses exactly that row. */
  lemma {:induction false} RemoveDisplayedRowRemovesShownEntry(ts: seq<Transaction>, filter: TypeFilter, keyword: string, row: nat)
    requires row < |Search(ts, filter, keyword)|
    ensures var j := FilterIndices(ts, Criteria(filter, keyword))[row];
      && ts[j] == Search(ts, filter, keyword)[row]
      && RemoveDisplayedRow(ts, filter, keyword, row) == ts[..j] + ts[j + 1..]
    ensures var shown := Search(ts, filter, keyword);
      Search(RemoveDisplayedRow(ts, filter, keyword, row), filter, keyword) == shown[..row] + shown[row + 1..]
  {
    FilterAfterRemovingKept(ts, Criteria(filter, keyword), row);
  }

  // ---------------------------------------------------------------------
  // Worked scenarios
  // ---------------------------------------------------------------------

  /** One salary of 1000.00 added to an empty list. */
  lemma ScenarioSingleIncome()
    ensures Overview([] + [Transaction(Income, "2024-01-01", "Salary", 100000)]) == Totals(100000, 0, 100000)
  {
  }

  /** An expense filter shows only the expense entry; the totals stay those
      of the full list. */
  lemma ScenarioExpenseFilter()
    ensures var salary := Transaction(Income, "2024-01-01", "Salary", 100000);
            var rent := Transaction(Expense, "2024-01-02", "Rent", 30000);
            Search([salary, rent], Only(Expense), "") == [rent]
            && Overview([salary, rent]) == Totals(100000, 30000, 70000)
  {
    var salary := Transaction(Income, "2024-01-01", "Salary", 100000);
    var rent := Transaction(Expense, "2024-01-02", "Rent", 30000);
    DisplayedRowDeleteRemovesOtherEntry(salary, rent);
  }

  /** Removing position 1 of three entries keeps the first and the third, in order. */
  lemma {:induction false} ScenarioRemoveMiddle(a: Transaction, b: Transaction, c: Transaction)
    ensures RemoveAt([a, b, c], 1) == [a, c]
  {
    RemoveAtSpec([a, b, c], 1);
  }

  /** A case-insensitive keyword "rent" keeps "Rent - Jan" and "RENT deposit"
      but not "Groceries", whatever their types, dates and amounts. */
  lemma ScenarioKeyword(a: Transaction, b: Transaction, c: Transaction)
    requires a.description == "Rent - Jan" && b.description == "Groceries" && c.description == "RENT deposit"
    ensures Search([a, b, c], All, "rent") == [a, c]
  {
    var keep := Criteria(All, "rent");
    assert keep(a) && !keep(b) && keep(c) by {
      KeywordMatches(a, c);
      KeywordMisses(b);
    }
    FilterDropsMiddle(a, b, c, keep);
  }

  lemma KeywordMatches(a: Transaction, c: Transaction)
    requires a.description == "Rent - Jan" && c.description == "RENT deposit"
    ensures Matches(a, All, "rent") && Matches(c, All, "rent")
  {
    assert Matches(a, All, "rent") by {
      assert Lower("rent") == "rent" by { LowerRent(); }
      assert Lower(a.description) == "rent - jan" by { LowerRentJan(); }
    }
    assert Matches(c, All, "rent") by {
      assert Lower("rent") == "rent" by { LowerRent(); }
      assert Lower(c.description) == "rent deposit" by { LowerRentDeposit(); }
    }
  }

  lemma KeywordMisses(b: Transaction)
    requires b.description == "Groceries"
    ensures !Matches(b, All, "rent")
  {
    assert Lower("rent") == "rent" by { LowerRent(); }
    assert Lower(b.description) == "groceries" by { LowerOf("Groceries", "groceries"); }
    assert !Contains("groceries", "rent") by { GroceriesLacksRent(); }
  }

  lemma LowerRent()
    ensures Lower("rent") == "rent"
  {
    LowerOf("rent", "rent");
  }

  lemma LowerRentJan()
    ensures Lower("Rent - Jan") == "rent - jan"
  {
    LowerOf("Rent - Jan", "rent - jan");
  }

  lemma GroceriesLacksRent()
    ensures !Contains("groceries", "rent")
  {
    assert !Contains("ies", "rent");
    assert "ries"[1] == 'i' && "ries"[1..] == "ies";
    assert !Contains("ries", "rent");
    assert "eries"[0] == 'e' && "eries"[1..] == "ries";
    assert !Contains("eries", "rent");
    assert "ceries"[0] == 'c' && "ceries"[1..] == "eries";
    assert !Contains("ceries", "rent");
    assert "oceries"[0] == 'o' && "oceries"[1..] == "ceries";
    assert !Contains("oceries", "rent");
    assert "roceries"[1] == 'o' && "roceries"[1..] == "oceries";
    assert !Contains("roceries", "rent");
    assert "groceries"[0] == 'g' && "groceries"[1..] == "roceries";
  }

  lemma LowerRentDeposit()
    ensures Lower("RENT deposit") == "rent deposit"
  {
    LowerOf("RENT deposit", "rent deposit");
  }
}
