/** The analytics page's monthly history: budgets and expenses bucketed by
    their `YYYY-MM` month key, sorted by key, each month's income falling
    back to the profile's income, and the savings of all months summed. */
module Analytics {
  import opened Options
  import opened Strings
  import opened Calendar
  import opened Records

  /** One month of the history; `dateSort` is its month key. */
  datatype MonthlyData = MonthlyData(dateSort: string, income: int, expenses: int, savings: int)

  /** A fresh entry: `{ dateSort: key, income: 0, expenses: 0, savings: 0 }`. */
  function Zero(key: string): MonthlyData {
    MonthlyData(key, 0, 0, 0)
  }

  // ---------------------------------------------------------------------
  // Reference definitions, read off the records directly.

  /** A record as the history sees it: the month key its date is filed
      under, and its amount (a budget's income, an expense's amount). */
  datatype Filing = Filing(key: string, amount: int)

  function BudgetFilings(budgets: seq<MonthlyBudget>): (r: seq<Filing>)
    ensures |r| == |budgets|
    decreases |budgets|
  {
    if budgets == [] then []
    else
      var b := budgets[|budgets| - 1];
      BudgetFilings(budgets[..|budgets| - 1]) + [Filing(MonthKeyOfDateString(b.date), b.income)]
  }

  function ExpenseFilings(expenses: seq<Expense>): (r: seq<Filing>)
    ensures |r| == |expenses|
    decreases |expenses|
  {
    if expenses == [] then []
    else
      var e := expenses[|expenses| - 1];
      ExpenseFilings(expenses[..|expenses| - 1]) + [Filing(MonthKeyOfDateString(e.date), e.amount)]
  }

  lemma BudgetFilingsPrefix(budgets: seq<MonthlyBudget>, i: nat)
    requires i < |budgets|
    ensures BudgetFilings(budgets[..i + 1]) ==
      BudgetFilings(budgets[..i]) + [Filing(MonthKeyOfDateString(budgets[i].date), budgets[i].income)]
  {
    assert budgets[..i + 1][..i] == budgets[..i];
  }

  lemma ExpenseFilingsPrefix(expenses: seq<Expense>, i: nat)
    requires i < |expenses|
    ensures ExpenseFilings(expenses[..i + 1]) ==
      ExpenseFilings(expenses[..i]) + [Filing(MonthKeyOfDateString(expenses[i].date), expenses[i].amount)]
  {
    assert expenses[..i + 1][..i] == expenses[..i];
  }

  /** The filing of a budget is its own month key and income. */
  lemma {:induction false} BudgetFilingAt(budgets: seq<MonthlyBudget>, i: nat)
    requires i < |budgets|
    ensures BudgetFilings(budgets)[i] == Filing(MonthKeyOfDateString(budgets[i].date), budgets[i].income)
    decreases |budgets|
  {
    var p := budgets[..|budgets| - 1];
    if i < |p| {
      assert p[i] == budgets[i];
      BudgetFilingAt(p, i);
    }
  }

  /** The filing of an expense is its own month key and amount. */
  lemma {:induction false} ExpenseFilingAt(expenses: seq<Expense>, i: nat)
    requires i < |expenses|
    ensures ExpenseFilings(expenses)[i] == Filing(MonthKeyOfDateString(expenses[i].date), expenses[i].amount)
    decreases |expenses|
  {
    var p := expenses[..|expenses| - 1];
    if i < |p| {
      assert p[i] == expenses[i];
      ExpenseFilingAt(p, i);
    }
  }

  predicate Filed(fs: seq<Filing>, key: string) {
    exists i | 0 <= i < |fs| :: fs[i].key == key
  }

  /** The amount of the last record filed under the key, 0 if there is none. */
  function LastAmount(fs: seq<Filing>, key: string): int
    decreases |fs|
  {
    if fs == [] then 0
    else if fs[|fs| - 1].key == key then fs[|fs| - 1].amount
    else LastAmount(fs[..|fs| - 1], key)
  }

  /** The sum of the amounts of the records filed under the key. */
  function SumAmount(fs: seq<Filing>, key: string): int
    decreases |fs|
  {
    if fs == [] then 0
    else SumAmount(fs[..|fs| - 1], key) + (if fs[|fs| - 1].key == key then fs[|fs| - 1].amount else 0)
  }

  /** The map entry a key should have after both passes: present when some
      budget or expense is filed under it, with the last budget's income
      and the sum of the expenses. */
  function Expected(budgets: seq<Filing>, expenses: seq<Filing>, key: string): Option<MonthlyData> {
    if Filed(budgets, key) || Filed(expenses, key) then
      Some(MonthlyData(key, LastAmount(budgets, key), SumAmount(expenses, key), 0))
    else None
  }

  /** `profile?.income || 0`. */
  function DefaultIncome(profile: Option<Profile>): int {
    if profile.Some? then profile.value.income.GetOr(0) else 0
  }

  /** The history entry of a month: the recorded income when positive,
      else the default one, and savings of income minus expenses. */
  function HistoryEntry(budgets: seq<Filing>, expenses: seq<Filing>, defaultIncome: int,
                        key: string): MonthlyData
  {
    var income := FinalIncome(LastAmount(budgets, key), defaultIncome);
    MonthlyData(key, income, SumAmount(expenses, key), income - SumAmount(expenses, key))
  }

  function SavingsTotal(history: seq<MonthlyData>): int
    decreases |history|
  {
    if history == [] then 0 else SavingsTotal(history[..|history| - 1]) + history[|history| - 1].savings
  }

  // ---------------------------------------------------------------------
  // The month map: a `Map` in insertion order, as a sequence of entries.

  predicate HasKey(m: seq<MonthlyData>, key: string) {
    exists i | 0 <= i < |m| :: m[i].dateSort == key
  }

  predicate UniqueKeys(m: seq<MonthlyData>) {
    forall i, j :: 0 <= i < j < |m| ==> m[i].dateSort != m[j].dateSort
  }

  /** Index of the first entry with the key, or -1. */
  function FindKey(m: seq<MonthlyData>, key: string): (j: int)
    ensures -1 <= j < |m|
    ensures 0 <= j ==> m[j].dateSort == key
    ensures j == -1 <==> !HasKey(m, key)
    ensures forall i :: 0 <= i < j ==> m[i].dateSort != key
    decreases |m|
  {
    if m == [] then -1
    else if m[0].dateSort == key then 0
    else
      var r := FindKey(m[1..], key);
      assert forall k :: 0 < k < |m| ==> m[1..][k - 1] == m[k];
      if r == -1 then -1 else r + 1
  }

  /** `monthsMap.get(key)`. */
  function Lookup(m: seq<MonthlyData>, key: string): (r: Option<MonthlyData>)
    ensures r.Some? <==> HasKey(m, key)
    ensures r.Some? ==> r.value.dateSort == key && r.value in m
  {
    var j := FindKey(m, key);
    if j >= 0 then Some(m[j]) else None
  }

  /** With unique keys, an entry is what its key looks up. */
  lemma LookupMember(m: seq<MonthlyData>, j: nat)
    requires UniqueKeys(m) && j < |m|
    ensures Lookup(m, m[j].dateSort) == Some(m[j])
  {
    var r := FindKey(m, m[j].dateSort);
    assert r >= 0;
    assert r == j;
  }

  /** The closure `initMonth`: derives the month key of a date string and
      adds a zero entry for it unless one is there. A new entry's month
      labels are formatted from the date first, and formatting an Invalid
      Date throws: then `ok` is false and the map is unchanged. */
  method InitMonth(monthsMap: seq<MonthlyData>, dateStr: string)
    returns (result: seq<MonthlyData>, key: string, ok: bool)
    ensures key == MonthKeyOfDateString(dateStr)
    ensures !ok <==> ParseIsoDate(dateStr).None? && !HasKey(monthsMap, key)
    ensures !ok ==> result == monthsMap
    ensures ok ==> Lookup(result, key) == Some(Lookup(monthsMap, key).GetOr(Zero(key)))
    ensures ok ==> forall k :: k != key ==> Lookup(result, k) == Lookup(monthsMap, k)
    ensures UniqueKeys(monthsMap) ==> UniqueKeys(result)
    ensures |monthsMap| <= |result| <= |monthsMap| + 1 && result[..|monthsMap|] == monthsMap
  {
    var parsed := ParseIsoDate(dateStr);
    key := MonthKeyOfDateString(dateStr);
    if HasKey(monthsMap, key) {
      result, ok := monthsMap, true;
    } else if parsed.None? {
      result, ok := monthsMap, false;
    } else {
      result, ok := monthsMap + [Zero(key)], true;
      LookupAppend(monthsMap, Zero(key));
    }
  }

  lemma LookupAppend(m: seq<MonthlyData>, x: MonthlyData)
    requires !HasKey(m, x.dateSort)
    ensures Lookup(m + [x], x.dateSort) == Some(x)
    ensures forall k :: k != x.dateSort ==> Lookup(m + [x], k) == Lookup(m, k)
    ensures UniqueKeys(m) ==> UniqueKeys(m + [x])
  {
    var r := m + [x];
    assert forall t :: 0 <= t < |m| ==> r[t] == m[t];
    assert r[|m|] == x;
    forall k | k != x.dateSort ensures Lookup(r, k) == Lookup(m, k) {
      if HasKey(m, k) {
        var i := FindKey(m, k);
        assert r[i].dateSort == k;
      } else {
        assert forall t :: 0 <= t < |r| ==> r[t].dateSort != k;
      }
    }
    assert forall t :: 0 <= t < |m| ==> r[t].dateSort != x.dateSort;
  }

  /** Replaces the entry with the same key (`entry.field = …` on the
      object the map holds). */
  function Put(m: seq<MonthlyData>, x: MonthlyData): (r: seq<MonthlyData>)
    requires HasKey(m, x.dateSort) && UniqueKeys(m)
    ensures UniqueKeys(r) && |r| == |m|
    ensures Lookup(r, x.dateSort) == Some(x)
    ensures forall k :: k != x.dateSort ==> Lookup(r, k) == Lookup(m, k)
  {
    var j := FindKey(m, x.dateSort);
    var r := m[j := x];
    assert forall i :: 0 <= i < |m| ==> r[i].dateSort == m[i].dateSort;
    LookupMember(r, j);
    forall k | k != x.dateSort ensures Lookup(r, k) == Lookup(m, k) {
      var i := FindKey(m, k);
      if i >= 0 {
        assert r[i] == m[i];
        LookupMember(m, i);
        LookupMember(r, i);
      } else {
        forall t | 0 <= t < |r| ensures r[t].dateSort != k {
          assert m[t].dateSort == r[t].dateSort;
        }
      }
    }
    r
  }

  // ---------------------------------------------------------------------
  // Sorting by key (`localeCompare` on `YYYY-MM` keys is code-point order).

  /** Keys never decrease. */
  predicate Ascending(h: seq<MonthlyData>) {
    forall i, j :: 0 <= i < j < |h| ==> !LexLess(h[j].dateSort, h[i].dateSort)
  }

  /** Keys strictly increase (so none repeats). */
  predicate StrictlyAscending(h: seq<MonthlyData>) {
    forall i, j :: 0 <= i < j < |h| ==> LexLess(h[i].dateSort, h[j].dateSort)
  }

  /** Inserts x after every entry whose key is not greater. */
  function Insert(x: MonthlyData, s: seq<MonthlyData>): (r: seq<MonthlyData>)
    ensures |r| == |s| + 1
    ensures multiset(r) == multiset(s) + multiset{x}
    decreases |s|
  {
    if s == [] || LexLess(x.dateSort, s[0].dateSort) then [x] + s
    else
      assert s == [s[0]] + s[1..];
      [s[0]] + Insert(x, s[1..])
  }

  /** The stable sort of the entries by key. */
  function SortByKey(m: seq<MonthlyData>): (r: seq<MonthlyData>)
    ensures |r| == |m|
    ensures multiset(r) == multiset(m)
    decreases |m|
  {
    if m == [] then []
    else
      assert m == m[..|m| - 1] + [m[|m| - 1]];
      Insert(m[|m| - 1], SortByKey(m[..|m| - 1]))
  }

  lemma HasKeyMultiset(a: seq<MonthlyData>, b: seq<MonthlyData>, k: string)
    requires multiset(a) == multiset(b)
    ensures HasKey(a, k) <==> HasKey(b, k)
  {
    if HasKey(a, k) {
      var i :| 0 <= i < |a| && a[i].dateSort == k;
      assert a[i] in multiset(b);
      var j :| 0 <= j < |b| && b[j] == a[i];
    }
    if HasKey(b, k) {
      var i :| 0 <= i < |b| && b[i].dateSort == k;
      assert b[i] in multiset(a);
      var j :| 0 <= j < |a| && a[j] == b[i];
    }
  }

  lemma {:induction false} InsertAscending(x: MonthlyData, s: seq<MonthlyData>)
    requires Ascending(s)
    ensures Ascending(Insert(x, s))
    decreases |s|
  {
    var r := Insert(x, s);
    if s == [] || LexLess(x.dateSort, s[0].dateSort) {
      forall j | 0 <= j < |s| ensures LexLess(x.dateSort, s[j].dateSort) {
        if j > 0 {
          LexLessTotal(s[j].dateSort, s[0].dateSort);
          if s[j].dateSort != s[0].dateSort { LexLessTransitive(x.dateSort, s[0].dateSort, s[j].dateSort); }
        }
      }
      forall j | 0 <= j < |s| ensures !LexLess(s[j].dateSort, x.dateSort) {
        LexLessAsymmetric(x.dateSort, s[j].dateSort);
      }
      assert r == [x] + s;
    } else {
      InsertAscending(x, s[1..]);
      var t := Insert(x, s[1..]);
      assert r == [s[0]] + t;
      forall j | 0 <= j < |t| ensures !LexLess(t[j].dateSort, s[0].dateSort) {
        assert t[j] in multiset(s[1..]) + multiset{x};
        if t[j] != x {
          assert t[j] in s[1..];
        }
      }
    }
  }

  lemma {:induction false} InsertStrict(x: MonthlyData, s: seq<MonthlyData>)
    requires StrictlyAscending(s) && !HasKey(s, x.dateSort)
    ensures StrictlyAscending(Insert(x, s))
    decreases |s|
  {
    var r := Insert(x, s);
    if s == [] || LexLess(x.dateSort, s[0].dateSort) {
      forall j | 0 < j < |r| ensures LexLess(x.dateSort, r[j].dateSort) {
        assert r[j] == s[j - 1];
        if j > 1 { LexLessTransitive(x.dateSort, s[0].dateSort, r[j].dateSort); }
      }
    } else {
      assert s[0].dateSort != x.dateSort;
      LexLessTotal(x.dateSort, s[0].dateSort);
      forall t | 0 <= t < |s[1..]| ensures s[1..][t].dateSort != x.dateSort {
        assert s[1..][t] == s[t + 1];
      }
      InsertStrict(x, s[1..]);
      var t := Insert(x, s[1..]);
      assert r == [s[0]] + t;
      forall j | 0 <= j < |t| ensures LexLess(s[0].dateSort, t[j].dateSort) {
        assert t[j] in multiset(s[1..]) + multiset{x};
        if t[j] != x {
          assert t[j] in s[1..];
        }
      }
    }
  }

  /** The sort leaves the keys in non-decreasing order, and in strictly
      increasing order when no key repeats (as in the month map). */
  lemma {:induction false} SortByKeySorted(m: seq<MonthlyData>)
    ensures Ascending(SortByKey(m))
    ensures UniqueKeys(m) ==> StrictlyAscending(SortByKey(m))
    decreases |m|
  {
    if m != [] {
      var p, x := m[..|m| - 1], m[|m| - 1];
      SortByKeySorted(p);
      InsertAscending(x, SortByKey(p));
      if UniqueKeys(m) {
        assert UniqueKeys(p);
        assert !HasKey(p, x.dateSort);
        HasKeyMultiset(p, SortByKey(p), x.dateSort);
        InsertStrict(x, SortByKey(p));
      }
    }
  }

  // ---------------------------------------------------------------------
  // The passes of `loadHistory`.

  lemma FiledSnoc(fs: seq<Filing>, f: Filing, k: string)
    ensures Filed(fs + [f], k) <==> Filed(fs, k) || f.key == k
    ensures LastAmount(fs + [f], k) == if f.key == k then f.amount else LastAmount(fs, k)
    ensures SumAmount(fs + [f], k) == SumAmount(fs, k) + if f.key == k then f.amount else 0
  {
    var q := fs + [f];
    assert q[..|fs|] == fs && q[|fs|] == f;
    assert forall t :: 0 <= t < |fs| ==> q[t] == fs[t];
  }

  lemma {:induction false} NotFiled(fs: seq<Filing>, k: string)
    requires !Filed(fs, k)
    ensures LastAmount(fs, k) == 0 && SumAmount(fs, k) == 0
    decreases |fs|
  {
    if fs != [] {
      var p := fs[..|fs| - 1];
      forall t | 0 <= t < |p| ensures p[t].key != k {
        assert p[t] == fs[t];
      }
      assert fs[|fs| - 1].key != k;
      NotFiled(p, k);
    }
  }

  lemma BudgetStep(fs: seq<Filing>, f: Filing, k: string)
    ensures Expected(fs + [f], [], k) ==
      if k == f.key then Some(Expected(fs, [], k).GetOr(Zero(k)).(income := f.amount))
      else Expected(fs, [], k)
  {
    FiledSnoc(fs, f, k);
    if !Filed(fs, k) { NotFiled(fs, k); }
  }

  lemma ExpenseStep(budgets: seq<Filing>, fs: seq<Filing>, f: Filing, k: string)
    ensures Expected(budgets, fs + [f], k) ==
      if k == f.key then
        var e := Expected(budgets, fs, k).GetOr(Zero(k));
        Some(e.(expenses := e.expenses + f.amount))
      else Expected(budgets, fs, k)
  {
    FiledSnoc(fs, f, k);
    if !Filed(budgets, k) { NotFiled(budgets, k); }
    if !Filed(fs, k) { NotFiled(fs, k); }
  }

  /** A map meeting the budgets' reference definition still meets it after
      one more budget's month gets that budget's income. */
  lemma BudgetPassStep(fs: seq<Filing>, f: Filing, before: seq<MonthlyData>, after: seq<MonthlyData>)
    requires forall k :: Lookup(before, k) == Expected(fs, [], k)
    requires Lookup(after, f.key) == Some(Lookup(before, f.key).GetOr(Zero(f.key)).(income := f.amount))
    requires forall k :: k != f.key ==> Lookup(after, k) == Lookup(before, k)
    ensures forall k :: Lookup(after, k) == Expected(fs + [f], [], k)
  {
    forall k ensures Lookup(after, k) == Expected(fs + [f], [], k) {
      BudgetStep(fs, f, k);
    }
  }

  /** A map meeting the reference definition still meets it after one more
      expense's amount is added to its month. */
  lemma ExpensePassStep(budgets: seq<Filing>, fs: seq<Filing>, f: Filing, before: seq<MonthlyData>, after: seq<MonthlyData>)
    requires forall k :: Lookup(before, k) == Expected(budgets, fs, k)
    requires var e := Lookup(before, f.key).GetOr(Zero(f.key));
      Lookup(after, f.key) == Some(e.(expenses := e.expenses + f.amount))
    requires forall k :: k != f.key ==> Lookup(after, k) == Lookup(before, k)
    ensures forall k :: Lookup(after, k) == Expected(budgets, fs + [f], k)
  {
    forall k ensures Lookup(after, k) == Expected(budgets, fs + [f], k) {
      ExpenseStep(budgets, fs, f, k);
    }
  }

  /** The budgets callback: the month of the budget's date gets its
      income, any other month is untouched. It throws (`ok` false) when
      the date does not read as a date and its month is not yet there. */
  method RecordBudget(monthsMap: seq<MonthlyData>, b: MonthlyBudget) returns (result: seq<MonthlyData>, ok: bool)
    requires UniqueKeys(monthsMap)
    ensures !ok <==> MonthKeyOfDateString(b.date) == InvalidMonthKey && !HasKey(monthsMap, InvalidMonthKey)
    ensures UniqueKeys(result)
    ensures ok ==> var key := MonthKeyOfDateString(b.date);
      Lookup(result, key) == Some(Lookup(monthsMap, key).GetOr(Zero(key)).(income := b.income))
    ensures ok ==> forall k :: k != MonthKeyOfDateString(b.date) ==> Lookup(result, k) == Lookup(monthsMap, k)
  {
    var key;
    result, key, ok := InitMonth(monthsMap, b.date);
    if ok {
      var entry := Lookup(result, key).value;
      result := Put(result, entry.(income := b.income));
    }
  }

  /** The expenses callback: the amount is added to the month of the
      expense's date, any other month is untouched. It throws (`ok` false)
      when the date does not read as a date and its month is not yet there. */
  method RecordExpense(monthsMap: seq<MonthlyData>, e: Expense) returns (result: seq<MonthlyData>, ok: bool)
    requires UniqueKeys(monthsMap)
    ensures !ok <==> MonthKeyOfDateString(e.date) == InvalidMonthKey && !HasKey(monthsMap, InvalidMonthKey)
    ensures UniqueKeys(result)
    ensures ok ==> var key := MonthKeyOfDateString(e.date);
      var entry := Lookup(monthsMap, key).GetOr(Zero(key));
      Lookup(result, key) == Some(entry.(expenses := entry.expenses + e.amount))
    ensures ok ==> forall k :: k != MonthKeyOfDateString(e.date) ==> Lookup(result, k) == Lookup(monthsMap, k)
  {
    var key;
    result, key, ok := InitMonth(monthsMap, e.date);
    if ok {
      var entry := Lookup(result, key).value;
      result := Put(result, entry.(expenses := entry.expenses + e.amount));
    }
  }

  /** The budgets pass: each budget's month gets its income, the last
      budget of a month winning; None when a callback throws, that is,
      when some budget's date does not read as a date. */
  method BucketBudgets(budgets: seq<MonthlyBudget>) returns (r: Option<seq<MonthlyData>>)
    ensures r.None? <==> Filed(BudgetFilings(budgets), InvalidMonthKey)
    ensures r.Some? ==> UniqueKeys(r.value)
    ensures r.Some? ==> forall k :: Lookup(r.value, k) == Expected(BudgetFilings(budgets), [], k)
  {
    var monthsMap := [];
    for i := 0 to |budgets|
      invariant UniqueKeys(monthsMap)
      invariant !Filed(BudgetFilings(budgets[..i]), InvalidMonthKey)
      invariant forall k :: Lookup(monthsMap, k) == Expected(BudgetFilings(budgets[..i]), [], k)
    {
      ghost var f := Filing(MonthKeyOfDateString(budgets[i].date), budgets[i].income);
      BudgetFilingsPrefix(budgets, i);
      assert Lookup(monthsMap, InvalidMonthKey).None?;
      ghost var before := monthsMap;
      var ok;
      monthsMap, ok := RecordBudget(monthsMap, budgets[i]);
      if !ok {
        BudgetFilingAt(budgets, i);
        assert BudgetFilings(budgets)[i].key == InvalidMonthKey;
        return None;
      }
      FiledSnoc(BudgetFilings(budgets[..i]), f, InvalidMonthKey);
      BudgetPassStep(BudgetFilings(budgets[..i]), f, before, monthsMap);
    }
    assert budgets[..|budgets|] == budgets;
    r := Some(monthsMap);
  }

  /** The expenses pass: each expense's amount is added to its month;
      None when a callback throws, that is, when some expense's date does
      not read as a date. */
  method BucketExpenses(ghost budgets: seq<Filing>, expenses: seq<Expense>, start: seq<MonthlyData>)
    returns (r: Option<seq<MonthlyData>>)
    requires UniqueKeys(start) && !Filed(budgets, InvalidMonthKey)
    requires forall k :: Lookup(start, k) == Expected(budgets, [], k)
    ensures r.None? <==> Filed(ExpenseFilings(expenses), InvalidMonthKey)
    ensures r.Some? ==> UniqueKeys(r.value)
    ensures r.Some? ==> forall k :: Lookup(r.value, k) == Expected(budgets, ExpenseFilings(expenses), k)
  {
    var monthsMap := start;
    assert ExpenseFilings(expenses[..0]) == [];
    for i := 0 to |expenses|
      invariant UniqueKeys(monthsMap)
      invariant !Filed(ExpenseFilings(expenses[..i]), InvalidMonthKey)
      invariant forall k :: Lookup(monthsMap, k) == Expected(budgets, ExpenseFilings(expenses[..i]), k)
    {
      ghost var f := Filing(MonthKeyOfDateString(expenses[i].date), expenses[i].amount);
      ExpenseFilingsPrefix(expenses, i);
      assert Lookup(monthsMap, InvalidMonthKey).None?;
      ghost var before := monthsMap;
      var ok;
      monthsMap, ok := RecordExpense(monthsMap, expenses[i]);
      if !ok {
        ExpenseFilingAt(expenses, i);
        assert ExpenseFilings(expenses)[i].key == InvalidMonthKey;
        return None;
      }
      FiledSnoc(ExpenseFilings(expenses[..i]), f, InvalidMonthKey);
      ExpensePassStep(budgets, ExpenseFilings(expenses[..i]), f, before, monthsMap);
    }
    assert expenses[..|expenses|] == expenses;
    r := Some(monthsMap);
  }

  /** Every entry of the sorted map is the expected entry of its key. */
  lemma SortedEntries(m: seq<MonthlyData>, budgets: seq<Filing>, expenses: seq<Filing>)
    requires UniqueKeys(m)
    requires forall k :: Lookup(m, k) == Expected(budgets, expenses, k)
    ensures StrictlyAscending(SortByKey(m))
    ensures forall k :: HasKey(SortByKey(m), k) <==> Filed(budgets, k) || Filed(expenses, k)
    ensures forall j :: 0 <= j < |SortByKey(m)| ==>
      Some(SortByKey(m)[j]) == Expected(budgets, expenses, SortByKey(m)[j].dateSort)
  {
    var s := SortByKey(m);
    SortByKeySorted(m);
    forall k ensures HasKey(s, k) <==> Filed(budgets, k) || Filed(expenses, k) {
      HasKeyMultiset(m, s, k);
      assert Lookup(m, k) == Expected(budgets, expenses, k);
    }
    forall j | 0 <= j < |s| ensures Some(s[j]) == Expected(budgets, expenses, s[j].dateSort) {
      assert s[j] in multiset(m);
      var t :| 0 <= t < |m| && m[t] == s[j];
      LookupMember(m, t);
    }
  }

  /** `item.income > 0 ? item.income : defaultIncome`. */
  function FinalIncome(recorded: int, defaultIncome: int): int {
    if recorded > 0 then recorded else defaultIncome
  }

  /** The final `map` over the sorted months, with the running total of
      the savings kept beside it. */
  method SummarizeMonths(historyData: seq<MonthlyData>, defaultIncome: int)
    returns (history: seq<MonthlyData>, totalSaved: int)
    ensures |history| == |historyData|
    ensures forall j :: 0 <= j < |history| ==>
      var item := historyData[j];
      history[j] == item.(income := FinalIncome(item.income, defaultIncome),
                          savings := FinalIncome(item.income, defaultIncome) - item.expenses)
    ensures totalSaved == SavingsTotal(history)
  {
    history := [];
    var calculatedTotalSaved := 0;
    for i := 0 to |historyData|
      invariant |history| == i
      invariant forall j :: 0 <= j < i ==>
        history[j] == historyData[j].(income := FinalIncome(historyData[j].income, defaultIncome),
                                      savings := FinalIncome(historyData[j].income, defaultIncome) - historyData[j].expenses)
      invariant calculatedTotalSaved == SavingsTotal(history)
    {
      var item := historyData[i];
      var finalIncome := if item.income > 0 then item.income else defaultIncome;
      var savings := finalIncome - item.expenses;
      calculatedTotalSaved := calculatedTotalSaved + savings;
      var before := history;
      history := history + [item.(income := finalIncome, savings := savings)];
      assert history[..i] == before;
    }
    totalSaved := calculatedTotalSaved;
  }

  /** Summarizing the expected entries in key order meets the history's
      specification. */
  lemma HistoryMeetsSpec(sorted: seq<MonthlyData>, history: seq<MonthlyData>,
                         budgets: seq<Filing>, expenses: seq<Filing>, defaultIncome: int)
    requires StrictlyAscending(sorted)
    requires forall j :: 0 <= j < |sorted| ==> Some(sorted[j]) == Expected(budgets, expenses, sorted[j].dateSort)
    requires |history| == |sorted|
    requires forall j :: 0 <= j < |history| ==>
      history[j] == sorted[j].(income := FinalIncome(sorted[j].income, defaultIncome),
                               savings := FinalIncome(sorted[j].income, defaultIncome) - sorted[j].expenses)
    ensures StrictlyAscending(history)
    ensures forall k :: HasKey(history, k) <==> HasKey(sorted, k)
    ensures forall j :: 0 <= j < |history| ==>
      history[j] == HistoryEntry(budgets, expenses, defaultIncome, history[j].dateSort)
  {
    assert forall j :: 0 <= j < |history| ==> history[j].dateSort == sorted[j].dateSort;
    forall k ensures HasKey(history, k) <==> HasKey(sorted, k) {
      if HasKey(history, k) {
        var t :| 0 <= t < |history| && history[t].dateSort == k;
        assert sorted[t].dateSort == k;
      }
      if HasKey(sorted, k) {
        var t :| 0 <= t < |sorted| && sorted[t].dateSort == k;
        assert history[t].dateSort == k;
      }
    }
  }

  /** Some budget or expense carries a date that does not read as a date. */
  ghost predicate SomeDateUnparsable(budgets: seq<MonthlyBudget>, expenses: seq<Expense>)
  {
    (exists i | 0 <= i < |budgets| :: ParseIsoDate(budgets[i].date).None?) ||
    (exists i | 0 <= i < |expenses| :: ParseIsoDate(expenses[i].date).None?)
  }

  /** A record is filed under the invalid key exactly when its date does
      not read as a date. */
  lemma UnparsableIsFiledInvalid(budgets: seq<MonthlyBudget>, expenses: seq<Expense>)
    ensures SomeDateUnparsable(budgets, expenses) <==>
      Filed(BudgetFilings(budgets), InvalidMonthKey) || Filed(ExpenseFilings(expenses), InvalidMonthKey)
  {
    forall i | 0 <= i < |budgets|
      ensures BudgetFilings(budgets)[i].key == InvalidMonthKey <==> ParseIsoDate(budgets[i].date).None?
    {
      BudgetFilingAt(budgets, i);
    }
    forall i | 0 <= i < |expenses|
      ensures ExpenseFilings(expenses)[i].key == InvalidMonthKey <==> ParseIsoDate(expenses[i].date).None?
    {
      ExpenseFilingAt(expenses, i);
    }
  }

  /** `loadHistory` after the three queries answered (null as None). When
      a date does not read as a date, a callback throws, the throw is
      caught before the state is set, and the page keeps its initial empty
      history and zero total. Otherwise the history has one entry per month
      that any budget or expense is filed under, in strictly increasing key
      order; each entry carries the month's last recorded income when
      positive and the profile's income otherwise, the sum of the month's
      expenses and their difference as savings; the total saved is the sum
      of the savings. */
  method LoadHistory(budgets: Option<seq<MonthlyBudget>>, allExpenses: Option<seq<Expense>>,
                     profile: Option<Profile>)
    returns (history: seq<MonthlyData>, totalSaved: int)
    ensures SomeDateUnparsable(budgets.GetOr([]), allExpenses.GetOr([])) ==> history == [] && totalSaved == 0
    ensures !SomeDateUnparsable(budgets.GetOr([]), allExpenses.GetOr([])) ==> StrictlyAscending(history)
    ensures !SomeDateUnparsable(budgets.GetOr([]), allExpenses.GetOr([])) ==> forall k :: HasKey(history, k) <==>
      Filed(BudgetFilings(budgets.GetOr([])), k) || Filed(ExpenseFilings(allExpenses.GetOr([])), k)
    ensures !SomeDateUnparsable(budgets.GetOr([]), allExpenses.GetOr([])) ==> forall j :: 0 <= j < |history| ==>
      history[j] == HistoryEntry(BudgetFilings(budgets.GetOr([])), ExpenseFilings(allExpenses.GetOr([])),
                                 DefaultIncome(profile), history[j].dateSort)
    ensures totalSaved == SavingsTotal(history)
  {
    var defaultIncome := DefaultIncome(profile);
    ghost var bf, ef := BudgetFilings(budgets.GetOr([])), ExpenseFilings(allExpenses.GetOr([]));
    UnparsableIsFiledInvalid(budgets.GetOr([]), allExpenses.GetOr([]));
    var fromBudgets := BucketBudgets(budgets.GetOr([]));
    if fromBudgets.None? {
      return [], 0;
    }
    var monthsMap := BucketExpenses(bf, allExpenses.GetOr([]), fromBudgets.value);
    if monthsMap.None? {
      return [], 0;
    }
    var historyData := SortByKey(monthsMap.value);
    SortedEntries(monthsMap.value, bf, ef);
    history, totalSaved := SummarizeMonths(historyData, defaultIncome);
    HistoryMeetsSpec(historyData, history, bf, ef, defaultIncome);
  }

  // ---------------------------------------------------------------------
  // What the history shows.

  /** For months of four-digit years, history order is chronological. */
  lemma HistoryIsChronological(history: seq<MonthlyData>, i: nat, j: nat, y1: int, m1: int, y2: int, m2: int)
    requires StrictlyAscending(history) && i < |history| && j < |history|
    requires FourDigitYear(y1) && 1 <= m1 <= 12 && history[i].dateSort == MonthKey(y1, m1)
    requires FourDigitYear(y2) && 1 <= m2 <= 12 && history[j].dateSort == MonthKey(y2, m2)
    ensures i < j <==> y1 < y2 || (y1 == y2 && m1 < m2)
    ensures i == j <==> y1 == y2 && m1 == m2
  {
    MonthKeyOrder(y1, m1, y2, m2);
    MonthKeyOrder(y2, m2, y1, m1);
    if i < j {
      assert LexLess(history[i].dateSort, history[j].dateSort);
    } else if j < i {
      assert LexLess(history[j].dateSort, history[i].dateSort);
      LexLessIrreflexive(history[i].dateSort);
    } else {
      LexLessIrreflexive(history[i].dateSort);
    }
  }

  /** An expense dated with `toISODateString` of a date in a four-digit
      year is filed under that date's year and month. */
  lemma ExpenseFiledUnderItsMonth(expenses: seq<Expense>, i: nat, d: Date)
    requires i < |expenses| && ValidDate(d) && FourDigitYear(d.year)
    requires expenses[i].date == IsoDateString(d)
    ensures Filed(ExpenseFilings(expenses), MonthKey(d.year, d.month))
  {
    MonthKeyOfIsoDate(d);
    ExpenseFilingAt(expenses, i);
  }

  /** The income shown is the recorded one when positive and the default
      otherwise; a month without budgets shows the default. */
  lemma IncomeFallback(budgets: seq<Filing>, expenses: seq<Filing>, defaultIncome: int, key: string)
    ensures LastAmount(budgets, key) > 0 ==> HistoryEntry(budgets, expenses, defaultIncome, key).income == LastAmount(budgets, key)
    ensures LastAmount(budgets, key) <= 0 ==> HistoryEntry(budgets, expenses, defaultIncome, key).income == defaultIncome
    ensures !Filed(budgets, key) ==> HistoryEntry(budgets, expenses, defaultIncome, key).income == defaultIncome
    ensures HistoryEntry(budgets, expenses, defaultIncome, key).savings ==
            HistoryEntry(budgets, expenses, defaultIncome, key).income - SumAmount(expenses, key)
  {
    if !Filed(budgets, key) { NotFiled(budgets, key); }
  }

  /** Budgets overwrite rather than add up: a month's income is that of
      the last budget filed under it. */
  lemma {:induction false} LastBudgetWins(fs: seq<Filing>, i: nat, k: string)
    requires i < |fs| && fs[i].key == k
    requires forall j :: i < j < |fs| ==> fs[j].key != k
    ensures LastAmount(fs, k) == fs[i].amount
    decreases |fs|
  {
    if i < |fs| - 1 {
      var p := fs[..|fs| - 1];
      assert p[i] == fs[i];
      assert forall j :: i < j < |p| ==> p[j] == fs[j];
      LastBudgetWins(p, i, k);
    }
  }

  /** A month's expenses add up independently of how the list is split. */
  lemma {:induction false} SumAmountAppend(a: seq<Filing>, b: seq<Filing>, key: string)
    ensures SumAmount(a + b, key) == SumAmount(a, key) + SumAmount(b, key)
    decreases |b|
  {
    if b == [] {
      assert a + b == a;
    } else {
      assert (a + b)[..|a + b| - 1] == a + b[..|b| - 1];
      SumAmountAppend(a, b[..|b| - 1], key);
    }
  }
}
