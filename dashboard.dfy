/** The dashboard's monthly ledger: loading a month (reusing its stored
    expenses or generating one recurring expense per active subscription)
    and the figures computed from the month's expenses. */
module Dashboard {
  import opened Options
  import opened Strings
  import opened Calendar
  import opened Records
  import Grouping

  // ---------------------------------------------------------------------
  // The month's expense query (`.gte('date', start).lte('date', end)`).

  /** A row passes `.gte('date', startStr).lte('date', endStr)`. */
  predicate InRange(e: Expense, startStr: string, endStr: string) {
    LexLessEq(startStr, e.date) && LexLessEq(e.date, endStr)
  }

  /** The stored rows the range filter lets through, in stored order:
      every row it returns is stored and in range, and every stored row in
      range is returned. */
  function MonthQuery(stored: seq<Expense>, startStr: string, endStr: string): (r: seq<Expense>)
    ensures |r| <= |stored|
    ensures forall i :: 0 <= i < |r| ==> r[i] in stored && InRange(r[i], startStr, endStr)
    ensures forall e :: e in stored && InRange(e, startStr, endStr) ==> e in r
    decreases |stored|
  {
    if stored == [] then []
    else
      var p, e := stored[..|stored| - 1], stored[|stored| - 1];
      MonthQuery(p, startStr, endStr) + (if InRange(e, startStr, endStr) then [e] else [])
  }

  lemma {:induction false} MonthQueryAppend(a: seq<Expense>, b: seq<Expense>, startStr: string, endStr: string)
    ensures MonthQuery(a + b, startStr, endStr) == MonthQuery(a, startStr, endStr) + MonthQuery(b, startStr, endStr)
    decreases |b|
  {
    if b == [] {
      assert a + b == a;
    } else {
      var n := |b| - 1;
      assert (a + b)[..|a + b| - 1] == a + b[..n];
      MonthQueryAppend(a, b[..n], startStr, endStr);
    }
  }

  /** For rows dated in a four-digit year, the range of the viewed month
      keeps exactly the rows dated in that month. */
  lemma MonthQuerySelectsMonth(date: Date, e: Expense, d: Date)
    requires ValidDate(date) && FourDigitYear(date.year)
    requires ValidDate(d) && FourDigitYear(d.year) && e.date == IsoDateString(d)
    ensures InRange(e, StartOfMonthStr(date), EndOfMonthStr(date)) <==>
            d.year == date.year && d.month == date.month
  {
    MonthRangeSelectsMonth(date, d);
  }

  // ---------------------------------------------------------------------
  // Generate or reuse.

  /** `subs.map(sub => ({ user_id, name, amount: price, category, date:
      startStr, is_recurring: true }))`. */
  function RecurringBatch(userId: string, subs: seq<Subscription>, startStr: string): (batch: seq<NewExpense>)
    ensures |batch| == |subs|
    ensures forall i :: 0 <= i < |subs| ==>
      batch[i] == NewExpense(userId, subs[i].name, subs[i].price, subs[i].category, startStr, true)
    decreases |subs|
  {
    if subs == [] then []
    else
      var s := subs[|subs| - 1];
      RecurringBatch(userId, subs[..|subs| - 1], startStr) + [NewExpense(userId, s.name, s.price, s.category, startStr, true)]
  }

  /** A missing (null) or empty list. */
  predicate NoneOrEmpty<T>(xs: Option<seq<T>>) {
    xs.None? || |xs.value| == 0
  }

  /** The branch `fetchData` takes for the month. */
  datatype MonthPlan = Reuse(expenses: seq<Expense>) | Generate(batch: seq<NewExpense>)

  /** Generate exactly when nothing is stored for the month (of any kind)
      and there is at least one active subscription; otherwise the month's
      set is what is stored (or nothing, for a null answer). */
  function PlanMonth(userId: string, startStr: string, monthExpenses: Option<seq<Expense>>,
                     subs: Option<seq<Subscription>>): (plan: MonthPlan)
    ensures plan.Generate? <==> NoneOrEmpty(monthExpenses) && subs.Some? && |subs.value| > 0
    ensures plan.Generate? ==> plan.batch == RecurringBatch(userId, subs.value, startStr)
    ensures plan.Reuse? ==> plan.expenses == monthExpenses.GetOr([])
  {
    if NoneOrEmpty(monthExpenses) && subs.Some? && |subs.value| > 0 then
      Generate(RecurringBatch(userId, subs.value, startStr))
    else
      Reuse(monthExpenses.GetOr([]))
  }

  /** The month's expense list after the branch: an insert that returns
      nothing leaves the previous list in place. */
  function ExpensesAfter(plan: MonthPlan, insert: seq<NewExpense> -> Option<seq<Expense>>,
                         previous: seq<Expense>): (after: seq<Expense>)
    ensures plan.Reuse? ==> after == plan.expenses
    ensures plan.Generate? && insert(plan.batch).Some? ==> after == insert(plan.batch).value
    ensures plan.Generate? && insert(plan.batch).None? ==> after == previous
  {
    match plan
    case Reuse(es) => es
    case Generate(batch) => insert(batch).GetOr(previous)
  }

  /** The first day of the viewed month, as `getStartOfMonthStr` writes it,
      reads back as day 1 of that month and lies inside the month's range. */
  lemma MonthStartIsDayOne(date: Date)
    requires ValidDate(date) && FourDigitYear(date.year)
    ensures ParseIsoDate(StartOfMonthStr(date)) == Some(Date(date.year, date.month, 1))
    ensures LexLessEq(StartOfMonthStr(date), EndOfMonthStr(date))
  {
    var first := Date(date.year, date.month, 1);
    var last := Date(date.year, date.month, DaysInMonth(date.year, date.month));
    IsoDateRoundTrip(first);
    DateRangeSelects(first, last, first);
  }

  /** When the batch is generated, the month's list is whatever the insert
      returns; an insert that returns nothing keeps the previous list. */
  lemma GeneratedMonthIsInserted(userId: string, startStr: string, monthExpenses: Option<seq<Expense>>,
                                 subs: seq<Subscription>,
                                 insert: seq<NewExpense> -> Option<seq<Expense>>, previous: seq<Expense>)
    requires NoneOrEmpty(monthExpenses) && |subs| > 0
    ensures var after := ExpensesAfter(PlanMonth(userId, startStr, monthExpenses, Some(subs)), insert, previous);
      (insert(RecurringBatch(userId, subs, startStr)).None? ==> after == previous) &&
      (insert(RecurringBatch(userId, subs, startStr)).Some? ==>
         after == insert(RecurringBatch(userId, subs, startStr)).value)
  {
  }

  /** Generating makes one row per subscription, in subscription order,
      copying name, price and category, dated `startStr` and marked
      recurring. */
  lemma GenerateOnePerSubscription(userId: string, startStr: string, monthExpenses: Option<seq<Expense>>,
                                   subs: seq<Subscription>)
    requires NoneOrEmpty(monthExpenses) && |subs| > 0
    ensures var plan := PlanMonth(userId, startStr, monthExpenses, Some(subs));
      plan.Generate? && |plan.batch| == |subs| &&
      forall i :: 0 <= i < |subs| ==>
        && plan.batch[i].userId == userId
        && plan.batch[i].name == subs[i].name
        && plan.batch[i].amount == subs[i].price
        && plan.batch[i].category == subs[i].category
        && plan.batch[i].isRecurring
        && plan.batch[i].date == startStr
  {
  }

  /** A month that already holds any expense, recurring or not, is left
      alone: nothing is generated and the set is the stored list. */
  lemma StoredMonthIsReused(userId: string, startStr: string, stored: seq<Expense>,
                            subs: Option<seq<Subscription>>,
                            insert: seq<NewExpense> -> Option<seq<Expense>>, previous: seq<Expense>)
    requires |stored| > 0
    ensures PlanMonth(userId, startStr, Some(stored), subs) == Reuse(stored)
    ensures ExpensesAfter(PlanMonth(userId, startStr, Some(stored), subs), insert, previous) == stored
  {
  }

  /** With no stored expenses and no subscriptions the set is empty. */
  lemma EmptyMonthWithoutSubscriptions(userId: string, startStr: string, monthExpenses: Option<seq<Expense>>,
                                       subs: Option<seq<Subscription>>,
                                       insert: seq<NewExpense> -> Option<seq<Expense>>, previous: seq<Expense>)
    requires NoneOrEmpty(monthExpenses) && NoneOrEmpty(subs)
    ensures ExpensesAfter(PlanMonth(userId, startStr, monthExpenses, subs), insert, previous) == []
  {
  }

  /** The rows the database returns for an inserted batch: the batch's
      fields, each with an id. */
  ghost predicate PersistedAs(batch: seq<NewExpense>, rows: seq<Expense>) {
    |rows| == |batch| &&
    forall i :: 0 <= i < |rows| ==>
      rows[i].name == batch[i].name && rows[i].amount == batch[i].amount &&
      rows[i].date == batch[i].date && rows[i].category == batch[i].category &&
      rows[i].isRecurring == batch[i].isRecurring
  }

  /** A month whose range query found nothing generates its batch; once the
      batch is stored, loading the month again generates nothing: the query
      returns exactly the stored batch, so the count stays the number of
      subscriptions. */
  lemma {:induction false} ReloadAfterGenerationReuses(userId: string, startStr: string, endStr: string,
                                    stored: seq<Expense>, subs: seq<Subscription>, rows: seq<Expense>,
                                    laterSubs: Option<seq<Subscription>>)
    requires LexLessEq(startStr, endStr)
    requires MonthQuery(stored, startStr, endStr) == [] && |subs| > 0
    requires PersistedAs(RecurringBatch(userId, subs, startStr), rows)
    ensures PlanMonth(userId, startStr, Some(MonthQuery(stored, startStr, endStr)), Some(subs))
            == Generate(RecurringBatch(userId, subs, startStr))
    ensures MonthQuery(stored + rows, startStr, endStr) == rows
    ensures PlanMonth(userId, startStr, Some(MonthQuery(stored + rows, startStr, endStr)), laterSubs) == Reuse(rows)
    ensures |MonthQuery(stored + rows, startStr, endStr)| == |subs|
  {
    LexLessIrreflexive(startStr);
    AllInRange(rows, startStr, endStr);
    MonthQueryAppend(stored, rows, startStr, endStr);
  }

  /** An answer the database may give to the month's query: the rows the
      filter lets through, in any order (the database sorts them by date,
      descending, with ties in an order of its own). */
  ghost predicate QueryAnswer(stored: seq<Expense>, startStr: string, endStr: string, answer: seq<Expense>) {
    multiset(answer) == multiset(MonthQuery(stored, startStr, endStr))
  }

  /** Whatever order the database answers the reload in, it holds exactly
      the stored batch, one row per subscription, and is reused as is. */
  lemma ReloadAnswerIsBatch(userId: string, startStr: string, endStr: string,
                            stored: seq<Expense>, subs: seq<Subscription>, rows: seq<Expense>,
                            laterSubs: Option<seq<Subscription>>, answer: seq<Expense>)
    requires LexLessEq(startStr, endStr)
    requires MonthQuery(stored, startStr, endStr) == [] && |subs| > 0
    requires PersistedAs(RecurringBatch(userId, subs, startStr), rows)
    requires QueryAnswer(stored + rows, startStr, endStr, answer)
    ensures multiset(answer) == multiset(rows) && |answer| == |subs|
    ensures PlanMonth(userId, startStr, Some(answer), laterSubs) == Reuse(answer)
  {
    ReloadAfterGenerationReuses(userId, startStr, endStr, stored, subs, rows, laterSubs);
    MultisetSameLength(answer, rows);
    assert !NoneOrEmpty(Some(answer));
  }

  lemma MultisetSameLength(a: seq<Expense>, b: seq<Expense>)
    requires multiset(a) == multiset(b)
    ensures |a| == |b|
  {
    assert |multiset(a)| == |a|;
  }

  lemma {:induction false} AllInRange(rows: seq<Expense>, startStr: string, endStr: string)
    requires LexLessEq(startStr, startStr) && LexLessEq(startStr, endStr)
    requires forall i :: 0 <= i < |rows| ==> rows[i].date == startStr
    ensures MonthQuery(rows, startStr, endStr) == rows
    decreases |rows|
  {
    if rows != [] {
      AllInRange(rows[..|rows| - 1], startStr, endStr);
    }
  }

  /** The same, for the viewed month of a four-digit year: both loads query
      the range `getStartOfMonthStr` .. `getEndOfMonthStr`. */
  lemma ReloadMonth(userId: string, date: Date, stored: seq<Expense>, subs: seq<Subscription>,
                    rows: seq<Expense>, laterSubs: Option<seq<Subscription>>)
    requires ValidDate(date) && FourDigitYear(date.year)
    requires MonthQuery(stored, StartOfMonthStr(date), EndOfMonthStr(date)) == [] && |subs| > 0
    requires PersistedAs(RecurringBatch(userId, subs, StartOfMonthStr(date)), rows)
    ensures var next := MonthQuery(stored + rows, StartOfMonthStr(date), EndOfMonthStr(date));
      next == rows && |next| == |subs| &&
      PlanMonth(userId, StartOfMonthStr(date), Some(next), laterSubs) == Reuse(rows)
  {
    MonthStartIsDayOne(date);
    ReloadAfterGenerationReuses(userId, StartOfMonthStr(date), EndOfMonthStr(date), stored, subs, rows, laterSubs);
  }

  // ---------------------------------------------------------------------
  // Figures of the month.

  /** `expenses.reduce((acc, exp) => acc + exp.amount, 0)`. */
  function TotalExpenses(expenses: seq<Expense>): (total: int)
    ensures (forall i :: 0 <= i < |expenses| ==> expenses[i].amount >= 0) ==> total >= 0
    ensures |expenses| == 1 ==> total == expenses[0].amount
    decreases |expenses|
  {
    if expenses == [] then 0
    else TotalExpenses(expenses[..|expenses| - 1]) + expenses[|expenses| - 1].amount
  }

  /** The total of a month split in two is the sum of the two totals. */
  lemma {:induction false} TotalExpensesAppend(a: seq<Expense>, b: seq<Expense>)
    ensures TotalExpenses(a + b) == TotalExpenses(a) + TotalExpenses(b)
    decreases |b|
  {
    if b == [] {
      assert a + b == a;
    } else {
      assert (a + b)[..|a + b| - 1] == a + b[..|b| - 1];
      TotalExpensesAppend(a, b[..|b| - 1]);
    }
  }

  /** The (category, amount) view of the expenses the chart reduce reads. */
  function ChartItems(expenses: seq<Expense>): (items: seq<Grouping.Item>)
    ensures |items| == |expenses|
    ensures forall i :: 0 <= i < |expenses| ==>
      items[i] == Grouping.Item(expenses[i].category, expenses[i].amount)
    decreases |expenses|
  {
    if expenses == [] then []
    else
      var e := expenses[|expenses| - 1];
      ChartItems(expenses[..|expenses| - 1]) + [Grouping.Item(e.category, e.amount)]
  }

  lemma {:induction false} ChartItemsTotal(expenses: seq<Expense>)
    ensures Grouping.ItemsTotal(ChartItems(expenses)) == TotalExpenses(expenses)
    decreases |expenses|
  {
    if expenses != [] {
      var p := expenses[..|expenses| - 1];
      ChartItemsTotal(p);
      assert ChartItems(expenses)[..|p|] == ChartItems(p);
    }
  }

  /** `chartData`: the expenses grouped by category, in first-seen order,
      values adding up to the month's total. */
  method ChartData(expenses: seq<Expense>) returns (data: seq<Grouping.Slice>)
    ensures Grouping.IsBreakdown(ChartItems(expenses), data)
    ensures Grouping.SlicesTotal(data) == TotalExpenses(expenses)
    ensures |data| <= |expenses| && (|data| == 0 <==> |expenses| == 0)
  {
    data := Grouping.GroupByCategory(ChartItems(expenses));
    ChartItemsTotal(expenses);
  }

  /** `(remaining / income) * 100` for positive income, else 0. */
  function PercentageLeft(income: int, remaining: int): (p: real)
    ensures income <= 0 ==> p == 0.0
    ensures income > 0 ==> p * (income as real) == (remaining as real) * 100.0
  {
    if income > 0 then (remaining as real / income as real) * 100.0 else 0.0
  }

  /** `Math.min(Math.max(p, 0), 100)`. */
  function Clamp(p: real): (r: real)
    ensures 0.0 <= r <= 100.0
    ensures 0.0 <= p <= 100.0 ==> r == p
    ensures p < 0.0 ==> r == 0.0
    ensures p > 100.0 ==> r == 100.0
  {
    var low := if p > 0.0 then p else 0.0;
    if low < 100.0 then low else 100.0
  }

  /** `validPercentage`: the remaining share of income, clamped to
      0..100; overspending shows 0 and no income shows 0. */
  function ValidPercentage(income: int, remaining: int): (vp: real)
    ensures 0.0 <= vp <= 100.0
    ensures income <= 0 ==> vp == 0.0
    ensures income > 0 && 0 <= remaining <= income ==> vp * (income as real) == (remaining as real) * 100.0
    ensures income > 0 && remaining < 0 ==> vp == 0.0
    ensures TierOf(vp) == TierOf(PercentageLeft(income, remaining))
  {
    var p := PercentageLeft(income, remaining);
    if income > 0 && 0 <= remaining <= income then
      PercentageBounds(income, remaining);
      Clamp(p)
    else if income > 0 && remaining < 0 then
      NegativeShare(income, remaining);
      Clamp(p)
    else
      Clamp(p)
  }

  /** The three status tiers and the colour and message each shows. */
  datatype Tier = Critical | Warning | Fine {
    function BarColor(): string {
      match this
      case Critical => "bg-red-500"
      case Warning => "bg-yellow-400"
      case Fine => "bg-emerald-400"
    }
    function Message(): string {
      match this
      case Critical => "Presupuesto crítico \U{1F6A8}"
      case Warning => "Controla los gastos \U{1F440}"
      case Fine => "Vas genial este mes \U{1F680}"
    }
    function Rank(): nat {
      match this
      case Critical => 0
      case Warning => 1
      case Fine => 2
    }
  }

  /** The tier of a remaining percentage: critical below 20, warning from
      20 below 50, fine from 50 on. */
  function TierOf(p: real): (t: Tier)
    ensures t == Critical <==> p < 20.0
    ensures t == Warning <==> 20.0 <= p < 50.0
    ensures t == Fine <==> 50.0 <= p
  {
    if p < 20.0 then Critical else if p < 50.0 then Warning else Fine
  }

  /** More money left never gives a worse tier. */
  lemma TierMonotone(p: real, q: real)
    requires p <= q
    ensures TierOf(p).Rank() <= TierOf(q).Rank()
  {
  }

  /** Banding the clamped percentage gives the tier of the unclamped one. */
  lemma TierOfClamped(p: real)
    ensures TierOf(Clamp(p)) == TierOf(p)
  {
  }

  /** The status block: start from the "fine" colour and message and
      overwrite them for the lower bands. */
  method StatusBanner(validPercentage: real) returns (barColor: string, statusMessage: string)
    ensures validPercentage < 20.0 ==> barColor == "bg-red-500" && statusMessage == Critical.Message()
    ensures 20.0 <= validPercentage < 50.0 ==> barColor == "bg-yellow-400" && statusMessage == Warning.Message()
    ensures 50.0 <= validPercentage ==> barColor == "bg-emerald-400" && statusMessage == Fine.Message()
    ensures barColor == TierOf(validPercentage).BarColor() && statusMessage == TierOf(validPercentage).Message()
  {
    barColor := "bg-emerald-400";
    statusMessage := Fine.Message();
    if validPercentage < 20.0 {
      barColor := "bg-red-500";
      statusMessage := Critical.Message();
    } else if validPercentage < 50.0 {
      barColor := "bg-yellow-400";
      statusMessage := Warning.Message();
    }
  }

  /** Everything the dashboard shows about the month's money. */
  datatype MonthSummary = MonthSummary(
    totalExpenses: int, chartData: seq<Grouping.Slice>, remaining: int,
    validPercentage: real, barColor: string, statusMessage: string)

  method Summarize(income: int, savingsGoal: int, expenses: seq<Expense>) returns (s: MonthSummary)
    ensures s.totalExpenses == TotalExpenses(expenses)
    ensures Grouping.IsBreakdown(ChartItems(expenses), s.chartData)
    ensures Grouping.SlicesTotal(s.chartData) == s.totalExpenses
    ensures s.remaining + s.totalExpenses + savingsGoal == income
    ensures s.validPercentage == ValidPercentage(income, s.remaining)
    ensures s.barColor == TierOf(s.validPercentage).BarColor()
    ensures s.statusMessage == TierOf(s.validPercentage).Message()
  {
    var totalExpenses := TotalExpenses(expenses);
    var chartData := ChartData(expenses);
    var remaining := income - totalExpenses - savingsGoal;
    var validPercentage := ValidPercentage(income, remaining);
    var barColor, statusMessage := StatusBanner(validPercentage);
    s := MonthSummary(totalExpenses, chartData, remaining, validPercentage, barColor, statusMessage);
  }

  lemma PercentageBounds(income: int, remaining: int)
    requires income > 0 && 0 <= remaining <= income
    ensures 0.0 <= PercentageLeft(income, remaining) <= 100.0
  {
    var q := remaining as real / income as real;
    assert q * (income as real) == remaining as real;
    assert 0.0 <= q <= 1.0;
  }

  lemma NegativeShare(income: int, remaining: int)
    requires income > 0 && remaining < 0
    ensures PercentageLeft(income, remaining) < 0.0
  {
    var q := remaining as real / income as real;
    assert q * (income as real) == remaining as real;
    assert q < 0.0;
  }

  /** The remaining share is 100 minus the share used by expenses and the
      savings goal. */
  lemma RemainingIsComplementOfUsed(income: int, total: int, goal: int)
    requires income > 0
    ensures PercentageLeft(income, income - total - goal) ==
            100.0 - ((total + goal) as real / income as real) * 100.0
  {
    var i := income as real;
    var left := (income - total - goal) as real / i;
    var used := (total + goal) as real / i;
    assert left * i == (income - total - goal) as real;
    assert used * i == (total + goal) as real;
    assert (left + used - 1.0) * i == 0.0;
    ZeroProduct(left + used - 1.0, i);
  }

  lemma ZeroProduct(x: real, i: real)
    requires i > 0.0 && x * i == 0.0
    ensures x == 0.0
  {
  }

  // ---------------------------------------------------------------------
  // The dashboard's state and `fetchData`.

  class DashboardState {
    var subscriptions: seq<Subscription>
    var expenses: seq<Expense>
    var income: int
    var savingsGoal: int

    /** The initial `useState` values. */
    constructor ()
      ensures subscriptions == [] && expenses == [] && income == 0 && savingsGoal == 0
    {
      subscriptions := [];
      expenses := [];
      income := 0;
      savingsGoal := 0;
    }

    /** `fetchData` after the database answered: `profile`, `subs` and
        `monthExpenses` are the three query results (null as None) and
        `insert` the database's answer to inserting a batch. Returns the
        range it queried the month's expenses with. */
    method FetchData(userId: string, date: Date, profile: Option<Profile>,
                     subs: Option<seq<Subscription>>, monthExpenses: Option<seq<Expense>>,
                     insert: seq<NewExpense> -> Option<seq<Expense>>)
      returns (startStr: string, endStr: string)
      requires ValidDate(date)
      modifies this
      ensures startStr == StartOfMonthStr(date) && endStr == EndOfMonthStr(date)
      ensures income == (if profile.Some? then profile.value.income.GetOr(0) else old(income))
      ensures savingsGoal == (if profile.Some? then profile.value.savingsGoal.GetOr(0) else old(savingsGoal))
      ensures subscriptions == (if subs.Some? then subs.value else old(subscriptions))
      ensures expenses == ExpensesAfter(PlanMonth(userId, startStr, monthExpenses, subs), insert, old(expenses))
    {
      startStr := StartOfMonthStr(date);
      endStr := EndOfMonthStr(date);
      if profile.Some? {
        income := profile.value.income.GetOr(0);
        savingsGoal := profile.value.savingsGoal.GetOr(0);
      }
      if subs.Some? {
        subscriptions := subs.value;
      }
      LoadMonth(userId, startStr, subs, monthExpenses, insert);
    }

    /** The generate-or-reuse branch: insert a recurring batch when the
        month is empty and there are subscriptions, keeping the current
        list if the insert returns nothing; otherwise show what is stored. */
    method LoadMonth(userId: string, startStr: string, subs: Option<seq<Subscription>>,
                     monthExpenses: Option<seq<Expense>>, insert: seq<NewExpense> -> Option<seq<Expense>>)
      modifies this
      ensures expenses == ExpensesAfter(PlanMonth(userId, startStr, monthExpenses, subs), insert, old(expenses))
      ensures subscriptions == old(subscriptions) && income == old(income) && savingsGoal == old(savingsGoal)
    {
      if NoneOrEmpty(monthExpenses) && subs.Some? && |subs.value| > 0 {
        var newExpenses := RecurringBatch(userId, subs.value, startStr);
        var inserted := insert(newExpenses);
        if inserted.Some? {
          expenses := inserted.value;
        }
      } else {
        expenses := monthExpenses.GetOr([]);
      }
    }
  }
}
