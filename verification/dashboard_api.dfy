/**
 * `GET /api/dashboard/summary`: the caller's expenses, optionally restricted to a date range,
 * folded into a grand total, a transaction count, a per-category breakdown in first-seen
 * order and a per-day breakdown sorted by day.
 */
module DashboardApi {
  import opened Common
  import opened Text
  import opened Collections
  import opened Grouping
  import opened Store

  datatype CategoryInfo = CategoryInfo(name: string, icon: string, color: string)

  /** An expense as the summary query returns it (`include: { category: true }`), reduced to the fields the summary reads. */
  datatype Item = Item(amount: int, date: string, category: CategoryInfo)

  datatype CategoryTotal = CategoryTotal(name: string, icon: string, color: string, total: int, count: int)

  datatype DayTotal = DayTotal(date: string, total: int)

  datatype Summary = Summary(totalExpense: int, totalTransactions: int, byCategory: seq<CategoryTotal>, byDate: seq<DayTotal>)

  function Amount(x: Item): int {
    x.amount
  }

  /** The `byCategory` key: the category's name. */
  function CategoryName(x: Item): string {
    x.category.name
  }

  /** The `byDate` key: `exp.date.toISOString().split('T')[0]`. */
  function Day(x: Item): string {
    DatePart(x.date)
  }

  function TotalOf(c: CategoryTotal): int {
    c.total
  }

  function CountOf(c: CategoryTotal): int {
    c.count
  }

  function DayTotalOf(d: DayTotal): int {
    d.total
  }

  function DatesOf(bd: seq<DayTotal>): (r: seq<string>)
    ensures |r| == |bd| && forall i :: 0 <= i < |bd| ==> r[i] == bd[i].date
  {
    seq(|bd|, i requires 0 <= i < |bd| => bd[i].date)
  }

  /** `bc` is the per-category breakdown of `items`: one entry per name, in first-seen order, icon and colour from the first expense seen. */
  ghost predicate IsByCategory(items: seq<Item>, bc: seq<CategoryTotal>) {
    var names := Keys(items, CategoryName);
    |bc| == |names| &&
    forall i :: 0 <= i < |bc| ==>
      bc[i].name == names[i] &&
      FirstOf(items, CategoryName, names[i]).Some? &&
      bc[i].icon == FirstOf(items, CategoryName, names[i]).value.category.icon &&
      bc[i].color == FirstOf(items, CategoryName, names[i]).value.category.color &&
      bc[i].total == KeyTotal(items, CategoryName, Amount, names[i]) &&
      bc[i].count == KeyCount(items, CategoryName, names[i])
  }

  /** Each text is strictly before the next in code-unit order. */
  ghost predicate StrictlyAscending(s: seq<string>) {
    forall i, j :: 0 <= i < j < |s| ==> LexLe(s[i], s[j]) && s[i] != s[j]
  }

  /** `bd` is the per-day breakdown of `items`: one entry per day that occurs, strictly ascending, with that day's total. */
  ghost predicate IsByDate(items: seq<Item>, bd: seq<DayTotal>) {
    StrictlyAscending(DatesOf(bd)) &&
    (forall d :: d in DatesOf(bd) <==> d in Keys(items, Day)) &&
    forall i :: 0 <= i < |bd| ==> bd[i].total == KeyTotal(items, Day, Amount, bd[i].date)
  }

  /** Everything the handler's JSON response promises about `items`. */
  ghost predicate IsSummary(items: seq<Item>, r: Summary) {
    r.totalExpense == SumOf(items, Amount) &&
    r.totalTransactions == |items| &&
    IsByCategory(items, r.byCategory) &&
    IsByDate(items, r.byDate)
  }

  /** The comparator of the `byDate` sort: calendar days in `YYYY-MM-DD` form order like their text. */
  predicate DayBefore(a: DayTotal, b: DayTotal) {
    LexLe(a.date, b.date)
  }

  lemma DayBeforeOrders()
    ensures TotalRelation(DayBefore) && TransitiveRelation(DayBefore)
  {
    forall x: DayTotal, y: DayTotal
      ensures DayBefore(x, y) || DayBefore(y, x)
    {
      LexLeTotal(x.date, y.date);
    }
    forall x: DayTotal, y: DayTotal, z: DayTotal | DayBefore(x, y) && DayBefore(y, z)
      ensures DayBefore(x, z)
    {
      LexLeTransitive(x.date, y.date, z.date);
    }
  }

  /** The body of the handler after the query: the total, the count and the two accumulating reductions. */
  method Summarize(items: seq<Item>) returns (r: Summary)
    ensures IsSummary(items, r)
    ensures items == [] ==> r == Summary(0, 0, [], [])
  {
    var cats := Accumulate(items, CategoryName, Amount);
    var byCategory := seq(|cats|, i requires 0 <= i < |cats| =>
      CategoryTotal(cats[i].key, cats[i].first.category.icon, cats[i].first.category.color, cats[i].total, cats[i].count));
    var days := Accumulate(items, Day, Amount);
    var unsorted := seq(|days|, i requires 0 <= i < |days| => DayTotal(days[i].key, days[i].total));
    var byDate := SortBy(unsorted, DayBefore);
    SortedDaysAreByDate(items, unsorted, byDate);
    r := Summary(SumOf(items, Amount), |items|, byCategory, byDate);
  }

  /** Sorting the per-day groups by day yields the per-day breakdown. */
  lemma SortedDaysAreByDate(items: seq<Item>, unsorted: seq<DayTotal>, byDate: seq<DayTotal>)
    requires |unsorted| == |Keys(items, Day)|
    requires forall i :: 0 <= i < |unsorted| ==>
      unsorted[i].date == Keys(items, Day)[i] && unsorted[i].total == KeyTotal(items, Day, Amount, unsorted[i].date)
    requires byDate == SortBy(unsorted, DayBefore)
    ensures IsByDate(items, byDate)
  {
    KeysDistinct(items, Day);
    DayBeforeOrders();
    SortBySorted(unsorted, DayBefore);
    PermutationSameElements(unsorted, byDate);
    UniqueDatesSurviveSort(unsorted, byDate);
    SortedDaysKeepDates(items, unsorted, byDate);
    SortedDaysKeepTotals(items, unsorted, byDate);
  }

  lemma SortedDaysKeepDates(items: seq<Item>, unsorted: seq<DayTotal>, byDate: seq<DayTotal>)
    requires |unsorted| == |Keys(items, Day)|
    requires forall i :: 0 <= i < |unsorted| ==> unsorted[i].date == Keys(items, Day)[i]
    requires forall x :: x in unsorted <==> x in byDate
    ensures forall d :: d in DatesOf(byDate) <==> d in Keys(items, Day)
  {
    var keys := Keys(items, Day);
    var dates := DatesOf(byDate);
    forall d
      ensures d in dates <==> d in keys
    {
      if d in dates {
        var i :| 0 <= i < |dates| && dates[i] == d;
        assert byDate[i] in unsorted;
      }
      if d in keys {
        var p :| 0 <= p < |keys| && keys[p] == d;
        assert unsorted[p] in byDate;
        var i :| 0 <= i < |byDate| && byDate[i] == unsorted[p];
        assert dates[i] == d;
      }
    }
  }

  lemma SortedDaysKeepTotals(items: seq<Item>, unsorted: seq<DayTotal>, byDate: seq<DayTotal>)
    requires forall i :: 0 <= i < |unsorted| ==> unsorted[i].total == KeyTotal(items, Day, Amount, unsorted[i].date)
    requires forall x :: x in unsorted <==> x in byDate
    ensures forall i :: 0 <= i < |byDate| ==> byDate[i].total == KeyTotal(items, Day, Amount, byDate[i].date)
  {
    forall i | 0 <= i < |byDate|
      ensures byDate[i].total == KeyTotal(items, Day, Amount, byDate[i].date)
    {
      assert byDate[i] in unsorted;
    }
  }

  /** Reordering day groups whose dates are pairwise different keeps their dates pairwise different. */
  lemma UniqueDatesSurviveSort(unsorted: seq<DayTotal>, sorted: seq<DayTotal>)
    requires multiset(unsorted) == multiset(sorted)
    requires forall p, q :: 0 <= p < q < |unsorted| ==> unsorted[p].date != unsorted[q].date
    ensures forall i, j :: 0 <= i < j < |sorted| ==> sorted[i].date != sorted[j].date
  {
    assert Distinct(unsorted);
    PermutationKeepsDistinct(unsorted, sorted);
    PermutationSameElements(unsorted, sorted);
    forall i, j | 0 <= i < j < |sorted|
      ensures sorted[i].date != sorted[j].date
    {
      assert sorted[i] in unsorted && sorted[j] in unsorted;
    }
  }

  /** Conservation: the category totals add up to `totalExpense` and the counts to `totalTransactions`. */
  lemma {:induction false} CategoryTotalsConserve(items: seq<Item>, bc: seq<CategoryTotal>)
    requires IsByCategory(items, bc)
    ensures SumOf(bc, TotalOf) == SumOf(items, Amount)
    ensures SumOf(bc, CountOf) == |items|
  {
    var names := Keys(items, CategoryName);
    SumOfPointwise(bc, TotalOf, names, KeyTotalOf(items, CategoryName, Amount));
    GroupTotalsConserve(items, CategoryName, Amount);
    SumOfPointwise(bc, CountOf, names, KeyTotalOf(items, CategoryName, One));
    GroupTotalsConserve(items, CategoryName, One);
    OnesCount(items);
  }

  /** No category name appears twice in `byCategory`. */
  lemma CategoryNamesDistinct(items: seq<Item>, bc: seq<CategoryTotal>, i: nat, j: nat)
    requires IsByCategory(items, bc)
    requires i < j < |bc|
    ensures bc[i].name != bc[j].name
  {
    KeysDistinct(items, CategoryName);
  }

  /** `byCategory` has an entry for a name exactly when some summarised expense has a category of that name. */
  lemma CategoryEntryPerName(items: seq<Item>, bc: seq<CategoryTotal>, name: string)
    requires IsByCategory(items, bc)
    ensures (exists i :: 0 <= i < |bc| && bc[i].name == name) <==>
      (exists q :: 0 <= q < |items| && items[q].category.name == name)
  {
    var names := Keys(items, CategoryName);
    KeysMembership(items, CategoryName, name);
    if exists q :: 0 <= q < |items| && items[q].category.name == name {
      assert exists q :: 0 <= q < |items| && CategoryName(items[q]) == name;
      var i :| 0 <= i < |names| && names[i] == name;
      assert bc[i].name == name;
    }
    if exists i :: 0 <= i < |bc| && bc[i].name == name {
      var i :| 0 <= i < |bc| && bc[i].name == name;
      assert names[i] == name;
      var q :| 0 <= q < |items| && CategoryName(items[q]) == name;
      assert items[q].category.name == name;
    }
  }

  /** An entry's icon and colour are those of the first summarised expense with its name. */
  lemma CategoryStyleFromFirstSeen(items: seq<Item>, bc: seq<CategoryTotal>, i: nat)
    requires IsByCategory(items, bc)
    requires i < |bc|
    ensures exists j ::
      0 <= j < |items| &&
      items[j].category == CategoryInfo(bc[i].name, bc[i].icon, bc[i].color) &&
      (forall p :: 0 <= p < j ==> items[p].category.name != bc[i].name)
  {
    var name := Keys(items, CategoryName)[i];
    FirstOfIsFirst(items, CategoryName, name);
    var j :| 0 <= j < |items| && items[j] == FirstOf(items, CategoryName, name).value &&
      CategoryName(items[j]) == name && forall p :: 0 <= p < j ==> CategoryName(items[p]) != name;
    assert items[j].category == CategoryInfo(bc[i].name, bc[i].icon, bc[i].color);
  }

  /** `byCategory` lists names in order of first occurrence: an earlier entry's name occurs before any occurrence of a later one's. */
  lemma CategoriesInFirstSeenOrder(items: seq<Item>, bc: seq<CategoryTotal>, i: nat, j: nat, q: nat)
    requires IsByCategory(items, bc)
    requires i < j < |bc| && q < |items| && items[q].category.name == bc[j].name
    ensures exists p :: 0 <= p < q && items[p].category.name == bc[i].name
  {
    KeysInFirstOccurrenceOrder(items, CategoryName, i, j, q);
    var p :| 0 <= p < q && CategoryName(items[p]) == Keys(items, CategoryName)[i];
    assert items[p].category.name == bc[i].name;
  }

  /** Conservation: the per-day totals add up to `totalExpense`. */
  lemma DayTotalsConserve(items: seq<Item>, bd: seq<DayTotal>)
    requires IsByDate(items, bd)
    ensures SumOf(bd, DayTotalOf) == SumOf(items, Amount)
  {
    var dates := DatesOf(bd);
    var keys := Keys(items, Day);
    KeysDistinct(items, Day);
    assert Distinct(dates);
    SameElementsPermutation(dates, keys);
    SumOfPermutation(dates, keys, KeyTotalOf(items, Day, Amount));
    SumOfPointwise(bd, DayTotalOf, dates, KeyTotalOf(items, Day, Amount));
    GroupTotalsConserve(items, Day, Amount);
  }

  lemma BothEmptyOrNeither<T>(a: seq<T>, b: seq<T>)
    requires forall x :: x in a <==> x in b
    ensures a == [] <==> b == []
  {
    if a != [] {
      assert a[0] in a;
    }
    if b != [] {
      assert b[0] in b;
    }
  }

  /** Two strictly ascending lists of the same texts are the same list. */
  lemma {:induction false} AscendingUnique(a: seq<string>, b: seq<string>)
    requires StrictlyAscending(a) && StrictlyAscending(b)
    requires forall x :: x in a <==> x in b
    ensures a == b
    decreases |a|
  {
    BothEmptyOrNeither(a, b);
    if a != [] {
      assert a[0] in b;
      var j :| 0 <= j < |b| && b[j] == a[0];
      assert b[0] in a;
      var i :| 0 <= i < |a| && a[i] == b[0];
      if i != 0 {
        assert j != 0;
        LexLeAntisymmetric(a[0], a[i]);
      }
      assert a[0] == b[0];
      forall x
        ensures x in a[1..] <==> x in b[1..]
      {
        if x in a[1..] {
          var k :| 0 <= k < |a[1..]| && a[1..][k] == x;
          assert a[k + 1] == x && x != a[0];
          assert x in b;
          var m :| 0 <= m < |b| && b[m] == x;
          assert m != 0;
          assert b[1..][m - 1] == x;
        }
        if x in b[1..] {
          var k :| 0 <= k < |b[1..]| && b[1..][k] == x;
          assert b[k + 1] == x && x != b[0];
          assert x in a;
          var m :| 0 <= m < |a| && a[m] == x;
          assert m != 0;
          assert a[1..][m - 1] == x;
        }
      }
      AscendingUnique(a[1..], b[1..]);
      assert a == [a[0]] + a[1..] && b == [b[0]] + b[1..];
    }
  }

  /** The per-day breakdown is determined by the multiset of summarised expenses: the order the store returns them in does not matter. */
  lemma ByDateIgnoresOrder(items: seq<Item>, items': seq<Item>, bd: seq<DayTotal>, bd': seq<DayTotal>)
    requires multiset(items) == multiset(items')
    requires IsByDate(items, bd) && IsByDate(items', bd')
    ensures bd == bd'
  {
    forall d
      ensures d in DatesOf(bd) <==> d in DatesOf(bd')
    {
      KeysAndTotalsIgnoreOrder(items, items', Day, Amount, d);
    }
    AscendingUnique(DatesOf(bd), DatesOf(bd'));
    forall i | 0 <= i < |bd|
      ensures bd[i] == bd'[i]
    {
      assert DatesOf(bd)[i] == DatesOf(bd')[i];
      KeysAndTotalsIgnoreOrder(items, items', Day, Amount, bd[i].date);
    }
  }

  /** The expenses the summary query selects, in the store's order. */
  function SummaryRows(db: Db, caller: Id, startDate: Option<string>, endDate: Option<string>): (r: seq<Expense>)
    reads db
    requires db.Valid()
    ensures forall e :: e in r <==>
      (exists id :: id in db.expenses && db.expenses[id] == e) && e.userId == caller && InDateRange(e.date, startDate, endDate)
    ensures Distinct(r)
  {
    FilteredRowsDistinct(db.expenses, db.nextId, (e: Expense) => e.id, (e: Expense) => e.userId == caller && InDateRange(e.date, startDate, endDate));
    Filter(Rows(db.expenses, db.nextId), (e: Expense) => e.userId == caller && InDateRange(e.date, startDate, endDate))
  }

  /** Each selected expense together with its category (`include: { category: true }`). */
  function Joined(db: Db, rows: seq<Expense>): (r: seq<Item>)
    reads db
    requires forall e :: e in rows ==> e.categoryId in db.categories
    ensures |r| == |rows|
    ensures forall i :: 0 <= i < |rows| ==>
      r[i].amount == rows[i].amount && r[i].date == rows[i].date &&
      r[i].category == CategoryInfo(db.categories[rows[i].categoryId].name,
                                    db.categories[rows[i].categoryId].icon,
                                    db.categories[rows[i].categoryId].color)
  {
    var categories := db.categories;
    seq(|rows|, i requires 0 <= i < |rows| =>
      var c := categories[rows[i].categoryId];
      Item(rows[i].amount, rows[i].date, CategoryInfo(c.name, c.icon, c.color)))
  }

  /** `GET /summary`. */
  method GetSummary(db: Db, caller: Id, startDate: Option<string>, endDate: Option<string>) returns (r: Summary)
    requires db.Valid()
    ensures IsSummary(Joined(db, SummaryRows(db, caller, startDate, endDate)), r)
  {
    var rows := SummaryRows(db, caller, startDate, endDate);
    r := Summarize(Joined(db, rows));
  }
}
