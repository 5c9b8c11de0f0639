/**
 * The data shaping the dashboard page (frontend/src/pages/Dashboard.jsx) does on what it has
 * fetched: the search box filter, the CSV export (rows per expense, overall totals and a
 * per-category summary), the line items a trip form submits, the form seeded to edit a trip,
 * and the total shown on a trip card.
 *
 * Date formatting (`format(..., 'dd/MM/yyyy')`, `'yyyy-MM-dd'`) and money formatting
 * (`toFixed(2)`) are library calls passed in as functions.
 */
module DashboardPage {
  import opened Common
  import opened Text
  import opened Collections
  import opened Grouping
  import opened Csv
  import opened Store
  import opened TripsApi

  /** The category joined onto a listed expense. */
  datatype CategoryRef = CategoryRef(name: string, icon: string)

  /** An expense as the page lists it: the stored row with its category and its trip's name joined on. */
  datatype ListedExpense = ListedExpense(
    amount: int,
    description: Option<string>,
    date: string,
    category: Option<CategoryRef>,
    tripName: Option<string>,
    receiptUrl: Option<string>)

  // ----- search -----

  /** The search test for one expense against the lower-cased query. */
  predicate Matches(e: ListedExpense, query: string) {
    (e.description.Some? && Contains(LowerText(e.description.value), query)) ||
    (e.category.Some? && Contains(LowerText(e.category.value.name), query)) ||
    Contains(IntText(e.amount), query)
  }

  /** `filteredExpenses`: everything for an empty query, otherwise the matching expenses. */
  function Search(xs: seq<ListedExpense>, searchQuery: string): (r: seq<ListedExpense>)
    ensures searchQuery == "" ==> r == xs
    ensures searchQuery != "" ==> forall e :: e in r <==> e in xs && Matches(e, LowerText(searchQuery))
    ensures searchQuery != "" ==> forall e :: multiset(r)[e] == if Matches(e, LowerText(searchQuery)) then multiset(xs)[e] else 0
  {
    if searchQuery == "" then xs
    else
      FilterCounts(xs, (e: ListedExpense) => Matches(e, LowerText(searchQuery)));
      Filter(xs, (e: ListedExpense) => Matches(e, LowerText(searchQuery)))
  }

  /** The search keeps the listed order: its result is the list with some expenses deleted. */
  lemma SearchKeepsOrder(xs: seq<ListedExpense>, searchQuery: string)
    ensures Subsequence(Search(xs, searchQuery), xs)
  {
    if searchQuery == "" {
      SubsequenceOfItself(xs);
    } else {
      FilterIsSubsequence(xs, (e: ListedExpense) => Matches(e, LowerText(searchQuery)));
    }
  }

  // ----- export: category summary -----

  /** The label of an expense with no category (or a category without a name). */
  const Unassigned: string := "ไม่ระบุ"

  /** `exp.category?.name || 'ไม่ระบุ'`. */
  function CategoryLabel(e: ListedExpense): (r: string)
    ensures r != ""
    ensures e.category.None? ==> r == Unassigned
  {
    if e.category.Some? && e.category.value.name != "" then e.category.value.name else Unassigned
  }

  /** `exp.category?.icon || ''`. */
  function CategoryIcon(e: ListedExpense): string {
    if e.category.Some? then e.category.value.icon else ""
  }

  /** `parseFloat(exp.amount) || 0` for an amount that is already a number. */
  function ExportAmount(e: ListedExpense): int {
    e.amount
  }

  /** One entry of `categorySummary`. */
  datatype CategoryLine = CategoryLine(name: string, icon: string, count: int, total: int)

  /** The entry the summary holds for label `k`: the icon of the first expense with that label, and its count and total. */
  function LineFor(xs: seq<ListedExpense>, k: string): CategoryLine {
    var first := FirstOf(xs, CategoryLabel, k);
    CategoryLine(
      k,
      if first.Some? then CategoryIcon(first.value) else "",
      KeyCount(xs, CategoryLabel, k),
      KeyTotal(xs, CategoryLabel, ExportAmount, k))
  }

  /** `Object.values(categorySummary)`: one entry per label, in the order the labels first occur. */
  function SummaryLines(xs: seq<ListedExpense>): (r: seq<CategoryLine>)
    ensures |r| == |Keys(xs, CategoryLabel)|
    ensures forall i :: 0 <= i < |r| ==> r[i] == LineFor(xs, Keys(xs, CategoryLabel)[i])
  {
    var labels := Keys(xs, CategoryLabel);
    seq(|labels|, i requires 0 <= i < |labels| => LineFor(xs, labels[i]))
  }

  /** The `forEach` that fills `categorySummary`. */
  method CategorySummary(xs: seq<ListedExpense>) returns (r: seq<CategoryLine>)
    ensures r == SummaryLines(xs)
  {
    var groups := Accumulate(xs, CategoryLabel, ExportAmount);
    r := seq(|groups|, i requires 0 <= i < |groups| =>
      CategoryLine(groups[i].key, CategoryIcon(groups[i].first), groups[i].count, groups[i].total));
  }

  function LineCount(l: CategoryLine): int {
    l.count
  }

  function LineTotal(l: CategoryLine): int {
    l.total
  }

  /** The summary's counts add up to the number of exported expenses and its totals to their total. */
  lemma CategorySummaryConserves(xs: seq<ListedExpense>)
    ensures SumOf(SummaryLines(xs), LineCount) == |xs|
    ensures SumOf(SummaryLines(xs), LineTotal) == SumOf(xs, ExportAmount)
  {
    var r := SummaryLines(xs);
    var labels := Keys(xs, CategoryLabel);
    SumOfPointwise(r, LineTotal, labels, KeyTotalOf(xs, CategoryLabel, ExportAmount));
    GroupTotalsConserve(xs, CategoryLabel, ExportAmount);
    SumOfPointwise(r, LineCount, labels, KeyTotalOf(xs, CategoryLabel, One));
    GroupTotalsConserve(xs, CategoryLabel, One);
    OnesCount(xs);
  }

  /** Labels in the summary are pairwise distinct, and a label has an entry exactly when some expense carries it. */
  lemma CategorySummaryLabels(xs: seq<ListedExpense>)
    ensures var r := SummaryLines(xs);
      forall i, j :: 0 <= i < j < |r| ==> r[i].name != r[j].name
    ensures var r := SummaryLines(xs);
      forall i :: 0 <= i < |r| ==> exists p :: 0 <= p < |xs| && CategoryLabel(xs[p]) == r[i].name
    ensures var r := SummaryLines(xs);
      forall p :: 0 <= p < |xs| ==> exists i :: 0 <= i < |r| && r[i].name == CategoryLabel(xs[p])
  {
    var r := SummaryLines(xs);
    var labels := Keys(xs, CategoryLabel);
    KeysDistinct(xs, CategoryLabel);
    forall i | 0 <= i < |r|
      ensures exists p :: 0 <= p < |xs| && CategoryLabel(xs[p]) == r[i].name
    {
      KeysMembership(xs, CategoryLabel, labels[i]);
    }
    forall p | 0 <= p < |xs|
      ensures exists i :: 0 <= i < |r| && r[i].name == CategoryLabel(xs[p])
    {
      KeysMembership(xs, CategoryLabel, CategoryLabel(xs[p]));
      var i :| 0 <= i < |labels| && labels[i] == CategoryLabel(xs[p]);
      assert r[i].name == labels[i];
    }
  }

  /** The summary is empty exactly when nothing is exported. */
  lemma CategorySummaryEmpty(xs: seq<ListedExpense>)
    ensures SummaryLines(xs) == [] <==> xs == []
  {
    if xs != [] {
      KeysMembership(xs, CategoryLabel, CategoryLabel(xs[0]));
    }
  }

  // ----- export: rows -----

  const Headers: seq<string> := ["วันที่", "หมวดหมู่", "คำอธิบาย", "การเดินทาง", "จำนวนเงิน", "มีใบเสร็จ"]

  const SummaryTitle: string := "สรุป,รายการ,ยอดรวม (฿)"

  const CategoryTitle: string := "สรุปตามหมวดหมู่,จำนวนรายการ,ยอดรวม (฿)"

  /** `exp.description || 'ไม่มีคำอธิบาย'`. */
  function DescriptionText(e: ListedExpense): string {
    if Present(e.description) then e.description.value else "ไม่มีคำอธิบาย"
  }

  /** `exp.trip?.name || '-'`. */
  function TripText(e: ListedExpense): string {
    if Present(e.tripName) then e.tripName.value else "-"
  }

  /** `exp.receiptUrl ? 'มี' : 'ไม่มี'`. */
  function ReceiptText(e: ListedExpense): string {
    if Present(e.receiptUrl) then "มี" else "ไม่มี"
  }

  /** The six cells of an expense's row, before escaping. */
  function ExpenseCells(e: ListedExpense, day: string -> string, money: int -> string): (r: seq<string>)
    ensures |r| == |Headers|
  {
    [day(e.date), Trim(CategoryIcon(e) + " " + CategoryLabel(e)), DescriptionText(e), TripText(e), money(ExportAmount(e)),
     ReceiptText(e)]
  }

  /** The row of one expense: every cell escaped except the formatted amount. */
  function ExpenseRow(e: ListedExpense, day: string -> string, money: int -> string): string {
    var c := ExpenseCells(e, day, money);
    Join([EscapeCsv(c[0]), EscapeCsv(c[1]), EscapeCsv(c[2]), EscapeCsv(c[3]), c[4], EscapeCsv(c[5])], ",")
  }

  /** `filteredExpenses.map(...)`: one row per expense, in order. */
  function ExpenseRows(xs: seq<ListedExpense>, day: string -> string, money: int -> string): (r: seq<string>)
    ensures |r| == |xs| && forall i :: 0 <= i < |xs| ==> r[i] == ExpenseRow(xs[i], day, money)
  {
    seq(|xs|, i requires 0 <= i < |xs| => ExpenseRow(xs[i], day, money))
  }

  /** The overall-summary row: the number of expenses and their total. */
  function TotalsRow(count: int, total: int, money: int -> string): string {
    "จำนวนรายการทั้งหมด," + IntText(count) + "," + money(total)
  }

  /** The row of one summary entry; its label cell is escaped but not trimmed. */
  function CategoryRow(l: CategoryLine, money: int -> string): string {
    EscapeCsv(l.icon + " " + l.name) + "," + IntText(l.count) + "," + money(l.total)
  }

  /** `CategoryRow` with the money format fixed, as the `forEach` callback uses it. */
  function CategoryRowIn(money: int -> string): CategoryLine -> string {
    l => CategoryRow(l, money)
  }

  /** One row per element of `items`, in order. */
  function RowsOf<T>(items: seq<T>, row: T -> string): (r: seq<string>)
    ensures |r| == |items| && forall i :: 0 <= i < |items| ==> r[i] == row(items[i])
  {
    seq(|items|, i requires 0 <= i < |items| => row(items[i]))
  }

  /** One row per summary entry, in order. */
  function CategoryRows(lines: seq<CategoryLine>, money: int -> string): (r: seq<string>)
    ensures |r| == |lines| && forall i :: 0 <= i < |lines| ==> r[i] == CategoryRow(lines[i], money)
  {
    RowsOf(lines, CategoryRowIn(money))
  }

  /** The first part of the export file: the header, one row per expense in order, a blank row, the summary title and the totals. */
  function ExpensePart(xs: seq<ListedExpense>, day: string -> string, money: int -> string): (r: seq<string>)
    ensures |r| == |xs| + 4
  {
    [Join(Headers, ",")] + ExpenseRows(xs, day, money) + ["", SummaryTitle, TotalsRow(|xs|, SumOf(xs, ExportAmount), money)]
  }

  /** The second part, present when there is any expense: a blank row, the category title and one row per summary entry. */
  function CategoryPart(xs: seq<ListedExpense>, money: int -> string): (r: seq<string>)
    ensures |r| == if xs == [] then 0 else 2 + |Keys(xs, CategoryLabel)|
  {
    if xs == [] then [] else ["", CategoryTitle] + CategoryRows(SummaryLines(xs), money)
  }

  /** The rows of the export file. */
  function CsvRows(xs: seq<ListedExpense>, day: string -> string, money: int -> string): seq<string> {
    ExpensePart(xs, day, money) + CategoryPart(xs, money)
  }

  /** The first part opens with the header row and closes with a blank row, the summary title and the totals row. */
  lemma ExpensePartEnds(xs: seq<ListedExpense>, day: string -> string, money: int -> string)
    ensures var rows := ExpensePart(xs, day, money);
      rows[0] == Join(Headers, ",") &&
      rows[|xs| + 1] == "" && rows[|xs| + 2] == SummaryTitle && rows[|xs| + 3] == TotalsRow(|xs|, SumOf(xs, ExportAmount), money)
  {
  }

  /** Between them, row `1 + i` is the row of the `i`-th expense. */
  lemma ExpensePartRows(xs: seq<ListedExpense>, day: string -> string, money: int -> string)
    ensures var rows := ExpensePart(xs, day, money);
      forall i :: 0 <= i < |xs| ==> rows[1 + i] == ExpenseRow(xs[i], day, money)
  {
    forall i | 0 <= i < |xs|
      ensures ExpensePart(xs, day, money)[1 + i] == ExpenseRow(xs[i], day, money)
    {
      ExpensePartRow(xs, day, money, i);
    }
  }

  lemma ExpensePartRow(xs: seq<ListedExpense>, day: string -> string, money: int -> string, i: int)
    requires 0 <= i < |xs|
    ensures ExpensePart(xs, day, money)[1 + i] == ExpenseRow(xs[i], day, money)
  {
    var rows := ExpenseRows(xs, day, money);
    MiddleIndex([Join(Headers, ",")], rows, ["", SummaryTitle, TotalsRow(|xs|, SumOf(xs, ExportAmount), money)], i);
  }

  /** Indexing into the middle of a three-part concatenation. */
  lemma MiddleIndex<T>(head: seq<T>, mid: seq<T>, tail: seq<T>, i: int)
    requires 0 <= i < |mid|
    ensures (head + mid + tail)[|head| + i] == mid[i]
  {
  }

  /** The second part is a blank row, the category title, then row `2 + j` for the `j`-th label in first-seen order. */
  lemma CategoryPartLayout(xs: seq<ListedExpense>, money: int -> string)
    requires xs != []
    ensures var rows := CategoryPart(xs, money);
      rows[0] == "" && rows[1] == CategoryTitle &&
      forall j :: 0 <= j < |Keys(xs, CategoryLabel)| ==> rows[2 + j] == CategoryRow(LineFor(xs, Keys(xs, CategoryLabel)[j]), money)
  {
    forall j | 0 <= j < |Keys(xs, CategoryLabel)|
      ensures CategoryPart(xs, money)[2 + j] == CategoryRow(LineFor(xs, Keys(xs, CategoryLabel)[j]), money)
    {
      CategoryPartRow(xs, money, j);
    }
  }

  lemma CategoryPartRow(xs: seq<ListedExpense>, money: int -> string, j: int)
    requires xs != [] && 0 <= j < |Keys(xs, CategoryLabel)|
    ensures CategoryPart(xs, money)[2 + j] == CategoryRow(LineFor(xs, Keys(xs, CategoryLabel)[j]), money)
  {
    var lines := SummaryLines(xs);
    assert lines[j] == LineFor(xs, Keys(xs, CategoryLabel)[j]);
    var rows := CategoryRows(lines, money);
    assert rows[j] == CategoryRow(lines[j], money);
    assert CategoryPart(xs, money)[2 + j] == rows[j];
  }

  /** A `forEach` pushing one row per element of `items` onto `rows`. */
  method PushRows<T>(rows: seq<string>, items: seq<T>, row: T -> string) returns (out: seq<string>)
    ensures out == rows + RowsOf(items, row)
  {
    out := rows;
    for j := 0 to |items|
      invariant out == rows + RowsOf(items[..j], row)
    {
      assert RowsOf(items[..j + 1], row) == RowsOf(items[..j], row) + [row(items[j])];
      out := out + [row(items[j])];
    }
    assert items[..|items|] == items;
  }

  /** `exportExpenses` building `csvRows`. */
  method ExportRows(xs: seq<ListedExpense>, day: string -> string, money: int -> string) returns (rows: seq<string>)
    ensures rows == CsvRows(xs, day, money)
  {
    var summary := CategorySummary(xs);
    var totalAmount := SumOf(xs, ExportAmount);
    rows := [Join(Headers, ",")] + ExpenseRows(xs, day, money) + ["", SummaryTitle, TotalsRow(|xs|, totalAmount, money)];
    CategorySummaryEmpty(xs);
    if |summary| > 0 {
      rows := PushRows(rows + ["", CategoryTitle], summary, CategoryRowIn(money));
    }
  }

  // ----- trip form -----

  /** One line item of the trip form; every input holds text. */
  datatype FormItem = FormItem(id: Option<Id>, amount: string, description: string, date: string, categoryId: string)

  /** `exp.amount && exp.categoryId`. */
  predicate Filled(item: FormItem) {
    item.amount != "" && item.categoryId != ""
  }

  /** The line items a trip form submits: those with an amount and a category. */
  function SubmittedItems(items: seq<FormItem>): (r: seq<FormItem>)
    ensures forall x :: x in r <==> x in items && Filled(x)
    ensures forall x :: multiset(r)[x] == if Filled(x) then multiset(items)[x] else 0
  {
    FilterCounts(items, Filled);
    Filter(items, Filled)
  }

  /** The submitted items keep the order of the form. */
  lemma SubmittedItemsKeepOrder(items: seq<FormItem>)
    ensures Subsequence(SubmittedItems(items), items)
  {
    FilterIsSubsequence(items, Filled);
  }

  /** The trip form's fields. */
  datatype TripForm = TripForm(name: string, description: string, startDate: string, endDate: string, items: seq<FormItem>)

  /**
   * `handleEditTrip`: the form seeded from a listed trip. It holds one line item: the trip's
   * first expense when it has any, otherwise a blank item dated `today` in the first category.
   */
  function EditTripForm(v: TripView, day: string -> string, today: string, firstCategory: string): (r: TripForm)
    ensures r.name == v.trip.name
    ensures r.description == (if Present(v.trip.description) then v.trip.description.value else "")
    ensures r.startDate == day(v.trip.startDate)
    ensures r.endDate == (if Present(v.trip.endDate) then day(v.trip.endDate.value) else "")
    ensures |r.items| == 1
    ensures r.items[0].id.Some? <==> v.expenses != []
    ensures v.expenses != [] ==> r.items[0].id == Some(v.expenses[0].id)
    ensures v.expenses != [] ==> r.items[0].amount == IntText(v.expenses[0].amount)
    ensures v.expenses != [] ==>
              r.items[0].description == (if Present(v.expenses[0].description) then v.expenses[0].description.value else "")
    ensures v.expenses != [] ==> r.items[0].date == day(v.expenses[0].date)
    ensures v.expenses != [] ==> r.items[0].categoryId == IntText(v.expenses[0].categoryId)
    ensures v.expenses == [] ==> r.items[0] == FormItem(None, "", "", today, firstCategory)
  {
    var item :=
      if v.expenses != [] then
        var e := v.expenses[0];
        FormItem(Some(e.id), IntText(e.amount), if Present(e.description) then e.description.value else "", day(e.date),
          IntText(e.categoryId))
      else FormItem(None, "", "", today, firstCategory);
    TripForm(
      v.trip.name,
      if Present(v.trip.description) then v.trip.description.value else "",
      day(v.trip.startDate),
      if Present(v.trip.endDate) then day(v.trip.endDate.value) else "",
      [item])
  }

  /**
   * Submitting the seeded form unchanged sends the trip's first expense back as its one line
   * item, and sends no line item for a trip without expenses.
   */
  lemma EditedFormSubmitsSeededItem(v: TripView, day: string -> string, today: string, firstCategory: string)
    ensures var f := EditTripForm(v, day, today, firstCategory);
      SubmittedItems(f.items) == (if v.expenses != [] then f.items else [])
  {
    var f := EditTripForm(v, day, today, firstCategory);
    assert f.items == [] + [f.items[0]];
    assert Filter(f.items, Filled) == Filter([], Filled) + (if Filled(f.items[0]) then [f.items[0]] else []);
  }

  // ----- trip card -----

  function ExpenseAmount(e: Expense): int {
    e.amount
  }

  /** `trip.expenses?.reduce((sum, exp) => sum + exp.amount, 0) || 0`. */
  function TripTotal(expenses: Option<seq<Expense>>): (r: int)
    ensures expenses.None? || expenses.value == [] ==> r == 0
  {
    if expenses.None? then 0 else SumOf(expenses.value, ExpenseAmount)
  }

  /** A trip with one expense shows that expense's amount; with `TripTotalSplits`, the total is the sum of the amounts. */
  lemma TripTotalSingle(e: Expense)
    ensures TripTotal(Some([e])) == e.amount
  {
    SumOfSingleton(e, ExpenseAmount);
  }

  /** The total of a trip is the sum of the amounts of its expenses, one by one from the front. */
  lemma {:induction false} TripTotalIsSum(es: seq<Expense>)
    ensures es != [] ==> TripTotal(Some(es)) == es[0].amount + TripTotal(Some(es[1..]))
  {
    if es != [] {
      assert es == [es[0]] + es[1..];
      TripTotalSplits([es[0]], es[1..]);
      TripTotalSingle(es[0]);
    }
  }

  /** A trip card's total does not depend on the order of the trip's expenses. */
  lemma TripTotalIgnoresOrder(a: seq<Expense>, b: seq<Expense>)
    requires multiset(a) == multiset(b)
    ensures TripTotal(Some(a)) == TripTotal(Some(b))
  {
    SumOfPermutation(a, b, ExpenseAmount);
  }

  /** Splitting a trip's expenses in two splits its total in two. */
  lemma TripTotalSplits(a: seq<Expense>, b: seq<Expense>)
    ensures TripTotal(Some(a + b)) == TripTotal(Some(a)) + TripTotal(Some(b))
  {
    SumOfAppend(a, b, ExpenseAmount);
  }
}
