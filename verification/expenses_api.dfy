/**
 * `/api/expenses`: the caller's expenses filtered and ordered by query parameters, and
 * create, update and delete of single expenses. Update and delete address the row by id
 * alone; the caller's identity plays no part in them.
 */
module ExpensesApi {
  import opened Common
  import opened Text
  import opened Collections
  import opened Store

  /** The query string of `GET /`; `None` is a parameter that was not sent. */
  datatype ExpenseQuery = ExpenseQuery(
    startDate: Option<string>,
    endDate: Option<string>,
    categoryId: Option<Id>,
    sortBy: Option<string>,
    sortOrder: Option<string>)

  datatype Column = DateColumn | AmountColumn

  datatype Direction = Asc | Desc

  datatype Order = Order(column: Column, direction: Direction)

  /**
   * `orderBy[sortBy || 'date'] = sortOrder || 'desc'`. A column other than `date` or `amount`,
   * or a direction other than `asc` or `desc`, yields `None`.
   */
  function OrderOf(sortBy: Option<string>, sortOrder: Option<string>): (r: Option<Order>)
    ensures !Present(sortBy) && !Present(sortOrder) ==> r == Some(Order(DateColumn, Desc))
    ensures r.Some? <==>
      (!Present(sortBy) || sortBy.value == "date" || sortBy.value == "amount") &&
      (!Present(sortOrder) || sortOrder.value == "asc" || sortOrder.value == "desc")
    ensures r.Some? ==> (r.value.column == AmountColumn <==> Present(sortBy) && sortBy.value == "amount")
    ensures r.Some? ==> (r.value.direction == Asc <==> Present(sortOrder) && sortOrder.value == "asc")
  {
    var column := if Present(sortBy) then sortBy.value else "date";
    var direction := if Present(sortOrder) then sortOrder.value else "desc";
    if column != "date" && column != "amount" then None
    else if direction != "asc" && direction != "desc" then None
    else Some(Order(if column == "date" then DateColumn else AmountColumn, if direction == "asc" then Asc else Desc))
  }

  /** `a` may be listed before `b` under `o`. */
  predicate Precedes(o: Order, a: Expense, b: Expense) {
    match (o.column, o.direction)
    case (DateColumn, Asc) => LexLe(a.date, b.date)
    case (DateColumn, Desc) => LexLe(b.date, a.date)
    case (AmountColumn, Asc) => a.amount <= b.amount
    case (AmountColumn, Desc) => b.amount <= a.amount
  }

  /** `Precedes` as the comparator value handed to the sort. */
  function Before(o: Order): (Expense, Expense) -> bool {
    (a, b) => Precedes(o, a, b)
  }

  lemma BeforeOrders(o: Order)
    ensures TotalRelation(Before(o)) && TransitiveRelation(Before(o))
  {
    forall x: Expense, y: Expense
      ensures Precedes(o, x, y) || Precedes(o, y, x)
    {
      LexLeTotal(x.date, y.date);
    }
    forall x: Expense, y: Expense, z: Expense | Precedes(o, x, y) && Precedes(o, y, z)
      ensures Precedes(o, x, z)
    {
      if o.column == DateColumn {
        if o.direction == Asc {
          LexLeTransitive(x.date, y.date, z.date);
        } else {
          LexLeTransitive(z.date, y.date, x.date);
        }
      }
    }
  }

  /** The `where` clause: owned by the caller, in the date range, and in the requested category if one was given. */
  predicate Selected(e: Expense, caller: Id, q: ExpenseQuery) {
    e.userId == caller &&
    InDateRange(e.date, q.startDate, q.endDate) &&
    (q.categoryId.Some? ==> e.categoryId == q.categoryId.value)
  }

  /** The rows the `where` clause selects, in the store's order. */
  function SelectedRows(db: Db, caller: Id, q: ExpenseQuery): (r: seq<Expense>)
    reads db
    ensures forall e :: e in r <==>
      (exists id :: id in db.expenses && id < db.nextId && db.expenses[id] == e) && Selected(e, caller, q)
    ensures db.Valid() ==> Distinct(r)
  {
    FilteredRowsDistinct(db.expenses, db.nextId, (e: Expense) => e.id, (e: Expense) => Selected(e, caller, q));
    Filter(Rows(db.expenses, db.nextId), (e: Expense) => Selected(e, caller, q))
  }

  /** `GET /`. */
  function ListExpenses(db: Db, caller: Id, q: ExpenseQuery): (r: Result<seq<Expense>, ApiError>)
    reads db
    requires db.Valid()
    ensures r.Err? <==> OrderOf(q.sortBy, q.sortOrder).None?
    ensures r.Err? ==> r.error == ServerError
    ensures r.Ok? ==> forall e :: e in r.value <==>
      (exists id :: id in db.expenses && db.expenses[id] == e) && Selected(e, caller, q)
    ensures r.Ok? ==> Sorted(r.value, Before(OrderOf(q.sortBy, q.sortOrder).value))
    ensures r.Ok? ==> Distinct(r.value)
  {
    var order := OrderOf(q.sortBy, q.sortOrder);
    if order.None? then Err(ServerError)
    else
      var rows := SelectedRows(db, caller, q);
      BeforeOrders(order.value);
      SortBySorted(rows, Before(order.value));
      PermutationSameElements(rows, SortBy(rows, Before(order.value)));
      PermutationKeepsDistinct(rows, SortBy(rows, Before(order.value)));
      Ok(SortBy(rows, Before(order.value)))
  }

  /** The body of `POST /` and `PUT /:id`. */
  datatype ExpenseBody = ExpenseBody(
    amount: Field<string>,
    description: Field<string>,
    date: Field<string>,
    categoryId: Field<Id>,
    receiptUrl: Field<string>,
    tripId: Field<Id>)

  /** `amount`, `categoryId` and `date` are all truthy. */
  predicate HasRequired(b: ExpenseBody) {
    Truthy(b.amount) && b.categoryId.Value? && Truthy(b.date)
  }

  /** The row `POST /` asks the store to create under `id`, or the error it answers with before reaching the store. */
  function NewExpense(id: Id, b: ExpenseBody, caller: Id, parse: string -> Option<int>): (r: Result<Expense, ApiError>)
    ensures !HasRequired(b) ==> r == Err(MissingFields)
    ensures HasRequired(b) ==> (r.Ok? <==> parse(b.amount.v).Some?)
    ensures r.Err? ==> r.error == MissingFields || r.error == ServerError
    ensures r.Ok? ==>
      var e := r.value;
      e.id == id && e.userId == caller &&
      Some(e.amount) == parse(b.amount.v) && e.date == b.date.v && e.categoryId == b.categoryId.v &&
      (e.description.None? <==> !Truthy(b.description)) &&
      (e.description.Some? ==> e.description.value == b.description.v) &&
      (e.receiptUrl.None? <==> !Truthy(b.receiptUrl)) &&
      (e.receiptUrl.Some? ==> e.receiptUrl.value == b.receiptUrl.v) &&
      (e.tripId.None? <==> !b.tripId.Value?) &&
      (e.tripId.Some? ==> e.tripId.value == b.tripId.v)
  {
    if !HasRequired(b) then Err(MissingFields)
    else
      var amount := parse(b.amount.v);
      if amount.None? then Err(ServerError)
      else
        Ok(Expense(
          id, amount.value, OrNull(b.description), b.date.v, b.categoryId.v, OrNull(b.receiptUrl),
          if b.tripId.Value? then Some(b.tripId.v) else None, caller))
  }

  /** The store accepts the row: its category exists and so does its trip, if it names one. */
  predicate Linkable(db: Db, e: Expense)
    reads db
  {
    e.categoryId in db.categories && (e.tripId.Some? ==> e.tripId.value in db.trips)
  }

  /** `POST /`. */
  method CreateExpense(db: Db, caller: Id, b: ExpenseBody, parse: string -> Option<int>) returns (r: Result<Expense, ApiError>)
    requires db.Valid()
    modifies db
    ensures db.Valid()
    ensures !HasRequired(b) ==> r == Err(MissingFields)
    ensures r.Ok? <==> NewExpense(old(db.nextId), b, caller, parse).Ok? && Linkable(db, NewExpense(old(db.nextId), b, caller, parse).value)
    ensures r.Ok? ==> r == NewExpense(old(db.nextId), b, caller, parse) && db.expenses == old(db.expenses)[r.value.id := r.value]
    ensures r.Ok? ==> r.value.id !in old(db.expenses)
    ensures r.Err? ==> db.expenses == old(db.expenses)
    ensures db.users == old(db.users) && db.categories == old(db.categories) && db.trips == old(db.trips)
  {
    var data := NewExpense(db.nextId, b, caller, parse);
    if data.Err? {
      return data;
    }
    if !Linkable(db, data.value) {
      return Err(ServerError);
    }
    var id := db.NewId();
    db.expenses := db.expenses[id := data.value];
    r := data;
  }

  /** The row `PUT /:id` asks the store to write over `e`, or `None` when the store refuses the data. */
  function UpdatedExpense(e: Expense, b: ExpenseBody, parse: string -> Option<int>): (r: Option<Expense>)
    ensures r.Some? <==> StoredAmount(b.amount, parse).Some? && !b.date.Absent? && !b.categoryId.Null?
    ensures r.Some? ==>
      var u := r.value;
      u.id == e.id && u.userId == e.userId &&
      Some(u.amount) == StoredAmount(b.amount, parse) && Some(u.date) == StoredDate(b.date) &&
      (b.categoryId.Absent? ==> u.categoryId == e.categoryId) &&
      (b.categoryId.Value? ==> u.categoryId == b.categoryId.v) &&
      u.description == Assign(e.description, b.description) &&
      u.receiptUrl == Assign(e.receiptUrl, b.receiptUrl) &&
      (u.tripId.None? <==> !b.tripId.Value?) &&
      (u.tripId.Some? ==> u.tripId.value == b.tripId.v)
  {
    var amount := StoredAmount(b.amount, parse);
    var date := StoredDate(b.date);
    if amount.None? || date.None? || b.categoryId.Null? then None
    else
      Some(e.(
        amount := amount.value,
        description := Assign(e.description, b.description),
        date := date.value,
        categoryId := if b.categoryId.Value? then b.categoryId.v else e.categoryId,
        receiptUrl := Assign(e.receiptUrl, b.receiptUrl),
        tripId := if b.tripId.Value? then Some(b.tripId.v) else None))
  }

  /** `PUT /:id`: by id alone, whoever owns the row. */
  method UpdateExpense(db: Db, id: Id, b: ExpenseBody, parse: string -> Option<int>) returns (r: Result<Expense, ApiError>)
    requires db.Valid()
    modifies db`expenses
    ensures db.Valid()
    ensures r.Err? ==> r.error == ServerError && db.expenses == old(db.expenses)
    ensures r.Ok? <==>
      id in old(db.expenses) && UpdatedExpense(old(db.expenses[id]), b, parse).Some? &&
      Linkable(db, UpdatedExpense(old(db.expenses[id]), b, parse).value)
    ensures r.Ok? ==> r.value == UpdatedExpense(old(db.expenses[id]), b, parse).value
    ensures r.Ok? ==> db.expenses == old(db.expenses)[id := r.value]
  {
    if id !in db.expenses {
      return Err(ServerError);
    }
    var u := UpdatedExpense(db.expenses[id], b, parse);
    if u.None? || !Linkable(db, u.value) {
      return Err(ServerError);
    }
    db.expenses := db.expenses[id := u.value];
    r := Ok(u.value);
  }

  /** `DELETE /:id`: by id alone, whoever owns the row. */
  method DeleteExpense(db: Db, id: Id) returns (r: Result<(), ApiError>)
    requires db.Valid()
    modifies db`expenses
    ensures db.Valid()
    ensures r.Ok? <==> id in old(db.expenses)
    ensures r.Err? ==> r.error == ServerError && db.expenses == old(db.expenses)
    ensures r.Ok? ==> db.expenses == old(db.expenses) - {id}
  {
    if id !in db.expenses {
      return Err(ServerError);
    }
    db.expenses := db.expenses - {id};
    r := Ok(());
  }
}
