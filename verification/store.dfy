/**
 * The database behind the request handlers: four tables (users, categories, expenses, trips)
 * held as maps from record id to record, the way the Prisma client exposes them. Ids are
 * handed out by a counter, so listing a table in id order lists it in creation order.
 *
 * The relations the handlers depend on are kept as an invariant (`Db.Valid`): every expense
 * names an existing category, every trip an expense names exists, e-mail addresses are
 * unique. A write that would break a relation is refused by the store, which the handlers
 * report as a server error.
 */
module Store {
  import opened Common
  import opened Text
  import opened Collections

  type Id = nat

  datatype User = User(id: Id, email: string, password: string, name: string, avatar: Option<string>)

  datatype Category = Category(id: Id, name: string, icon: string, color: string, userId: Id)

  /** An expense row. `date` is the ISO-8601 text of the stored timestamp (`toISOString()`). */
  datatype Expense = Expense(
    id: Id,
    amount: int,
    description: Option<string>,
    date: string,
    categoryId: Id,
    receiptUrl: Option<string>,
    tripId: Option<Id>,
    userId: Id)

  /** A trip row; `createdAt` is the creation timestamp the store fills in. */
  datatype Trip = Trip(
    id: Id,
    name: string,
    description: Option<string>,
    startDate: string,
    endDate: Option<string>,
    userId: Id,
    createdAt: int)

  /** The errors the handlers answer with; `Status` and `Message` give the HTTP status and the JSON `error` text. */
  datatype ApiError =
    | TripNotFound
    | MissingFields
    | EmailExists
    | InvalidCredentials
    | ServerError

  function Status(e: ApiError): (code: int)
    ensures code == 500 <==> e == ServerError
  {
    match e
    case TripNotFound => 404
    case MissingFields => 400
    case EmailExists => 400
    case InvalidCredentials => 400
    case ServerError => 500
  }

  function Message(e: ApiError): string {
    match e
    case TripNotFound => "Trip not found"
    case MissingFields => "Missing required fields: amount, categoryId, date"
    case EmailExists => "Email already exists"
    case InvalidCredentials => "Invalid credentials"
    case ServerError => "Server error"
  }

  /** The records of `m` whose id is below `n`, in increasing id order: a `findMany` without `orderBy`. */
  function Rows<T(!new)>(m: map<Id, T>, n: nat): (r: seq<T>)
    ensures forall x :: x in r <==> exists id :: id in m && id < n && m[id] == x
    decreases n
  {
    if n == 0 then []
    else
      var init := Rows(m, n - 1);
      if n - 1 in m then init + [m[n - 1]] else init
  }

  /** When each record carries its own key as its id, `Rows` lists them in strictly increasing id order, so each once. */
  lemma {:induction false} RowsInIdOrder<T(!new)>(m: map<Id, T>, n: nat, idOf: T -> Id)
    requires forall id :: id in m ==> idOf(m[id]) == id
    ensures forall i :: 0 <= i < |Rows(m, n)| ==> idOf(Rows(m, n)[i]) < n
    ensures forall i, j :: 0 <= i < j < |Rows(m, n)| ==> idOf(Rows(m, n)[i]) < idOf(Rows(m, n)[j])
    ensures Distinct(Rows(m, n))
    decreases n
  {
    if n > 0 {
      RowsInIdOrder(m, n - 1, idOf);
      var init, r := Rows(m, n - 1), Rows(m, n);
      if n - 1 in m {
        assert r == init + [m[n - 1]];
        assert forall i :: 0 <= i < |init| ==> r[i] == init[i];
      }
    }
  }

  /** A filtered listing of a table whose records carry their own keys holds no record twice. */
  lemma FilteredRowsDistinct<T(!new)>(m: map<Id, T>, n: nat, idOf: T -> Id, p: T -> bool)
    ensures (forall id :: id in m ==> idOf(m[id]) == id) ==> Distinct(Filter(Rows(m, n), p))
  {
    if forall id :: id in m ==> idOf(m[id]) == id {
      RowsInIdOrder(m, n, idOf);
      FilterKeepsDistinct(Rows(m, n), p);
    }
  }

  /** The same listing sorted still holds no record twice. */
  lemma SortedRowsDistinct<T(!new)>(m: map<Id, T>, n: nat, idOf: T -> Id, p: T -> bool, le: (T, T) -> bool)
    ensures (forall id :: id in m ==> idOf(m[id]) == id) ==> Distinct(SortBy(Filter(Rows(m, n), p), le))
  {
    FilteredRowsDistinct(m, n, idOf, p);
    if forall id :: id in m ==> idOf(m[id]) == id {
      PermutationKeepsDistinct(Filter(Rows(m, n), p), SortBy(Filter(Rows(m, n), p), le));
    }
  }

  /** Every key of `m` is below `n` and is the id stored in its record. */
  ghost predicate KeyedBelow<T>(m: map<Id, T>, idOf: T -> Id, n: nat) {
    forall id :: id in m ==> id < n && idOf(m[id]) == id
  }

  /**
   * The `where.date` filter of the list and summary queries: it applies only when both
   * `startDate` and `endDate` are given (non-empty), and then both bounds are inclusive.
   * Bounds are taken in the same ISO-8601 form as stored dates, so text order is time order.
   */
  predicate InDateRange(date: string, startDate: Option<string>, endDate: Option<string>) {
    Present(startDate) && Present(endDate) ==> LexLe(startDate.value, date) && LexLe(date, endDate.value)
  }

  /** `new Date(null).toISOString()`. */
  const Epoch: string := "1970-01-01T00:00:00.000Z"

  /**
   * The stored date for a body field passed to `new Date(...)`: a missing field gives an
   * invalid date, which the store refuses (`None`); `null` gives the epoch.
   */
  function StoredDate(f: Field<string>): (r: Option<string>)
    ensures r.None? <==> f.Absent?
    ensures f.Null? ==> r == Some(Epoch)
    ensures f.Value? ==> r == Some(f.v)
  {
    match f
    case Absent => None
    case Null => Some(Epoch)
    case Value(s) => Some(s)
  }

  /** `parseFloat(f)`: `None` stands for `NaN`, which the store refuses; a missing or null field parses to `NaN`. */
  function StoredAmount(f: Field<string>, parse: string -> Option<int>): (r: Option<int>)
    ensures r.Some? ==> f.Value? && r == parse(f.v)
  {
    if f.Value? then parse(f.v) else None
  }

  /** What the store keeps in an optional text column given a body field: untouched when absent, cleared by `null`. */
  function Assign(current: Option<string>, f: Field<string>): (r: Option<string>)
    ensures f.Absent? ==> r == current
    ensures f.Null? ==> r == None
    ensures f.Value? ==> r == Some(f.v)
  {
    match f
    case Absent => current
    case Null => None
    case Value(s) => Some(s)
  }

  /**
   * The tables agree with each other: ids are below the counter and match their keys, e-mail
   * addresses are unique, and every expense points at an existing category and, if it has
   * one, an existing trip.
   */
  ghost predicate Consistent(
    users: map<Id, User>, categories: map<Id, Category>, expenses: map<Id, Expense>, trips: map<Id, Trip>, nextId: Id)
  {
    KeyedBelow(users, (u: User) => u.id, nextId) &&
    KeyedBelow(categories, (c: Category) => c.id, nextId) &&
    KeyedBelow(expenses, (e: Expense) => e.id, nextId) &&
    KeyedBelow(trips, (t: Trip) => t.id, nextId) &&
    (forall a, b :: a in users && b in users && users[a].email == users[b].email ==> a == b) &&
    (forall id :: id in expenses ==> expenses[id].categoryId in categories) &&
    (forall id :: id in expenses && expenses[id].tripId.Some? ==> expenses[id].tripId.value in trips)
  }

  /** A user's id, e-mail and name: all that the register and login responses reveal. */
  datatype PublicUser = PublicUser(id: Id, email: string, name: string)

  function Public(u: User): (p: PublicUser)
    ensures p.id == u.id && p.email == u.email && p.name == u.name
  {
    PublicUser(u.id, u.email, u.name)
  }

  class Db {
    var users: map<Id, User>
    var categories: map<Id, Category>
    var expenses: map<Id, Expense>
    var trips: map<Id, Trip>
    var nextId: Id

    ghost predicate Valid()
      reads this
    {
      Consistent(users, categories, expenses, trips, nextId)
    }

    constructor ()
      ensures Valid()
      ensures users == map[] && categories == map[] && expenses == map[] && trips == map[]
    {
      users, categories, expenses, trips := map[], map[], map[], map[];
      nextId := 0;
    }

    /** A fresh id, larger than every id in use. */
    method NewId() returns (id: Id)
      requires Valid()
      modifies this`nextId
      ensures Valid()
      ensures id == old(nextId) && nextId == id + 1
    {
      id := nextId;
      nextId := nextId + 1;
    }
  }
}
