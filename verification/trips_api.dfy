/**
 * `/api/trips`: the caller's trips newest first, one trip of the caller's, create with nested
 * line items, update of the trip's own fields, and delete. Update and delete address the
 * trip by id alone. Update never touches the trip's expenses: the body's `expenses` are
 * ignored.
 */
module TripsApi {
  import opened Common
  import opened Collections
  import opened Store

  /** A trip with its expenses (`include: { expenses: ... }`). */
  datatype TripView = TripView(trip: Trip, expenses: seq<Expense>)

  /** The expenses of `m` linked to trip `tripId`, in the store's order. */
  function Linked(m: map<Id, Expense>, n: nat, tripId: Id): (r: seq<Expense>)
    ensures forall e :: e in r <==> (exists id :: id in m && id < n && m[id] == e) && e.tripId == Some(tripId)
    ensures (forall id :: id in m ==> m[id].id == id) ==> Distinct(r)
  {
    FilteredRowsDistinct(m, n, (e: Expense) => e.id, (e: Expense) => e.tripId == Some(tripId));
    Filter(Rows(m, n), (e: Expense) => e.tripId == Some(tripId))
  }

  function ViewOf(db: Db, t: Trip): (v: TripView)
    reads db
    ensures v.trip == t && v.expenses == Linked(db.expenses, db.nextId, t.id)
  {
    TripView(t, Linked(db.expenses, db.nextId, t.id))
  }

  /** `orderBy: { createdAt: 'desc' }`. */
  predicate NewerFirst(a: Trip, b: Trip) {
    a.createdAt >= b.createdAt
  }

  lemma NewerFirstOrders()
    ensures TotalRelation(NewerFirst) && TransitiveRelation(NewerFirst)
  {
  }

  /** The caller's trips, newest first. */
  function CallerTrips(db: Db, caller: Id): (r: seq<Trip>)
    reads db
    ensures forall t :: t in r <==> (exists id :: id in db.trips && id < db.nextId && db.trips[id] == t) && t.userId == caller
    ensures Sorted(r, NewerFirst)
    ensures db.Valid() ==> Distinct(r)
  {
    var owned := Filter(Rows(db.trips, db.nextId), (t: Trip) => t.userId == caller);
    NewerFirstOrders();
    SortBySorted(owned, NewerFirst);
    PermutationSameElements(owned, SortBy(owned, NewerFirst));
    SortedRowsDistinct(db.trips, db.nextId, (t: Trip) => t.id, (t: Trip) => t.userId == caller, NewerFirst);
    SortBy(owned, NewerFirst)
  }

  lemma CallerTripsDistinct(db: Db, caller: Id)
    requires db.Valid()
    ensures Distinct(CallerTrips(db, caller))
  {
    assert KeyedBelow(db.trips, (t: Trip) => t.id, db.nextId);
  }

  /** `GET /`: exactly the caller's trips, newest first, each with its linked expenses. */
  function ListTrips(db: Db, caller: Id): (r: seq<TripView>)
    reads db
    requires db.Valid()
    ensures forall t :: (exists i :: 0 <= i < |r| && r[i].trip == t) <==>
      (exists id :: id in db.trips && db.trips[id] == t) && t.userId == caller
    ensures forall i, j :: 0 <= i < j < |r| ==> r[i].trip.createdAt >= r[j].trip.createdAt
    ensures forall i :: 0 <= i < |r| ==> r[i].expenses == Linked(db.expenses, db.nextId, r[i].trip.id)
    ensures forall i, j :: 0 <= i < j < |r| ==> r[i].trip != r[j].trip
  {
    var ts := CallerTrips(db, caller);
    CallerTripsDistinct(db, caller);
    var r := Views(db.expenses, db.nextId, ts);
    ViewsCover(ts, r);
    r
  }

  /** Each trip of `ts` with its linked expenses, in order. */
  function Views(m: map<Id, Expense>, n: nat, ts: seq<Trip>): (r: seq<TripView>)
    ensures |r| == |ts|
    ensures forall i :: 0 <= i < |ts| ==> r[i].trip == ts[i] && r[i].expenses == Linked(m, n, ts[i].id)
  {
    seq(|ts|, i requires 0 <= i < |ts| => TripView(ts[i], Linked(m, n, ts[i].id)))
  }

  lemma ViewsCover(ts: seq<Trip>, r: seq<TripView>)
    requires |r| == |ts| && forall i :: 0 <= i < |ts| ==> r[i].trip == ts[i]
    ensures forall t :: (exists i :: 0 <= i < |r| && r[i].trip == t) <==> t in ts
    ensures Distinct(ts) ==> forall i, j :: 0 <= i < j < |r| ==> r[i].trip != r[j].trip
  {
    forall t | t in ts
      ensures exists i :: 0 <= i < |r| && r[i].trip == t
    {
      var i :| 0 <= i < |ts| && ts[i] == t;
      assert r[i].trip == t;
    }
  }

  /** `GET /:id`: the trip when it exists and is the caller's; a missing trip and another user's trip give the same error. */
  function GetTrip(db: Db, caller: Id, id: Id): (r: Result<TripView, ApiError>)
    reads db
    requires db.Valid()
    ensures r.Ok? <==> id in db.trips && db.trips[id].userId == caller
    ensures r.Err? ==> r == Err(TripNotFound)
    ensures r.Ok? ==> r.value.trip == db.trips[id]
    ensures r.Ok? ==> forall e :: e in r.value.expenses <==>
      (exists k :: k in db.expenses && db.expenses[k] == e) && e.tripId == Some(id)
    ensures r.Ok? ==> Distinct(r.value.expenses)
  {
    if id in db.trips && db.trips[id].userId == caller then Ok(ViewOf(db, db.trips[id]))
    else Err(TripNotFound)
  }

  /** One entry of the body's `expenses` list. */
  datatype LineItemBody = LineItemBody(
    amount: Field<string>,
    description: Field<string>,
    date: Field<string>,
    categoryId: Field<Id>,
    receiptUrl: Field<string>)

  /** The body of `POST /` and `PUT /:id`; `expenses` is `None` when not sent. */
  datatype TripBody = TripBody(
    name: Field<string>,
    description: Field<string>,
    startDate: Field<string>,
    endDate: Field<string>,
    expenses: Option<seq<LineItemBody>>)

  /** The trip row `POST /` asks the store to create; `None` when the store refuses it. */
  function NewTrip(id: Id, b: TripBody, caller: Id, now: int): (r: Option<Trip>)
    ensures r.Some? <==> b.name.Value? && StoredDate(b.startDate).Some?
    ensures r.Some? ==>
      var t := r.value;
      t.id == id && t.userId == caller && t.createdAt == now &&
      t.name == b.name.v && Some(t.startDate) == StoredDate(b.startDate) &&
      t.description == Assign(None, b.description) &&
      (t.endDate.None? <==> !Truthy(b.endDate)) &&
      (t.endDate.Some? ==> t.endDate.value == b.endDate.v)
  {
    var start := StoredDate(b.startDate);
    if !b.name.Value? || start.None? then None
    else Some(Trip(id, b.name.v, Assign(None, b.description), start.value, OrNull(b.endDate), caller, now))
  }

  /** The expense row created for one line item. */
  function NewLineItem(item: LineItemBody, id: Id, tripId: Id, caller: Id, parse: string -> Option<int>): (r: Option<Expense>)
    ensures r.Some? <==> StoredAmount(item.amount, parse).Some? && StoredDate(item.date).Some? && item.categoryId.Value?
    ensures r.Some? ==>
      var e := r.value;
      e.id == id && e.userId == caller && e.tripId == Some(tripId) &&
      Some(e.amount) == StoredAmount(item.amount, parse) && Some(e.date) == StoredDate(item.date) &&
      e.categoryId == item.categoryId.v &&
      e.description == Assign(None, item.description) && e.receiptUrl == Assign(None, item.receiptUrl)
  {
    var amount := StoredAmount(item.amount, parse);
    var date := StoredDate(item.date);
    if amount.None? || date.None? || !item.categoryId.Value? then None
    else
      Some(Expense(id, amount.value, Assign(None, item.description), date.value, item.categoryId.v,
        Assign(None, item.receiptUrl), Some(tripId), caller))
  }

  /** `expenses.map(...)`: one row per line item, in order, with consecutive ids from `firstId`; `None` if any is refused. */
  function NewLineItems(items: seq<LineItemBody>, firstId: Id, tripId: Id, caller: Id, parse: string -> Option<int>): (r: Option<seq<Expense>>)
    ensures r.Some? <==> forall i :: 0 <= i < |items| ==> NewLineItem(items[i], firstId + i, tripId, caller, parse).Some?
    ensures r.Some? ==> |r.value| == |items|
    ensures r.Some? ==> forall i :: 0 <= i < |items| ==> Some(r.value[i]) == NewLineItem(items[i], firstId + i, tripId, caller, parse)
    ensures r.Some? ==> forall i :: 0 <= i < |items| ==>
      r.value[i].id == firstId + i && r.value[i].userId == caller && r.value[i].tripId == Some(tripId)
  {
    if forall i :: 0 <= i < |items| ==> NewLineItem(items[i], firstId + i, tripId, caller, parse).Some? then
      Some(seq(|items|, i requires 0 <= i < |items| => NewLineItem(items[i], firstId + i, tripId, caller, parse).value))
    else None
  }

  /** `expenses && expenses.length > 0`. */
  predicate HasLineItems(b: TripBody) {
    b.expenses.Some? && |b.expenses.value| > 0
  }

  /** Every row files under an existing category, as the store demands of each expense it creates. */
  predicate Filed(rows: seq<Expense>, categories: map<Id, Category>) {
    forall i :: 0 <= i < |rows| ==> rows[i].categoryId in categories
  }

  /** `POST /`: the trip and its line items are created together or not at all. */
  method CreateTrip(db: Db, caller: Id, b: TripBody, now: int, parse: string -> Option<int>) returns (r: Result<TripView, ApiError>)
    requires db.Valid()
    modifies db`trips, db`expenses, db`nextId
    ensures db.Valid()
    ensures r.Ok? <==> (NewTrip(old(db.nextId), b, caller, now).Some? &&
                        var rows := NewLineItems(if HasLineItems(b) then b.expenses.value else [], old(db.nextId) + 1, old(db.nextId), caller, parse);
                        rows.Some? && Filed(rows.value, old(db.categories)))
    ensures r.Err? ==> r.error == ServerError && db.trips == old(db.trips) && db.expenses == old(db.expenses)
    ensures r.Ok? ==> Some(r.value.trip) == NewTrip(old(db.nextId), b, caller, now)
    ensures r.Ok? ==> r.value.trip.userId == caller && r.value.trip.id !in old(db.trips)
    ensures r.Ok? ==> db.trips == old(db.trips)[r.value.trip.id := r.value.trip]
    ensures r.Ok? ==> (r.value.trip.endDate.None? <==> !Truthy(b.endDate))
    ensures r.Ok? ==> (!HasLineItems(b) <==> r.value.expenses == [])
    ensures r.Ok? && HasLineItems(b) ==> |r.value.expenses| == |b.expenses.value|
    ensures r.Ok? ==> forall i :: 0 <= i < |r.value.expenses| ==>
      var e := r.value.expenses[i];
      e.id == r.value.trip.id + 1 + i && e.userId == caller && e.tripId == Some(r.value.trip.id) &&
      e.id !in old(db.expenses)
    ensures r.Ok? ==> db.expenses == old(db.expenses) + ByIds(r.value.expenses, r.value.trip.id + 1)
    ensures unchanged(db`users, db`categories)
  {
    var tripId := db.nextId;
    var trip := NewTrip(tripId, b, caller, now);
    if trip.None? {
      return Err(ServerError);
    }
    var items := if HasLineItems(b) then b.expenses.value else [];
    var rows := NewLineItems(items, tripId + 1, tripId, caller, parse);
    if rows.None? || !Filed(rows.value, db.categories) {
      return Err(ServerError);
    }
    var created := rows.value;
    InsertTrip(db, trip.value, created);
    r := Ok(TripView(trip.value, created));
  }

  /**
   * The store's nested `create`: the trip under the next id, its line items under the ids that
   * follow it, and the counter moved past them.
   */
  method InsertTrip(db: Db, trip: Trip, rows: seq<Expense>)
    requires db.Valid()
    requires trip.id == db.nextId && Filed(rows, db.categories)
    requires forall i :: 0 <= i < |rows| ==> rows[i].id == trip.id + 1 + i && rows[i].tripId == Some(trip.id)
    modifies db`trips, db`expenses, db`nextId
    ensures db.Valid()
    ensures trip.id !in old(db.trips) && db.trips == old(db.trips)[trip.id := trip]
    ensures forall e :: e in rows ==> e.id !in old(db.expenses)
    ensures db.expenses == old(db.expenses) + ByIds(rows, trip.id + 1)
    ensures db.nextId == trip.id + 1 + |rows|
  {
    var trips := db.trips[trip.id := trip];
    var expenses := db.expenses + ByIds(rows, trip.id + 1);
    var nextId := trip.id + 1 + |rows|;
    assert Consistent(db.users, db.categories, expenses, trips, nextId) by {
      AddingTripKeepsConsistent(db.users, db.categories, db.expenses, db.trips, trip.id, trip, rows);
    }
    db.trips, db.expenses, db.nextId := trips, expenses, nextId;
  }

  /** Rows with consecutive ids from `firstId`, keyed by their ids. */
  function ByIds(rows: seq<Expense>, firstId: Id): (m: map<Id, Expense>)
    requires forall i :: 0 <= i < |rows| ==> rows[i].id == firstId + i
    ensures forall id :: id in m <==> firstId <= id < firstId + |rows|
    ensures forall id :: id in m ==> m[id] == rows[id - firstId] && m[id].id == id
  {
    var m: map<Id, Expense> := map i | 0 <= i < |rows| :: rows[i].id := rows[i];
    forall id | firstId <= id < firstId + |rows|
      ensures id in m
    {
      assert rows[id - firstId].id == id;
    }
    m
  }

  /** Creating a trip with its line items keeps the tables consistent. */
  lemma AddingTripKeepsConsistent(
    users: map<Id, User>, categories: map<Id, Category>, expenses: map<Id, Expense>, trips: map<Id, Trip>,
    tripId: Id, trip: Trip, rows: seq<Expense>)
    requires Consistent(users, categories, expenses, trips, tripId)
    requires trip.id == tripId
    requires Filed(rows, categories)
    requires forall i :: 0 <= i < |rows| ==> rows[i].id == tripId + 1 + i && rows[i].tripId == Some(tripId)
    ensures forall e :: e in rows ==> e.id !in expenses
    ensures Consistent(users, categories, expenses + ByIds(rows, tripId + 1), trips[tripId := trip], tripId + 1 + |rows|)
  {
    AddingEmptyTripKeepsConsistent(users, categories, expenses, trips, trip);
    forall e | e in rows
      ensures e.id !in expenses
    {
      var i :| 0 <= i < |rows| && rows[i] == e;
    }
    AddingRowsKeepsConsistent(users, categories, expenses, trips[tripId := trip], tripId, rows);
  }

  /** A trip stored under the next id, with no rows yet, keeps the tables consistent. */
  lemma AddingEmptyTripKeepsConsistent(
    users: map<Id, User>, categories: map<Id, Category>, expenses: map<Id, Expense>, trips: map<Id, Trip>, trip: Trip)
    requires Consistent(users, categories, expenses, trips, trip.id)
    ensures Consistent(users, categories, expenses, trips[trip.id := trip], trip.id + 1)
  {
  }

  /** Rows of an existing trip, filed and keyed by fresh consecutive ids, keep the tables consistent. */
  lemma AddingRowsKeepsConsistent(
    users: map<Id, User>, categories: map<Id, Category>, expenses: map<Id, Expense>, trips: map<Id, Trip>,
    tripId: Id, rows: seq<Expense>)
    requires Consistent(users, categories, expenses, trips, tripId + 1)
    requires tripId in trips
    requires Filed(rows, categories)
    requires forall i :: 0 <= i < |rows| ==> rows[i].id == tripId + 1 + i && rows[i].tripId == Some(tripId)
    ensures Consistent(users, categories, expenses + ByIds(rows, tripId + 1), trips, tripId + 1 + |rows|)
  {
    var added := ByIds(rows, tripId + 1);
    var n := tripId + 1 + |rows|;
    AddedRowsFiled(categories, tripId, rows, added);
    MergedRowsFiled(categories, trips, expenses, added, tripId, n);
  }

  /** Old rows and new rows, each keyed and filed, stay keyed and filed side by side. */
  lemma MergedRowsFiled(
    categories: map<Id, Category>, trips: map<Id, Trip>, expenses: map<Id, Expense>, added: map<Id, Expense>,
    tripId: Id, n: nat)
    requires tripId in trips
    requires forall id :: id in expenses ==> id < n && expenses[id].id == id && expenses[id].categoryId in categories
    requires forall id :: id in expenses && expenses[id].tripId.Some? ==> expenses[id].tripId.value in trips
    requires forall id :: id in added ==> id < n && added[id].id == id
    requires forall id :: id in added ==> added[id].categoryId in categories && added[id].tripId == Some(tripId)
    ensures forall id :: id in expenses + added ==> id < n && (expenses + added)[id].id == id
    ensures forall id :: id in expenses + added ==> (expenses + added)[id].categoryId in categories
    ensures forall id :: id in expenses + added && (expenses + added)[id].tripId.Some? ==>
      (expenses + added)[id].tripId.value in trips
  {
  }

  /** Rows filed under existing categories and under trip `tripId` keep both once keyed by id. */
  lemma AddedRowsFiled(categories: map<Id, Category>, tripId: Id, rows: seq<Expense>, added: map<Id, Expense>)
    requires Filed(rows, categories)
    requires forall i :: 0 <= i < |rows| ==> rows[i].id == tripId + 1 + i && rows[i].tripId == Some(tripId)
    requires added == ByIds(rows, tripId + 1)
    ensures forall id :: id in added ==> added[id].categoryId in categories && added[id].tripId == Some(tripId)
  {
  }

  /** `updateData`: which trip columns `PUT /:id` writes, and with what; `None` leaves a column as it is. */
  datatype TripPatch = TripPatch(
    name: Option<string>,
    description: Option<Option<string>>,
    startDate: Option<string>,
    endDate: Option<Option<string>>)

  /** The `updateData` builder, one conditional assignment per field. */
  method BuildTripPatch(b: TripBody) returns (p: TripPatch)
    ensures p.name.Some? <==> Truthy(b.name)
    ensures p.name.Some? ==> p.name.value == b.name.v
    ensures p.description.Some? <==> !b.description.Absent?
    ensures p.description.Some? ==> p.description.value == Assign(None, b.description)
    ensures p.startDate.Some? <==> Truthy(b.startDate)
    ensures p.startDate.Some? ==> p.startDate.value == b.startDate.v
    ensures p.endDate.Some? <==> !b.endDate.Absent?
    ensures p.endDate.Some? ==> (p.endDate.value.None? <==> !Truthy(b.endDate))
    ensures p.endDate.Some? && p.endDate.value.Some? ==> p.endDate.value.value == b.endDate.v
  {
    p := TripPatch(None, None, None, None);
    if Truthy(b.name) {
      p := p.(name := Some(b.name.v));
    }
    if !b.description.Absent? {
      p := p.(description := Some(if b.description.Value? then Some(b.description.v) else None));
    }
    if Truthy(b.startDate) {
      p := p.(startDate := Some(b.startDate.v));
    }
    if !b.endDate.Absent? {
      p := p.(endDate := Some(OrNull(b.endDate)));
    }
  }

  /** The trip after the store applies `p`: patched columns take their new value, every other column keeps its old one. */
  function ApplyTripPatch(t: Trip, p: TripPatch): (r: Trip)
    ensures r.id == t.id && r.userId == t.userId && r.createdAt == t.createdAt
    ensures r.name == (if p.name.Some? then p.name.value else t.name)
    ensures r.description == (if p.description.Some? then p.description.value else t.description)
    ensures r.startDate == (if p.startDate.Some? then p.startDate.value else t.startDate)
    ensures r.endDate == (if p.endDate.Some? then p.endDate.value else t.endDate)
  {
    t.(
      name := if p.name.Some? then p.name.value else t.name,
      description := if p.description.Some? then p.description.value else t.description,
      startDate := if p.startDate.Some? then p.startDate.value else t.startDate,
      endDate := if p.endDate.Some? then p.endDate.value else t.endDate)
  }

  /** `PUT /:id`: by id alone, whoever owns the trip; the expenses table is left exactly as it was. */
  method UpdateTrip(db: Db, id: Id, b: TripBody) returns (r: Result<TripView, ApiError>)
    requires db.Valid()
    modifies db`trips
    ensures db.Valid()
    ensures db.expenses == old(db.expenses)
    ensures r.Ok? <==> id in old(db.trips)
    ensures r.Err? ==> r.error == ServerError && db.trips == old(db.trips)
    ensures r.Ok? ==> db.trips == old(db.trips)[id := r.value.trip]
    ensures r.Ok? ==> r.value.trip.userId == old(db.trips[id].userId)
    ensures r.Ok? ==>
      var t, o := r.value.trip, old(db.trips[id]);
      t.id == o.id && t.createdAt == o.createdAt &&
      t.name == (if Truthy(b.name) then b.name.v else o.name) &&
      t.description == Assign(o.description, b.description) &&
      t.startDate == (if Truthy(b.startDate) then b.startDate.v else o.startDate) &&
      t.endDate == (if b.endDate.Absent? then o.endDate else OrNull(b.endDate))
    ensures r.Ok? ==> r.value.expenses == Linked(old(db.expenses), db.nextId, id)
  {
    if id !in db.trips {
      return Err(ServerError);
    }
    var p := BuildTripPatch(b);
    var t := ApplyTripPatch(db.trips[id], p);
    db.trips := db.trips[id := t];
    r := Ok(ViewOf(db, t));
  }

  /** `DELETE /:id`: by id alone; the trip's expenses are kept and detached from it. */
  method DeleteTrip(db: Db, id: Id) returns (r: Result<(), ApiError>)
    requires db.Valid()
    modifies db`trips, db`expenses
    ensures db.Valid()
    ensures r.Ok? <==> id in old(db.trips)
    ensures r.Err? ==> r.error == ServerError && db.trips == old(db.trips) && db.expenses == old(db.expenses)
    ensures r.Ok? ==> db.trips == old(db.trips) - {id}
    ensures r.Ok? ==> db.expenses.Keys == old(db.expenses).Keys
    ensures r.Ok? ==> forall k :: k in db.expenses ==>
      db.expenses[k] == if old(db.expenses[k]).tripId == Some(id) then old(db.expenses[k]).(tripId := None) else old(db.expenses[k])
  {
    if id !in db.trips {
      return Err(ServerError);
    }
    var old_expenses := db.expenses;
    db.trips := db.trips - {id};
    db.expenses := map k | k in old_expenses ::
      if old_expenses[k].tripId == Some(id) then old_expenses[k].(tripId := None) else old_expenses[k];
    r := Ok(());
  }
}
