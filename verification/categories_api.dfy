/**
 * `/api/categories`: the caller's categories sorted by name, and create, update and delete of
 * single categories. Update and delete address the row by id alone.
 */
module CategoriesApi {
  import opened Common
  import opened Text
  import opened Collections
  import opened Store

  /** `orderBy: { name: 'asc' }`. */
  predicate NameBefore(a: Category, b: Category) {
    LexLe(a.name, b.name)
  }

  lemma NameBeforeOrders()
    ensures TotalRelation(NameBefore) && TransitiveRelation(NameBefore)
  {
    forall x: Category, y: Category
      ensures NameBefore(x, y) || NameBefore(y, x)
    {
      LexLeTotal(x.name, y.name);
    }
    forall x: Category, y: Category, z: Category | NameBefore(x, y) && NameBefore(y, z)
      ensures NameBefore(x, z)
    {
      LexLeTransitive(x.name, y.name, z.name);
    }
  }

  /** `GET /`: exactly the caller's categories, ascending by name. */
  function ListCategories(db: Db, caller: Id): (r: seq<Category>)
    reads db
    requires db.Valid()
    ensures forall c :: c in r <==> (exists id :: id in db.categories && db.categories[id] == c) && c.userId == caller
    ensures Sorted(r, NameBefore)
    ensures Distinct(r)
  {
    var owned := Filter(Rows(db.categories, db.nextId), (c: Category) => c.userId == caller);
    SortedRowsDistinct(db.categories, db.nextId, (c: Category) => c.id, (c: Category) => c.userId == caller, NameBefore);
    NameBeforeOrders();
    SortBySorted(owned, NameBefore);
    PermutationSameElements(owned, SortBy(owned, NameBefore));
    SortBy(owned, NameBefore)
  }

  /** The body of `POST /` and `PUT /:id`. */
  datatype CategoryBody = CategoryBody(name: Field<string>, icon: Field<string>, color: Field<string>)

  /** A column the store requires: a missing or null value is refused. */
  predicate Supplied(f: Field<string>) {
    f.Value?
  }

  /** The row `POST /` asks the store to create under `id`; `None` when the store refuses it. */
  function NewCategory(id: Id, b: CategoryBody, caller: Id): (r: Option<Category>)
    ensures r.Some? <==> Supplied(b.name) && Supplied(b.icon) && Supplied(b.color)
    ensures r.Some? ==> r.value == Category(id, b.name.v, b.icon.v, b.color.v, caller)
  {
    if Supplied(b.name) && Supplied(b.icon) && Supplied(b.color) then
      Some(Category(id, b.name.v, b.icon.v, b.color.v, caller))
    else None
  }

  /** `POST /`: the new category belongs to the caller. */
  method CreateCategory(db: Db, caller: Id, b: CategoryBody) returns (r: Result<Category, ApiError>)
    requires db.Valid()
    modifies db
    ensures db.Valid()
    ensures r.Ok? <==> NewCategory(old(db.nextId), b, caller).Some?
    ensures r.Ok? ==> r.value.userId == caller && r.value.id !in old(db.categories)
    ensures r.Ok? ==> r.value == NewCategory(old(db.nextId), b, caller).value
    ensures r.Ok? ==> db.categories == old(db.categories)[r.value.id := r.value]
    ensures r.Err? ==> r.error == ServerError && db.categories == old(db.categories)
    ensures db.users == old(db.users) && db.expenses == old(db.expenses) && db.trips == old(db.trips)
  {
    var c := NewCategory(db.nextId, b, caller);
    if c.None? {
      return Err(ServerError);
    }
    var id := db.NewId();
    db.categories := db.categories[id := c.value];
    r := Ok(c.value);
  }

  /** `data: { name, icon, color }` over `c`: absent fields stay, `null` is refused; id and owner never change. */
  function UpdatedCategory(c: Category, b: CategoryBody): (r: Option<Category>)
    ensures r.Some? <==> !b.name.Null? && !b.icon.Null? && !b.color.Null?
    ensures r.Some? ==>
      r.value.id == c.id && r.value.userId == c.userId &&
      r.value.name == (if b.name.Value? then b.name.v else c.name) &&
      r.value.icon == (if b.icon.Value? then b.icon.v else c.icon) &&
      r.value.color == (if b.color.Value? then b.color.v else c.color)
  {
    if b.name.Null? || b.icon.Null? || b.color.Null? then None
    else
      Some(c.(
        name := if b.name.Value? then b.name.v else c.name,
        icon := if b.icon.Value? then b.icon.v else c.icon,
        color := if b.color.Value? then b.color.v else c.color))
  }

  /** `PUT /:id`: by id alone, whoever owns the row. */
  method UpdateCategory(db: Db, id: Id, b: CategoryBody) returns (r: Result<Category, ApiError>)
    requires db.Valid()
    modifies db`categories
    ensures db.Valid()
    ensures r.Ok? <==> id in old(db.categories) && UpdatedCategory(old(db.categories[id]), b).Some?
    ensures r.Ok? ==> r.value == UpdatedCategory(old(db.categories[id]), b).value
    ensures r.Ok? ==> db.categories == old(db.categories)[id := r.value]
    ensures r.Err? ==> r.error == ServerError && db.categories == old(db.categories)
  {
    if id !in db.categories {
      return Err(ServerError);
    }
    var c := UpdatedCategory(db.categories[id], b);
    if c.None? {
      return Err(ServerError);
    }
    db.categories := db.categories[id := c.value];
    r := Ok(c.value);
  }

  /** Some expense files under category `id`. */
  predicate InUse(db: Db, id: Id)
    reads db
  {
    exists e :: e in db.expenses && db.expenses[e].categoryId == id
  }

  /** `DELETE /:id`: by id alone; the store refuses to delete a category an expense still files under. */
  method DeleteCategory(db: Db, id: Id) returns (r: Result<(), ApiError>)
    requires db.Valid()
    modifies db`categories
    ensures db.Valid()
    ensures r.Ok? <==> id in old(db.categories) && !InUse(db, id)
    ensures r.Ok? ==> db.categories == old(db.categories) - {id}
    ensures r.Err? ==> r.error == ServerError && db.categories == old(db.categories)
  {
    if id !in db.categories || InUse(db, id) {
      return Err(ServerError);
    }
    db.categories := db.categories - {id};
    r := Ok(());
  }
}
