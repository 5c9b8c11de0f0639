/**
 * `/api/auth`: registration (a user plus seven starter categories), login by e-mail and
 * password, and the profile update of the signed-in user.
 *
 * Password hashing, the password check and token signing are library calls whose internals
 * are not modelled: they are parameters (`hash`, `compare`, `sign`). A token is modelled as
 * the text `sign` makes of the user's id and e-mail.
 */
module AuthApi {
  import opened Common
  import opened Collections
  import opened Store

  /** The JSON answer of register and login: `{ token, user: { id, email, name } }`. */
  datatype AuthResponse = AuthResponse(token: string, user: PublicUser)

  /** Some account is registered under `email`. */
  predicate EmailTaken(users: map<Id, User>, email: string) {
    exists id :: id in users && users[id].email == email
  }

  /** The stored users with e-mail `email`, in id order. */
  function UsersWithEmail(db: Db, email: string): (r: seq<User>)
    reads db
    ensures forall u :: u in r <==> (exists id :: id in db.users && id < db.nextId && db.users[id] == u) && u.email == email
  {
    Filter(Rows(db.users, db.nextId), (u: User) => u.email == email)
  }

  /** `findUnique({ where: { email } })`. */
  function UserByEmail(db: Db, email: string): (r: Option<User>)
    reads db
    requires db.Valid()
    ensures r.Some? <==> EmailTaken(db.users, email)
    ensures r.Some? ==> r.value.email == email && r.value.id in db.users && db.users[r.value.id] == r.value
  {
    var hits := UsersWithEmail(db, email);
    assert forall id :: id in db.users && db.users[id].email == email ==> db.users[id] in hits;
    if hits == [] then None
    else
      assert hits[0] in hits;
      Some(hits[0])
  }

  /** The name, icon and colour of the seven categories every new account starts with, in creation order. */
  const DefaultStyles: seq<(string, string, string)> := [
    ("Food & Drinks", "🍔", "#FF6384"),
    ("Transportation", "🚗", "#36A2EB"),
    ("Shopping", "🛒", "#FFCE56"),
    ("Entertainment", "🎬", "#4BC0C0"),
    ("Bills & Utilities", "💡", "#9966FF"),
    ("Health", "💊", "#FF9F40"),
    ("Other", "📦", "#C9CBCF")
  ]

  /** The starter categories of user `userId`, created with consecutive ids from `firstId`. */
  function DefaultCategories(userId: Id, firstId: Id): (r: seq<Category>)
    ensures |r| == 7
    ensures forall i :: 0 <= i < |r| ==> r[i].id == firstId + i && r[i].userId == userId
    ensures forall i, j :: 0 <= i < j < |r| ==> r[i].name != r[j].name
    ensures r[0].name == "Food & Drinks" && r[6].name == "Other"
  {
    seq(7, i requires 0 <= i < 7 =>
      Category(firstId + i, DefaultStyles[i].0, DefaultStyles[i].1, DefaultStyles[i].2, userId))
  }

  /** Categories with consecutive ids from `firstId`, keyed by their ids. */
  function CategoriesByIds(rows: seq<Category>, firstId: Id): (m: map<Id, Category>)
    requires forall i :: 0 <= i < |rows| ==> rows[i].id == firstId + i
    ensures forall id :: id in m <==> firstId <= id < firstId + |rows|
    ensures forall id :: id in m ==> m[id] == rows[id - firstId] && m[id].id == id
  {
    var m: map<Id, Category> := map i | 0 <= i < |rows| :: rows[i].id := rows[i];
    forall id | firstId <= id < firstId + |rows|
      ensures id in m
    {
      assert rows[id - firstId].id == id;
    }
    m
  }

  /** The starter categories of the account registered under id `userId`, keyed by the ids that follow it. */
  function StarterCategories(userId: Id): (m: map<Id, Category>)
    ensures forall id :: id in m <==> userId < id <= userId + 7
    ensures forall id :: id in m ==> m[id].id == id && m[id].userId == userId
  {
    CategoriesByIds(DefaultCategories(userId, userId + 1), userId + 1)
  }

  /** Adding a user under a fresh e-mail and the next id keeps the tables consistent. */
  lemma AddingUserKeepsConsistent(
    users: map<Id, User>, categories: map<Id, Category>, expenses: map<Id, Expense>, trips: map<Id, Trip>, user: User)
    requires Consistent(users, categories, expenses, trips, user.id)
    requires !EmailTaken(users, user.email)
    ensures Consistent(users[user.id := user], categories, expenses, trips, user.id + 1)
  {
    var users' := users[user.id := user];
    assert forall a, b :: a in users' && b in users' && users'[a].email == users'[b].email ==> a == b;
  }

  /** Adding the starter categories of user `userId` on the seven ids after it keeps the tables consistent. */
  lemma AddingStartersKeepsConsistent(
    users: map<Id, User>, categories: map<Id, Category>, expenses: map<Id, Expense>, trips: map<Id, Trip>, userId: Id)
    requires Consistent(users, categories, expenses, trips, userId + 1)
    ensures Consistent(users, categories + StarterCategories(userId), expenses, trips, userId + 8)
  {
    var categories' := categories + StarterCategories(userId);
    assert forall id :: id in categories' ==> id < userId + 8 && categories'[id].id == id;
    assert forall id :: id in expenses ==> expenses[id].categoryId in categories';
  }

  /**
   * `POST /register`: an e-mail already in use is refused and nothing is written; otherwise
   * the user is stored with the hash of the password and no avatar, followed by the seven
   * starter categories, and the answer carries a token and the user's public fields.
   */
  method Register(db: Db, email: string, password: string, name: string, hash: string -> string, sign: (Id, string) -> string)
    returns (r: Result<AuthResponse, ApiError>)
    requires db.Valid()
    modifies db`users, db`categories, db`nextId
    ensures db.Valid()
    ensures r.Err? <==> EmailTaken(old(db.users), email)
    ensures r.Err? ==> r.error == EmailExists && db.users == old(db.users) && db.categories == old(db.categories)
    ensures r.Ok? ==> r.value == AuthResponse(sign(old(db.nextId), email), PublicUser(old(db.nextId), email, name))
    ensures r.Ok? ==> db.users == old(db.users)[old(db.nextId) := User(old(db.nextId), email, hash(password), name, None)]
    ensures r.Ok? ==> db.categories == old(db.categories) + StarterCategories(old(db.nextId))
    ensures db.expenses == old(db.expenses) && db.trips == old(db.trips)
  {
    if EmailTaken(db.users, email) {
      return Err(EmailExists);
    }
    var id := db.nextId;
    var user := User(id, email, hash(password), name, None);
    var users := db.users[id := user];
    var categories := db.categories + StarterCategories(id);
    var nextId := id + 8;
    assert Consistent(users, categories, db.expenses, db.trips, nextId) by {
      AddingUserKeepsConsistent(db.users, db.categories, db.expenses, db.trips, user);
      AddingStartersKeepsConsistent(users, db.categories, db.expenses, db.trips, id);
    }
    db.users, db.categories, db.nextId := users, categories, nextId;
    r := Ok(AuthResponse(sign(id, email), Public(user)));
  }

  /**
   * `POST /login`: an unknown e-mail and a wrong password give the same error; otherwise
   * the answer carries a token and the public fields of the account with that e-mail.
   */
  function Login(db: Db, email: string, password: string, compare: (string, string) -> bool, sign: (Id, string) -> string)
    : (r: Result<AuthResponse, ApiError>)
    reads db
    requires db.Valid()
    ensures r.Err? ==> r.error == InvalidCredentials
    ensures r.Ok? <==> exists id :: id in db.users && db.users[id].email == email && compare(password, db.users[id].password)
    ensures r.Ok? ==> forall id :: id in db.users && db.users[id].email == email ==>
      r.value == AuthResponse(sign(id, email), Public(db.users[id]))
  {
    var user := UserByEmail(db, email);
    if user.None? || !compare(password, user.value.password) then Err(InvalidCredentials)
    else Ok(AuthResponse(sign(user.value.id, user.value.email), Public(user.value)))
  }

  /**
   * The account `Register` stores can log in with the password it was registered with,
   * provided the password check accepts a password against its own hash.
   */
  lemma RegisteredUserCanLogIn(
    db: Db, id: Id, email: string, password: string, name: string,
    hash: string -> string, compare: (string, string) -> bool, sign: (Id, string) -> string)
    requires db.Valid()
    requires id in db.users && db.users[id] == User(id, email, hash(password), name, None)
    requires compare(password, hash(password))
    ensures Login(db, email, password, compare, sign) == Ok(AuthResponse(sign(id, email), PublicUser(id, email, name)))
  {
  }

  /** The body of `PUT /profile`. */
  datatype ProfileBody = ProfileBody(name: Field<string>, password: Field<string>, avatar: Field<string>)

  /** `updateData`: the user columns `PUT /profile` writes; `None` leaves a column as it is. */
  datatype ProfilePatch = ProfilePatch(name: Option<string>, password: Option<string>, avatar: Option<string>)

  /** The `updateData` builder: a column is written only when its body field is truthy; a password is stored hashed. */
  method BuildProfilePatch(b: ProfileBody, hash: string -> string) returns (p: ProfilePatch)
    ensures p.name.Some? <==> Truthy(b.name)
    ensures p.name.Some? ==> p.name.value == b.name.v
    ensures p.password.Some? <==> Truthy(b.password)
    ensures p.password.Some? ==> p.password.value == hash(b.password.v)
    ensures p.avatar.Some? <==> Truthy(b.avatar)
    ensures p.avatar.Some? ==> p.avatar.value == b.avatar.v
  {
    p := ProfilePatch(None, None, None);
    if Truthy(b.name) {
      p := p.(name := Some(b.name.v));
    }
    if Truthy(b.password) {
      p := p.(password := Some(hash(b.password.v)));
    }
    if Truthy(b.avatar) {
      p := p.(avatar := Some(b.avatar.v));
    }
  }

  /** The user after the store applies `p`: id and e-mail never change. */
  function ApplyProfilePatch(u: User, p: ProfilePatch): (r: User)
    ensures r.id == u.id && r.email == u.email
    ensures r.name == (if p.name.Some? then p.name.value else u.name)
    ensures r.password == (if p.password.Some? then p.password.value else u.password)
    ensures r.avatar == (if p.avatar.Some? then p.avatar else u.avatar)
  {
    u.(
      name := if p.name.Some? then p.name.value else u.name,
      password := if p.password.Some? then p.password.value else u.password,
      avatar := if p.avatar.Some? then p.avatar else u.avatar)
  }

  /** The `select` of `PUT /profile`: id, e-mail, name and avatar, never the password. */
  datatype ProfileView = ProfileView(id: Id, email: string, name: string, avatar: Option<string>)

  /** `PUT /profile` for the signed-in user `caller`; a caller with no row makes the store fail. */
  method UpdateProfile(db: Db, caller: Id, b: ProfileBody, hash: string -> string) returns (r: Result<ProfileView, ApiError>)
    requires db.Valid()
    modifies db`users
    ensures db.Valid()
    ensures r.Ok? <==> caller in old(db.users)
    ensures r.Err? ==> r.error == ServerError && db.users == old(db.users)
    ensures r.Ok? ==> db.users.Keys == old(db.users).Keys
    ensures r.Ok? ==> forall id :: id in db.users && id != caller ==> db.users[id] == old(db.users[id])
    ensures r.Ok? ==> db.users[caller].id == caller && db.users[caller].email == old(db.users[caller].email)
    ensures r.Ok? ==> db.users[caller].name == if Truthy(b.name) then b.name.v else old(db.users[caller].name)
    ensures r.Ok? ==>
      db.users[caller].password == if Truthy(b.password) then hash(b.password.v) else old(db.users[caller].password)
    ensures r.Ok? ==> db.users[caller].avatar == if Truthy(b.avatar) then Some(b.avatar.v) else old(db.users[caller].avatar)
    ensures r.Ok? ==> r.value == ProfileView(caller, db.users[caller].email, db.users[caller].name, db.users[caller].avatar)
  {
    if caller !in db.users {
      return Err(ServerError);
    }
    var p := BuildProfilePatch(b, hash);
    var u := ApplyProfilePatch(db.users[caller], p);
    db.users := db.users[caller := u];
    r := Ok(ProfileView(u.id, u.email, u.name, u.avatar));
  }
}
