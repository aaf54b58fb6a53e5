/** The in-memory user registry (`MemoryUserStore` of internal/auth/store.go):
    users by id, ids by email, and the next id to hand out. Password hashing
    (bcrypt) is a function the caller supplies. The read/write lock of the
    source is not modelled: each operation is one atomic step here. */
module AuthStore {

  datatype User = User(id: int, email: string, password: string)

  /** Go's zero `User{}`. */
  function ZeroUser(): User {
    User(0, "", "")
  }

  /** What `bcrypt.GenerateFromPassword` returns: a digest or an error. */
  datatype HashOutcome = Hashed(digest: string) | HashFailed(message: string)

  datatype UserResult = Found(user: User) | Refused(message: string)

  /** The store's three fields, as a value. */
  datatype Registry = Registry(users: map<int, User>, emails: map<string, int>, nextID: int)

  /** The two maps agree with each other: `emails[e] == id` exactly when
      `users[id]` has email `e`; every user is stored under its own id, and
      every id is below `nextID`. */
  predicate Consistent(r: Registry) {
    && r.nextID >= 1
    && (forall e :: e in r.emails ==> r.emails[e] in r.users && r.users[r.emails[e]].email == e)
    && (forall id :: id in r.users ==>
          && 1 <= id < r.nextID
          && r.users[id].id == id
          && r.users[id].email in r.emails
          && r.emails[r.users[id].email] == id)
  }

  /** `NewMemoryUserStore()`. */
  function EmptyRegistry(): Registry {
    Registry(map[], map[], 1)
  }

  /** `Create`: reject a registered email, else hash the password and store a
      new user under the next id. */
  function Insert(r: Registry, email: string, password: string, hash: string -> HashOutcome): (UserResult, Registry) {
    if email in r.emails then (Refused("email already registered"), r)
    else
      match hash(password)
      case HashFailed(m) => (Refused(m), r)
      case Hashed(d) =>
        var u := User(r.nextID, email, d);
        (Found(u), Registry(r.users[u.id := u], r.emails[email := u.id], r.nextID + 1))
  }

  /** `GetByEmail`: `users[emails[email]]`, which is Go's zero user should the
      id be missing from `users`. */
  function ByEmail(r: Registry, email: string): UserResult {
    if email !in r.emails then Refused("user not found")
    else if r.emails[email] in r.users then Found(r.users[r.emails[email]])
    else Found(ZeroUser())
  }

  /** `GetByID`. */
  function ById(r: Registry, id: int): UserResult {
    if id in r.users then Found(r.users[id]) else Refused("user not found")
  }

  class MemoryUserStore {
    var users: map<int, User>
    var emails: map<string, int>
    var nextID: int

    function State(): Registry
      reads this
    {
      Registry(users, emails, nextID)
    }

    constructor ()
      ensures State() == EmptyRegistry()
    {
      users := map[];
      emails := map[];
      nextID := 1;
    }

    method Create(email: string, password: string, hash: string -> HashOutcome) returns (r: UserResult)
      modifies this
      ensures (r, State()) == Insert(old(State()), email, password, hash)
    {
      if email in emails {
        return Refused("email already registered");
      }
      var hashed := hash(password);
      if hashed.HashFailed? {
        return Refused(hashed.message);
      }
      var user := User(nextID, email, hashed.digest);
      users := users[user.id := user];
      emails := emails[email := user.id];
      nextID := nextID + 1;
      r := Found(user);
    }

    method GetByEmail(email: string) returns (r: UserResult)
      ensures r == ByEmail(State(), email)
    {
      if email !in emails {
        return Refused("user not found");
      }
      var id := emails[email];
      r := Found(if id in users then users[id] else ZeroUser());
    }

    method GetByID(id: int) returns (r: UserResult)
      ensures r == ById(State(), id)
    {
      if id !in users {
        return Refused("user not found");
      }
      r := Found(users[id]);
    }
  }

  // ---------------------------------------------------------------------------
  // Properties of the registry.

  lemma EmptyRegistryConsistent()
    ensures Consistent(EmptyRegistry())
  {
  }

  /** In a consistent registry, the email index and the user map say the same
      thing, and no two users share an email. */
  lemma EmailIndexIff(r: Registry, e: string, id: int)
    requires Consistent(r)
    ensures e in r.emails && r.emails[e] == id <==> id in r.users && r.users[id].email == e
    ensures forall a, b :: a in r.users && b in r.users && r.users[a].email == r.users[b].email ==> a == b
  {
  }

  /** Create keeps the registry consistent. */
  lemma InsertPreservesConsistent(r: Registry, email: string, password: string, hash: string -> HashOutcome)
    requires Consistent(r)
    ensures Consistent(Insert(r, email, password, hash).1)
  {
    var (res, r') := Insert(r, email, password, hash);
    if res.Found? {
      var u := res.user;
      assert u.id !in r.users;
      forall e | e in r'.emails
        ensures r'.emails[e] in r'.users && r'.users[r'.emails[e]].email == e
      {
        if e != email {
          assert r.emails[e] != u.id;
        }
      }
    }
  }

  /** Create with a registered email fails and changes nothing; otherwise,
      unless hashing fails (which also changes nothing), the new user gets the
      next id and the hash of the password, is found by email and by id, and
      `nextID` advances by one. */
  lemma InsertOutcome(r: Registry, email: string, password: string, hash: string -> HashOutcome)
    requires Consistent(r)
    ensures var (res, r') := Insert(r, email, password, hash);
      && (email in r.emails ==> res == Refused("email already registered") && r' == r)
      && (email !in r.emails && hash(password).HashFailed? ==> res.Refused? && r' == r)
      && (email !in r.emails && hash(password).Hashed? ==>
            && res == Found(User(r.nextID, email, hash(password).digest))
            && ByEmail(r', email) == res
            && ById(r', r.nextID) == res
            && r'.nextID == r.nextID + 1)
  {
  }

  /** Create does not disturb what other emails and ids look up to. */
  lemma InsertFrame(r: Registry, email: string, password: string, hash: string -> HashOutcome, e: string, id: int)
    requires Consistent(r)
    ensures var r' := Insert(r, email, password, hash).1;
      && (e != email ==> ByEmail(r', e) == ByEmail(r, e))
      && (id in r.users ==> ById(r', id) == ById(r, id))
  {
    var (res, r') := Insert(r, email, password, hash);
    if res.Found? && e != email && e in r.emails {
      assert r.emails[e] in r.users;
      assert r.emails[e] != r.nextID;
    }
  }
}
