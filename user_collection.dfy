/** The `User` collection: the stored documents, the two queries the core
    issues (`findOne` on username-or-email, `findById`) and `create`. */
module UserCollection {
  import opened Wrappers
  import opened Oracles
  import opened UserModel

  /** The collection's contents and the next ObjectId it hands out. */
  datatype StoreState = StoreState(users: seq<UserRecord>, nextId: ObjectId)

  /** What the schema and the unique indexes guarantee of the collection:
      every document is well formed, ids are below `nextId`, and ids,
      usernames and emails are unique. */
  ghost predicate StoreValid(s: StoreState) {
    (forall i :: 0 <= i < |s.users| ==> WellFormed(s.users[i]) && s.users[i].id < s.nextId) &&
    (forall i, j :: 0 <= i < j < |s.users| ==>
       s.users[i].id != s.users[j].id &&
       s.users[i].username != s.users[j].username &&
       s.users[i].email != s.users[j].email)
  }

  /** Index of the first document (in natural order) that satisfies `p`,
      or `|users|` when none does. */
  function FirstMatch(users: seq<UserRecord>, p: UserRecord -> bool): (k: nat)
    ensures k <= |users|
    ensures forall j :: 0 <= j < k ==> !p(users[j])
    ensures k < |users| ==> p(users[k])
  {
    if |users| == 0 || p(users[0]) then 0
    else 1 + FirstMatch(users[1..], p)
  }

  function FindFirst(users: seq<UserRecord>, p: UserRecord -> bool): Option<UserRecord> {
    var k := FirstMatch(users, p);
    if k < |users| then Some(users[k]) else None
  }

  /** One condition of the `$or` filter. The query value goes through the
      path's setters; an undefined value drops the condition, leaving `{}`,
      which every document satisfies. */
  predicate KeyCondition(value: Option<string>, stored: string) {
    match value
    case None => true
    case Some(v) => NormalizeKey(v) == stored
  }

  /** `User.findOne({$or: [{username}, {email}]})`. */
  function FindOne(users: seq<UserRecord>, username: Option<string>, email: Option<string>): (r: Option<UserRecord>)
    ensures r.Some? ==> r.value in users
  {
    FindFirst(users, (u: UserRecord) => KeyCondition(username, u.username) || KeyCondition(email, u.email))
  }

  /** `User.findById(id)`; mongoose turns an undefined id into
      `{_id: null}`, which matches nothing. */
  function FindById(users: seq<UserRecord>, id: Option<ObjectId>): (r: Option<UserRecord>)
    ensures r.Some? ==> r.value in users && id == Some(r.value.id)
  {
    match id
    case None => None
    case Some(x) => FindFirst(users, (u: UserRecord) => u.id == x)
  }

  /** `findOne` finds nothing exactly when no document has the given
      (normalised) username or the given (normalised) email, and both
      were given. */
  lemma FindOneNoneIff(users: seq<UserRecord>, username: Option<string>, email: Option<string>)
    ensures FindOne(users, username, email).None? <==>
      (|users| == 0 || (username.Some? && email.Some?)) &&
      forall u :: u in users ==>
        (username.Some? ==> u.username != NormalizeKey(username.value)) &&
        (email.Some? ==> u.email != NormalizeKey(email.value))
  {
    var p := (u: UserRecord) => KeyCondition(username, u.username) || KeyCondition(email, u.email);
    var k := FirstMatch(users, p);
    if k == |users| {
      forall u | u in users
        ensures (username.Some? ==> u.username != NormalizeKey(username.value))
        ensures (email.Some? ==> u.email != NormalizeKey(email.value))
        ensures username.Some? && email.Some?
      {
        var j :| 0 <= j < |users| && users[j] == u;
        assert !p(users[j]);
      }
    }
  }

  /** The document `findOne` returns satisfies the filter. */
  lemma FindOneSound(users: seq<UserRecord>, username: Option<string>, email: Option<string>)
    requires FindOne(users, username, email).Some?
    ensures FindOne(users, username, email).value in users
    ensures KeyCondition(username, FindOne(users, username, email).value.username) ||
            KeyCondition(email, FindOne(users, username, email).value.email)
  {
  }

  /** In a valid collection `findById` returns the one document with that
      id, and nothing for an id no document has. */
  lemma FindByIdExact(s: StoreState, id: ObjectId)
    requires StoreValid(s)
    ensures forall u :: u in s.users && u.id == id ==> FindById(s.users, Some(id)) == Some(u)
    ensures (forall u :: u in s.users ==> u.id != id) ==> FindById(s.users, Some(id)) == None
  {
    var p := (u: UserRecord) => u.id == id;
    var k := FirstMatch(s.users, p);
    forall u | u in s.users && u.id == id ensures FindById(s.users, Some(id)) == Some(u) {
      var j :| 0 <= j < |s.users| && s.users[j] == u;
      assert k <= j && p(s.users[k]);
      assert k == j;
    }
  }

  /** Two collections whose documents agree field by field on everything
      but the password and the refresh token. */
  ghost predicate SamePublicFields(a: seq<UserRecord>, b: seq<UserRecord>) {
    |a| == |b| && forall i :: 0 <= i < |a| ==> Project(a[i]) == Project(b[i])
  }

  /** `findById` cannot tell such collections apart: it finds the
      document at the same position in both. */
  lemma {:induction false} FindByIdSeesPublicFieldsOnly(a: seq<UserRecord>, b: seq<UserRecord>, id: Option<ObjectId>)
    requires SamePublicFields(a, b)
    ensures FindById(a, id).Some? <==> FindById(b, id).Some?
    ensures FindById(a, id).Some? ==> Project(FindById(a, id).value) == Project(FindById(b, id).value)
  {
    if id.Some? && |a| > 0 {
      var x := id.value;
      var p := (u: UserRecord) => u.id == x;
      assert Project(a[0]) == Project(b[0]);
      if !p(a[0]) {
        assert SamePublicFields(a[1..], b[1..]) by {
          forall i | 0 <= i < |a| - 1 ensures Project(a[1..][i]) == Project(b[1..][i]) {
            assert Project(a[i + 1]) == Project(b[i + 1]);
          }
        }
        FindByIdSeesPublicFieldsOnly(a[1..], b[1..], id);
        assert FindFirst(a, p) == FindFirst(a[1..], p);
        assert FindFirst(b, p) == FindFirst(b[1..], p);
      }
    }
  }

  /** Failures of `User.create`: mongoose validation, or the unique index
      on `username`/`email` (E11000). */
  datatype CreateError = ValidationError(paths: set<string>) | DuplicateKeyError

  /** A document with this username or this email is already stored. */
  predicate Collides(users: seq<UserRecord>, u: UserRecord) {
    exists i | 0 <= i < |users| :: users[i].username == u.username || users[i].email == u.email
  }

  /** `User.create(input)`: build the document through the setters,
      validate, run the pre-save hook, insert unless the unique index
      refuses. Nothing changes on failure. */
  function CreateOutcome(s: StoreState, input: CreateInput, bcrypt: Bcrypt): (Result<UserRecord, CreateError>, StoreState) {
    var f := CastInput(input);
    var missing := MissingPaths(f);
    if missing != {} then (Err(ValidationError(missing)), s)
    else
      var u := NewRecord(s.nextId, f, bcrypt);
      if Collides(s.users, u) then (Err(DuplicateKeyError), s)
      else (Ok(u), StoreState(s.users + [u], s.nextId + 1))
  }

  /** A successful `create` stores the document built from the input. */
  lemma CreateOkIsNewRecord(s: StoreState, input: CreateInput, bcrypt: Bcrypt)
    requires CreateOutcome(s, input, bcrypt).0.Ok?
    ensures MissingPaths(CastInput(input)) == {}
    ensures CreateOutcome(s, input, bcrypt).0.value == NewRecord(s.nextId, CastInput(input), bcrypt)
  {
  }

  /** `create` keeps the collection valid, and on success appends exactly
      the new document under a fresh id; on failure nothing changes. */
  lemma CreatePreservesValid(s: StoreState, input: CreateInput, bcrypt: Bcrypt)
    requires StoreValid(s)
    ensures StoreValid(CreateOutcome(s, input, bcrypt).1)
    ensures CreateOutcome(s, input, bcrypt).0.Err? ==> CreateOutcome(s, input, bcrypt).1 == s
    ensures CreateOutcome(s, input, bcrypt).0.Ok? ==>
      var u := CreateOutcome(s, input, bcrypt).0.value;
      && u.id == s.nextId
      && (forall w :: w in s.users ==> w.id != u.id)
      && CreateOutcome(s, input, bcrypt).1 == StoreState(s.users + [u], s.nextId + 1)
  {
    var f := CastInput(input);
    if MissingPaths(f) == {} {
      var u := NewRecord(s.nextId, f, bcrypt);
      NewRecordWellFormed(s.nextId, input, bcrypt);
      if !Collides(s.users, u) {
        var t := StoreState(s.users + [u], s.nextId + 1);
        forall i, j | 0 <= i < j < |t.users|
          ensures t.users[i].id != t.users[j].id
          ensures t.users[i].username != t.users[j].username
          ensures t.users[i].email != t.users[j].email
        {
          if j == |s.users| {
            assert t.users[i] == s.users[i];
          }
        }
      }
    }
  }

  /** The collection as a mutable object. */
  class UserStore {
    var users: seq<UserRecord>
    var nextId: ObjectId

    function State(): StoreState
      reads this
    {
      StoreState(users, nextId)
    }

    ghost predicate Valid()
      reads this
    {
      StoreValid(State())
    }

    constructor ()
      ensures Valid() && State() == StoreState([], 0)
    {
      users, nextId := [], 0;
    }

    /** `User.create(input)` against this collection. */
    method Create(input: CreateInput, bcrypt: Bcrypt) returns (r: Result<UserRecord, CreateError>)
      requires Valid()
      modifies this
      ensures Valid()
      ensures (r, State()) == CreateOutcome(old(State()), input, bcrypt)
    {
      ghost var s0 := State();
      CreatePreservesValid(s0, input, bcrypt);
      var doc := new UserDocument(nextId, input);
      var missing := MissingPaths(doc.Fields());
      if missing != {} {
        return Err(ValidationError(missing));
      }
      doc.PreSave(bcrypt);
      var u := doc.Record();
      assert u == NewRecord(s0.nextId, CastInput(input), bcrypt);
      if Collides(users, u) {
        return Err(DuplicateKeyError);
      }
      users, nextId := users + [u], nextId + 1;
      r := Ok(u);
    }
  }
}
