/** The user schema: its fields and setters, its required paths, the
    pre-save hook that hashes the password, and the instance methods that
    check a password and mint the two kinds of token. */
module UserModel {
  import opened Wrappers
  import opened JsString
  import opened Oracles

  /** A stored user document (timestamps are not modelled). */
  datatype UserRecord = UserRecord(
    id: ObjectId,
    username: string,
    email: string,
    fullName: string,
    avatar: string,
    coverImage: Option<string>,
    watchHistory: seq<ObjectId>,
    password: string,
    refreshToken: Option<string>)

  /** What `select("-password -refreshToken")` leaves of a document. */
  datatype UserView = UserView(
    id: ObjectId,
    username: string,
    email: string,
    fullName: string,
    avatar: string,
    coverImage: Option<string>,
    watchHistory: seq<ObjectId>)

  function Project(u: UserRecord): UserView {
    UserView(u.id, u.username, u.email, u.fullName, u.avatar, u.coverImage, u.watchHistory)
  }

  /** The projection keeps every field except the password and the
      refresh token, so records that differ only in those two look alike. */
  lemma ProjectHidesSecrets(u: UserRecord, password: string, refreshToken: Option<string>)
    ensures Project(u.(password := password, refreshToken := refreshToken)) == Project(u)
    ensures Project(u).id == u.id && Project(u).username == u.username && Project(u).email == u.email
    ensures Project(u).fullName == u.fullName && Project(u).avatar == u.avatar
    ensures Project(u).coverImage == u.coverImage && Project(u).watchHistory == u.watchHistory
  {
  }

  // ---------------------------------------------------------------
  // Setters and validation

  /** Setters of `username` and `email` (`lowercase: true, trim: true`). */
  function NormalizeKey(s: string): string {
    Trim(ToLower(s))
  }

  /** Setter of `fullName` (`trim: true`). */
  function NormalizeName(s: string): string {
    Trim(s)
  }

  /** Running the setters on an already normalised value changes nothing. */
  lemma NormalizeKeyIdempotent(s: string)
    ensures NormalizeKey(NormalizeKey(s)) == NormalizeKey(s)
  {
    var x := Trim(ToLower(s));
    TrimLowerCommute(ToLower(s));
    ToLowerIdempotent(s);
    assert ToLower(x) == x;
    TrimIdempotent(ToLower(s));
  }

  /** Lower-casing before the setters (as the controller does) makes no
      difference to the stored value. */
  lemma NormalizeKeyAbsorbsLower(s: string)
    ensures NormalizeKey(ToLower(s)) == NormalizeKey(s)
  {
    ToLowerIdempotent(s);
  }

  /** The values handed to `User.create`; `None` is an undefined value. */
  datatype CreateInput = CreateInput(
    fullName: Option<string>,
    avatar: Option<string>,
    coverImage: Option<string>,
    email: Option<string>,
    password: Option<string>,
    username: Option<string>)

  /** A setter runs on a defined value only. */
  function Cast(v: Option<string>, setter: string -> string): Option<string> {
    match v
    case None => None
    case Some(x) => Some(setter(x))
  }

  /** The document's fields once `new User(input)` has run the setters. */
  function CastInput(input: CreateInput): CreateInput {
    input.(fullName := Cast(input.fullName, NormalizeName),
           email := Cast(input.email, NormalizeKey),
           username := Cast(input.username, NormalizeKey))
  }

  /** Mongoose's required check on a string path: defined and non-empty. */
  predicate Present(v: Option<string>) {
    v.Some? && v.value != ""
  }

  const RequiredPaths: set<string> := {"username", "email", "fullName", "avatar", "password"}

  /** The required paths that fail validation. `coverImage`,
      `watchHistory` and `refreshToken` are optional. */
  function MissingPaths(f: CreateInput): set<string> {
    (if Present(f.username) then {} else {"username"}) +
    (if Present(f.email) then {} else {"email"}) +
    (if Present(f.fullName) then {} else {"fullName"}) +
    (if Present(f.avatar) then {} else {"avatar"}) +
    (if Present(f.password) then {} else {"password"})
  }

  /** Validation passes exactly when all five required paths are present,
      and reports only required paths. */
  lemma MissingPathsIff(f: CreateInput)
    ensures MissingPaths(f) <= RequiredPaths
    ensures MissingPaths(f) == {} <==>
      Present(f.username) && Present(f.email) && Present(f.fullName) &&
      Present(f.avatar) && Present(f.password)
  {
    if MissingPaths(f) == {} {
      assert "username" !in MissingPaths(f) && "email" !in MissingPaths(f);
      assert "fullName" !in MissingPaths(f) && "avatar" !in MissingPaths(f);
      assert "password" !in MissingPaths(f);
    }
  }

  /** The schema's rules as they hold of every stored document:
      normalised, non-empty `username` and `email`, trimmed non-empty
      `fullName`, non-empty `avatar`. */
  ghost predicate WellFormed(u: UserRecord) {
    NormalizeKey(u.username) == u.username && u.username != "" &&
    NormalizeKey(u.email) == u.email && u.email != "" &&
    NormalizeName(u.fullName) == u.fullName && u.fullName != "" &&
    u.avatar != ""
  }

  /** The document that a successful `User.create` stores, the password
      already through the pre-save hook. */
  function NewRecord(id: ObjectId, f: CreateInput, bcrypt: Bcrypt): UserRecord
    requires MissingPaths(f) == {}
  {
    MissingPathsIff(f);
    UserRecord(id, f.username.value, f.email.value, f.fullName.value, f.avatar.value,
               f.coverImage, [], bcrypt.hash(f.password.value, SaltRounds), None)
  }

  /** Every document built from validated input satisfies the schema's
      rules. */
  lemma NewRecordWellFormed(id: ObjectId, input: CreateInput, bcrypt: Bcrypt)
    requires MissingPaths(CastInput(input)) == {}
    ensures WellFormed(NewRecord(id, CastInput(input), bcrypt))
  {
    var f := CastInput(input);
    MissingPathsIff(f);
    NormalizeKeyIdempotent(input.username.value);
    NormalizeKeyIdempotent(input.email.value);
    TrimIdempotent(input.fullName.value);
  }

  /** The stored document keeps the input's values, normalised, and the
      password as its bcrypt hash with cost 10. */
  lemma NewRecordFields(id: ObjectId, input: CreateInput, bcrypt: Bcrypt)
    requires MissingPaths(CastInput(input)) == {}
    ensures var u := NewRecord(id, CastInput(input), bcrypt);
      && u.id == id
      && input.username.Some? && u.username == NormalizeKey(input.username.value)
      && input.email.Some? && u.email == NormalizeKey(input.email.value)
      && input.fullName.Some? && u.fullName == NormalizeName(input.fullName.value)
      && input.avatar == Some(u.avatar) && u.coverImage == input.coverImage
      && input.password.Some? && u.password == bcrypt.hash(input.password.value, SaltRounds)
      && u.refreshToken == None && u.watchHistory == []
  {
    MissingPathsIff(CastInput(input));
  }

  // ---------------------------------------------------------------
  // A document in memory and its pre-save hook

  /** A mongoose document between construction and save. */
  class UserDocument {
    var id: ObjectId
    var username: Option<string>
    var email: Option<string>
    var fullName: Option<string>
    var avatar: Option<string>
    var coverImage: Option<string>
    var watchHistory: seq<ObjectId>
    var password: Option<string>
    var refreshToken: Option<string>
    var passwordModified: bool

    function Fields(): CreateInput
      reads this
    {
      CreateInput(fullName, avatar, coverImage, email, password, username)
    }

    /** `new User(input)`: each assignment runs the setters; a path given
        a value counts as modified. */
    constructor (id: ObjectId, input: CreateInput)
      ensures this.id == id && Fields() == CastInput(input)
      ensures watchHistory == [] && refreshToken == None
      ensures passwordModified == input.password.Some?
    {
      var f := CastInput(input);
      this.id := id;
      username, email, fullName := f.username, f.email, f.fullName;
      avatar, coverImage, password := f.avatar, f.coverImage, f.password;
      watchHistory, refreshToken := [], None;
      passwordModified := input.password.Some?;
    }

    /** A document read back from the collection: nothing is modified. */
    constructor Loaded(u: UserRecord)
      ensures Complete() && Record() == u && !passwordModified
      ensures Fields() == CreateInput(Some(u.fullName), Some(u.avatar), u.coverImage,
                                      Some(u.email), Some(u.password), Some(u.username))
    {
      id, username, email, fullName := u.id, Some(u.username), Some(u.email), Some(u.fullName);
      avatar, coverImage, watchHistory := Some(u.avatar), u.coverImage, u.watchHistory;
      password, refreshToken := Some(u.password), u.refreshToken;
      passwordModified := false;
    }

    /** `pre("save")`: rehash the password only when it was modified.
        Validation runs before this hook, so the password is present.
        The source assigns the unawaited promise of `bcrypt.hash`; the
        model stores the hash that was evidently intended. */
    method PreSave(bcrypt: Bcrypt)
      requires MissingPaths(Fields()) == {}
      modifies this`password
      ensures Complete()
      ensures password == if old(passwordModified)
                          then Some(bcrypt.hash(old(password).value, SaltRounds))
                          else old(password)
    {
      if !passwordModified {
        return;
      }
      password := Some(bcrypt.hash(password.value, SaltRounds));
    }

    /** Every path the stored record needs holds a value. */
    predicate Complete()
      reads this
    {
      username.Some? && email.Some? && fullName.Some? && avatar.Some? && password.Some?
    }

    /** The document as stored. */
    function Record(): UserRecord
      reads this
      requires Complete()
    {
      UserRecord(id, username.value, email.value, fullName.value, avatar.value,
                 coverImage, watchHistory, password.value, refreshToken)
    }
  }

  /** Saving a stored document again without touching its password keeps
      the stored hash: the hook returns early instead of hashing the hash. */
  method ResaveLoaded(u: UserRecord, bcrypt: Bcrypt) returns (saved: UserRecord)
    requires WellFormed(u) && u.password != ""
    ensures saved == u
  {
    var doc := new UserDocument.Loaded(u);
    doc.PreSave(bcrypt);
    saved := doc.Record();
  }

  // ---------------------------------------------------------------
  // Instance methods

  /** `isPasswordCorrect(candidate)`: bcrypt's verdict on the candidate
      against the stored hash. */
  function IsPasswordCorrect(u: UserRecord, bcrypt: Bcrypt, candidate: string): bool {
    bcrypt.compare(candidate, u.password)
  }

  /** The plaintext a stored hash was made from is accepted. */
  lemma HashedPasswordIsCorrect(u: UserRecord, bcrypt: Bcrypt, plaintext: string)
    requires HashVerifies(bcrypt)
    requires u.password == bcrypt.hash(plaintext, SaltRounds)
    ensures IsPasswordCorrect(u, bcrypt, plaintext)
  {
  }

  /** The secrets and lifetimes read from the environment. */
  datatype TokenConfig = TokenConfig(
    accessSecret: string,
    accessExpiry: string,
    refreshSecret: string,
    refreshExpiry: string)

  /** The claim set both generators sign. */
  function TokenClaims(u: UserRecord): Claims {
    Claims(Some(u.id), u.email, u.username, u.fullName)
  }

  function GenerateAccessToken(u: UserRecord, jwt: JsonWebToken, cfg: TokenConfig): string {
    jwt.sign(TokenClaims(u), cfg.accessSecret, cfg.accessExpiry)
  }

  function GenerateRefreshToken(u: UserRecord, jwt: JsonWebToken, cfg: TokenConfig): string {
    jwt.sign(TokenClaims(u), cfg.refreshSecret, cfg.refreshExpiry)
  }

  /** Both tokens decode, under their own secrets, to the same claims,
      which are the record's id, email, username and full name. */
  lemma TokensCarrySameClaims(u: UserRecord, jwt: JsonWebToken, cfg: TokenConfig)
    requires RoundTrips(jwt)
    ensures jwt.verify(GenerateAccessToken(u, jwt, cfg), cfg.accessSecret) == Ok(TokenClaims(u))
    ensures jwt.verify(GenerateRefreshToken(u, jwt, cfg), cfg.refreshSecret) == Ok(TokenClaims(u))
    ensures TokenClaims(u) == Claims(Some(u.id), u.email, u.username, u.fullName)
  {
  }

  /** The generators differ only in the configuration they read: with
      equal secrets and lifetimes they mint the same token. */
  lemma GeneratorsDifferOnlyInConfig(u: UserRecord, jwt: JsonWebToken, cfg: TokenConfig)
    requires cfg.accessSecret == cfg.refreshSecret && cfg.accessExpiry == cfg.refreshExpiry
    ensures GenerateAccessToken(u, jwt, cfg) == GenerateRefreshToken(u, jwt, cfg)
  {
  }

  /** Tokens are taken from the claim fields of the current record and
      from nothing else: not the password, avatar or stored refresh token. */
  lemma TokensDependOnClaimFieldsOnly(u: UserRecord, w: UserRecord, jwt: JsonWebToken, cfg: TokenConfig)
    requires u.id == w.id && u.email == w.email && u.username == w.username && u.fullName == w.fullName
    ensures GenerateAccessToken(u, jwt, cfg) == GenerateAccessToken(w, jwt, cfg)
    ensures GenerateRefreshToken(u, jwt, cfg) == GenerateRefreshToken(w, jwt, cfg)
  {
  }

  /** With distinct secrets a refresh token never verifies as an access
      token, nor the other way round. */
  lemma TokensNotInterchangeable(u: UserRecord, jwt: JsonWebToken, cfg: TokenConfig)
    requires SecretBound(jwt)
    requires cfg.accessSecret != cfg.refreshSecret
    ensures jwt.verify(GenerateRefreshToken(u, jwt, cfg), cfg.accessSecret).Err?
    ensures jwt.verify(GenerateAccessToken(u, jwt, cfg), cfg.refreshSecret).Err?
  {
  }
}
