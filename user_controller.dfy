/** `registerUser`: the guard chain that validates a registration request,
    uploads the images, creates the user and replies with its public view. */
module UserController {
  import opened Wrappers
  import opened JsString
  import opened Oracles
  import opened ApiErrors
  import opened ApiResponses
  import opened UserModel
  import opened UserCollection

  const AllFieldsRequired := "All fields are required."
  const UserAlreadyExists := "User with email or username already exists."
  const AvatarRequired := "Avatar file is required."
  const RegistrationFailed := "Something went wrong while registering the user."
  const Registered := "User registered Successfully."
  /** What V8 throws for `username.toLowerCase()` on an undefined username. */
  const LowerCaseOfUndefined := "Cannot read properties of undefined (reading 'toLowerCase')"

  /** The four fields read from `req.body`; `None` is an absent field. */
  datatype RegisterBody = RegisterBody(
    fullName: Option<string>,
    email: Option<string>,
    username: Option<string>,
    password: Option<string>)

  /** Local paths of the files multer stored: the first `avatar` and the
      first `coverImage`, when sent. */
  datatype UploadedFiles = UploadedFiles(avatarPath: Option<string>, coverImagePath: Option<string>)

  /** What the handler throws (and `AsyncHandler` hands to `next`): an
      `ApiError`, a JavaScript `TypeError`, or an error from `User.create`. */
  datatype Thrown = Api(apiError: ApiError) | TypeError(message: string) | CreateFailed(createError: CreateError)

  /** `res.status(httpStatus).json(body)`. */
  datatype Reply = Reply(httpStatus: int, body: ApiResponse<UserView>)

  function Fail(statusCode: int, message: string): Result<Reply, Thrown> {
    Err(Api(NewApiError(statusCode, Some(message), None)))
  }

  function RequiredFields(body: RegisterBody): seq<Option<string>> {
    [body.fullName, body.email, body.username, body.password]
  }

  /** `field?.trim() === ""`: an absent field gives `undefined`, never "". */
  predicate IsBlank(field: Option<string>) {
    field.Some? && Trim(field.value) == ""
  }

  /** `[fullName, email, username, password].some(...)`. */
  predicate AnyBlank(fields: seq<Option<string>>) {
    exists i | 0 <= i < |fields| :: IsBlank(fields[i])
  }

  /** `coverImage?.url || ""`. */
  function CoverUrl(coverImage: Option<string>): string {
    if Truthy(coverImage) then coverImage.value else ""
  }

  /** The document handed to `User.create`: `avatar.url`, `coverImage?.url
      || ""` and `username.toLowerCase()`. */
  function RegistrationInput(body: RegisterBody, avatarUrl: string, coverImage: Option<string>): CreateInput
    requires body.username.Some?
  {
    CreateInput(body.fullName, Some(avatarUrl), Some(CoverUrl(coverImage)),
                body.email, body.password, Some(ToLower(body.username.value)))
  }

  /** `User.create`, then `findById(user._id)` with the secrets projected
      away, then the 201 reply. */
  function CreateAndReply(s: StoreState, input: CreateInput, bcrypt: Bcrypt): (Result<Reply, Thrown>, StoreState) {
    var (created, s') := CreateOutcome(s, input, bcrypt);
    match created
    case Err(e) => (Err(CreateFailed(e)), s')
    case Ok(u) =>
      match FindById(s'.users, Some(u.id))
      case None => (Fail(500, RegistrationFailed), s')
      case Some(c) => (Ok(Reply(201, NewApiResponse(200, Project(c), Some(Registered)))), s')
  }

  /** The whole handler as a function of the collection before the request:
      the outcome and the collection after it. */
  function RegisterOutcome(s: StoreState, bcrypt: Bcrypt, upload: Uploader, body: RegisterBody, files: UploadedFiles)
    : (out: (Result<Reply, Thrown>, StoreState))
    ensures out.0.Ok? ==> out.0.value.httpStatus == 201 && out.0.value.body.statusCode == 200 && out.0.value.body.success
  {
    if AnyBlank(RequiredFields(body)) then (Fail(400, AllFieldsRequired), s)
    else if FindOne(s.users, body.username, body.email).Some? then (Fail(409, UserAlreadyExists), s)
    else if !Truthy(files.avatarPath) then (Fail(400, AvatarRequired), s)
    else
      var avatar := UploadOnCloudinary(upload, files.avatarPath);
      var coverImage := UploadOnCloudinary(upload, files.coverImagePath);
      if avatar.None? then (Fail(400, AvatarRequired), s)
      else if body.username.None? then (Err(TypeError(LowerCaseOfUndefined)), s)
      else CreateAndReply(s, RegistrationInput(body, avatar.value, coverImage), bcrypt)
  }

  /** Every check of the handler passes. `RegisterReachesCreate` shows that
      such a request reaches `User.create`; the rejection lemmas below show
      that a request failing any one check does not. */
  predicate PassesChecks(s: StoreState, upload: Uploader, body: RegisterBody, files: UploadedFiles) {
    && !AnyBlank(RequiredFields(body))
    && FindOne(s.users, body.username, body.email).None?
    && Truthy(files.avatarPath)
    && UploadOnCloudinary(upload, files.avatarPath).Some?
    && body.username.Some?
  }

  lemma RegisterReachesCreate(s: StoreState, bcrypt: Bcrypt, upload: Uploader, body: RegisterBody, files: UploadedFiles)
    requires PassesChecks(s, upload, body, files)
    ensures RegisterOutcome(s, bcrypt, upload, body, files) ==
      CreateAndReply(s, RegistrationInput(body, upload(files.avatarPath.value).value,
                                          UploadOnCloudinary(upload, files.coverImagePath)), bcrypt)
  {
  }

  // ---------------------------------------------------------------
  // Properties of the handler

  /** A field trips the emptiness check exactly when it is present and
      consists of white space only; an absent field never does. */
  lemma BlankCheckIff(body: RegisterBody)
    ensures AnyBlank(RequiredFields(body)) <==>
      exists f :: f in RequiredFields(body) && f.Some? && AllWhiteSpace(f.value)
  {
    var fs := RequiredFields(body);
    forall i | 0 <= i < |fs| && fs[i].Some? ensures IsBlank(fs[i]) <==> AllWhiteSpace(fs[i].value) {
      TrimEmptyIff(fs[i].value);
    }
  }

  /** First check: a blank field gives 400 "All fields are required." and
      leaves the collection as it was, whatever else is wrong. */
  lemma BlankFieldRejected(s: StoreState, bcrypt: Bcrypt, upload: Uploader, body: RegisterBody, files: UploadedFiles)
    requires AnyBlank(RequiredFields(body))
    ensures RegisterOutcome(s, bcrypt, upload, body, files) == (Fail(400, AllFieldsRequired), s)
  {
  }

  /** Second check: a stored user with the same username or the same email
      gives 409 and nothing is inserted. */
  lemma DuplicateRejected(s: StoreState, bcrypt: Bcrypt, upload: Uploader, body: RegisterBody, files: UploadedFiles, u: UserRecord)
    requires !AnyBlank(RequiredFields(body))
    requires u in s.users
    requires (body.username.Some? && u.username == NormalizeKey(body.username.value)) ||
             (body.email.Some? && u.email == NormalizeKey(body.email.value))
    ensures RegisterOutcome(s, bcrypt, upload, body, files) == (Fail(409, UserAlreadyExists), s)
  {
    FindOneNoneIff(s.users, body.username, body.email);
  }

  /** An absent username or email drops its condition from the `$or`
      filter, so on a non-empty collection such a request always gets 409. */
  lemma AbsentKeyMatchesAnyUser(s: StoreState, bcrypt: Bcrypt, upload: Uploader, body: RegisterBody, files: UploadedFiles)
    requires !AnyBlank(RequiredFields(body))
    requires |s.users| > 0
    requires body.username.None? || body.email.None?
    ensures RegisterOutcome(s, bcrypt, upload, body, files) == (Fail(409, UserAlreadyExists), s)
  {
    FindOneNoneIff(s.users, body.username, body.email);
  }

  /** Third and fourth checks: no avatar path, or an avatar upload that
      returns null, gives 400 "Avatar file is required." and no insert. */
  lemma AvatarRequiredRejected(s: StoreState, bcrypt: Bcrypt, upload: Uploader, body: RegisterBody, files: UploadedFiles)
    requires !AnyBlank(RequiredFields(body))
    requires FindOne(s.users, body.username, body.email).None?
    requires !Truthy(files.avatarPath) || upload(files.avatarPath.value).None?
    ensures RegisterOutcome(s, bcrypt, upload, body, files) == (Fail(400, AvatarRequired), s)
  {
  }

  /** On an empty collection a body without `username` passes every check
      and fails on `username.toLowerCase()`, before anything is stored. */
  lemma AbsentUsernameThrowsTypeError(s: StoreState, bcrypt: Bcrypt, upload: Uploader, body: RegisterBody, files: UploadedFiles)
    requires s.users == []
    requires !AnyBlank(RequiredFields(body)) && body.username.None?
    requires Truthy(files.avatarPath) && upload(files.avatarPath.value).Some?
    ensures RegisterOutcome(s, bcrypt, upload, body, files) == (Err(TypeError(LowerCaseOfUndefined)), s)
  {
  }

  /** The duplicate check runs on the same normalised values the unique
      indexes compare: a request that found no existing user cannot
      collide with one at insert time. */
  lemma NoCollisionAfterDuplicateCheck(s: StoreState, body: RegisterBody, avatarUrl: string, coverImage: Option<string>, bcrypt: Bcrypt)
    requires FindOne(s.users, body.username, body.email).None? && body.username.Some?
    requires MissingPaths(CastInput(RegistrationInput(body, avatarUrl, coverImage))) == {}
    ensures !Collides(s.users, NewRecord(s.nextId, CastInput(RegistrationInput(body, avatarUrl, coverImage)), bcrypt))
  {
    var input := RegistrationInput(body, avatarUrl, coverImage);
    var u := NewRecord(s.nextId, CastInput(input), bcrypt);
    NewRecordFields(s.nextId, input, bcrypt);
    NormalizeKeyAbsorbsLower(body.username.value);
    FindOneNoneIff(s.users, body.username, body.email);
    forall i | 0 <= i < |s.users|
      ensures s.users[i].username != u.username && s.users[i].email != u.email
    {
      assert s.users[i] in s.users;
    }
  }

  /** Hence the unique index never refuses a registration. */
  lemma UniqueIndexNeverRefuses(s: StoreState, bcrypt: Bcrypt, upload: Uploader, body: RegisterBody, files: UploadedFiles)
    ensures RegisterOutcome(s, bcrypt, upload, body, files).0 != Err(CreateFailed(DuplicateKeyError))
  {
    if PassesChecks(s, upload, body, files) {
      var avatarUrl := upload(files.avatarPath.value).value;
      var coverImage := UploadOnCloudinary(upload, files.coverImagePath);
      RegisterReachesCreate(s, bcrypt, upload, body, files);
      if MissingPaths(CastInput(RegistrationInput(body, avatarUrl, coverImage))) == {} {
        NoCollisionAfterDuplicateCheck(s, body, avatarUrl, coverImage, bcrypt);
      }
    }
  }

  /** Successful creation is always followed by a successful re-read: in a
      valid collection the 500 branch cannot be reached, and the reply is
      201 with an envelope whose own status code is 200. */
  lemma CreateAndReplySucceeds(s: StoreState, input: CreateInput, bcrypt: Bcrypt)
    requires StoreValid(s)
    requires CreateOutcome(s, input, bcrypt).0.Ok?
    ensures var u := CreateOutcome(s, input, bcrypt).0.value;
      CreateAndReply(s, input, bcrypt) ==
        (Ok(Reply(201, ApiResponse(200, Project(u), Registered, true))), StoreState(s.users + [u], s.nextId + 1))
  {
    CreatePreservesValid(s, input, bcrypt);
    var (created, s') := CreateOutcome(s, input, bcrypt);
    assert created.value in s'.users;
    FindByIdExact(s', created.value.id);
  }

  /** No failure inserts anything: whenever the handler fails, the
      collection is unchanged; whenever it succeeds, exactly one document
      is added under a fresh id. */
  lemma RegisterWritesOnlyOnSuccess(s: StoreState, bcrypt: Bcrypt, upload: Uploader, body: RegisterBody, files: UploadedFiles)
    requires StoreValid(s)
    ensures StoreValid(RegisterOutcome(s, bcrypt, upload, body, files).1)
    ensures RegisterOutcome(s, bcrypt, upload, body, files).0.Err? ==> RegisterOutcome(s, bcrypt, upload, body, files).1 == s
    ensures RegisterOutcome(s, bcrypt, upload, body, files).0.Ok? ==>
      exists u: UserRecord :: u.id == s.nextId && RegisterOutcome(s, bcrypt, upload, body, files).1 == StoreState(s.users + [u], s.nextId + 1)
  {
    if PassesChecks(s, upload, body, files) {
      var input := RegistrationInput(body, upload(files.avatarPath.value).value, UploadOnCloudinary(upload, files.coverImagePath));
      RegisterReachesCreate(s, bcrypt, upload, body, files);
      CreatePreservesValid(s, input, bcrypt);
      if CreateOutcome(s, input, bcrypt).0.Ok? {
        CreateAndReplySucceeds(s, input, bcrypt);
      }
    }
  }

  /** A successful registration stores the normalised fields, the uploaded
      avatar URL, the cover URL or "", the bcrypt hash of the password and
      no refresh token, and replies HTTP 201 with an envelope whose own
      status code is 200 and whose payload is the new user's public view. */
  lemma RegisterSuccessContents(s: StoreState, bcrypt: Bcrypt, upload: Uploader, body: RegisterBody, files: UploadedFiles)
    requires StoreValid(s)
    requires RegisterOutcome(s, bcrypt, upload, body, files).0.Ok?
    ensures var (r, s') := RegisterOutcome(s, bcrypt, upload, body, files);
      && |s'.users| == |s.users| + 1 && s'.users[..|s.users|] == s.users
      && var u := s'.users[|s.users|];
      && body.username.Some? && u.username == NormalizeKey(body.username.value)
      && body.email.Some? && u.email == NormalizeKey(body.email.value)
      && body.fullName.Some? && u.fullName == Trim(body.fullName.value)
      && body.password.Some? && u.password == bcrypt.hash(body.password.value, SaltRounds)
      && files.avatarPath.Some? && upload(files.avatarPath.value) == Some(u.avatar)
      && u.coverImage == Some(CoverUrl(UploadOnCloudinary(upload, files.coverImagePath)))
      && u.refreshToken == None && u.id == s.nextId
      && r.value == Reply(201, ApiResponse(200, Project(u), Registered, true))
  {
    var input := RegistrationInput(body, upload(files.avatarPath.value).value, UploadOnCloudinary(upload, files.coverImagePath));
    RegisterReachesCreate(s, bcrypt, upload, body, files);
    assert CreateAndReply(s, input, bcrypt).0.Ok?;
    CreateOkIsNewRecord(s, input, bcrypt);
    var u := CreateOutcome(s, input, bcrypt).0.value;
    CreateAndReplySucceeds(s, input, bcrypt);
    assert RegisterOutcome(s, bcrypt, upload, body, files) ==
      (Ok(Reply(201, ApiResponse(200, Project(u), Registered, true))), StoreState(s.users + [u], s.nextId + 1));
    NewRecordFields(s.nextId, input, bcrypt);
    NormalizeKeyAbsorbsLower(body.username.value);
  }

  /** A complete request for a new username and email, with an avatar that
      uploads to a non-empty URL, always succeeds. */
  lemma CompleteRequestSucceeds(s: StoreState, bcrypt: Bcrypt, upload: Uploader, body: RegisterBody, files: UploadedFiles)
    requires StoreValid(s)
    requires body.fullName.Some? && body.email.Some? && body.username.Some? && body.password.Some?
    requires !AnyBlank(RequiredFields(body))
    requires forall u :: u in s.users ==>
               u.username != NormalizeKey(body.username.value) && u.email != NormalizeKey(body.email.value)
    requires Truthy(files.avatarPath)
    requires var url := upload(files.avatarPath.value); url.Some? && url.value != ""
    ensures RegisterOutcome(s, bcrypt, upload, body, files).0.Ok?
  {
    FindOneNoneIff(s.users, body.username, body.email);
    var avatarUrl := upload(files.avatarPath.value).value;
    var coverImage := UploadOnCloudinary(upload, files.coverImagePath);
    var input := RegistrationInput(body, avatarUrl, coverImage);
    RegisterReachesCreate(s, bcrypt, upload, body, files);
    CompleteInputValidates(body, avatarUrl, coverImage);
    NoCollisionAfterDuplicateCheck(s, body, avatarUrl, coverImage, bcrypt);
    CreateAndReplySucceeds(s, input, bcrypt);
  }

  /** A request whose four fields are present and not blank, with a
      non-empty avatar URL, passes mongoose validation. */
  lemma CompleteInputValidates(body: RegisterBody, avatarUrl: string, coverImage: Option<string>)
    requires body.fullName.Some? && body.email.Some? && body.username.Some? && body.password.Some?
    requires !AnyBlank(RequiredFields(body))
    requires avatarUrl != ""
    ensures MissingPaths(CastInput(RegistrationInput(body, avatarUrl, coverImage))) == {}
  {
    var f := CastInput(RegistrationInput(body, avatarUrl, coverImage));
    assert !IsBlank(RequiredFields(body)[0]) && !IsBlank(RequiredFields(body)[1]);
    assert !IsBlank(RequiredFields(body)[2]) && !IsBlank(RequiredFields(body)[3]);
    NormalizeKeyAbsorbsLower(body.username.value);
    TrimLowerCommute(body.username.value);
    TrimLowerCommute(body.email.value);
    assert |f.username.value| == |Trim(body.username.value)|;
    assert |f.email.value| == |Trim(body.email.value)|;
    assert |Trim(body.password.value)| <= |f.password.value|;
    MissingPathsIff(f);
  }

  /** The password a user registered with is accepted by
      `isPasswordCorrect` on the stored document. */
  lemma RegisteredPasswordIsCorrect(s: StoreState, bcrypt: Bcrypt, upload: Uploader, body: RegisterBody, files: UploadedFiles)
    requires StoreValid(s) && HashVerifies(bcrypt)
    requires RegisterOutcome(s, bcrypt, upload, body, files).0.Ok?
    ensures body.password.Some?
    ensures |RegisterOutcome(s, bcrypt, upload, body, files).1.users| == |s.users| + 1
    ensures IsPasswordCorrect(RegisterOutcome(s, bcrypt, upload, body, files).1.users[|s.users|], bcrypt, body.password.value)
  {
    RegisterSuccessContents(s, bcrypt, upload, body, files);
  }

  /** The handler against a mutable collection. */
  method RegisterUser(store: UserStore, bcrypt: Bcrypt, upload: Uploader, body: RegisterBody, files: UploadedFiles)
    returns (r: Result<Reply, Thrown>)
    requires store.Valid()
    modifies store
    ensures store.Valid()
    ensures (r, store.State()) == RegisterOutcome(old(store.State()), bcrypt, upload, body, files)
  {
    if AnyBlank([body.fullName, body.email, body.username, body.password]) {
      return Fail(400, AllFieldsRequired);
    }
    var existedUser := FindOne(store.users, body.username, body.email);
    if existedUser.Some? {
      return Fail(409, UserAlreadyExists);
    }
    var avatarLocalPath := files.avatarPath;
    var coverImageLocalPath: Option<string> := None;
    if files.coverImagePath.Some? {
      coverImageLocalPath := files.coverImagePath;
    }
    if !Truthy(avatarLocalPath) {
      return Fail(400, AvatarRequired);
    }
    var avatar := UploadOnCloudinary(upload, avatarLocalPath);
    var coverImage := UploadOnCloudinary(upload, coverImageLocalPath);
    if avatar.None? {
      return Fail(400, AvatarRequired);
    }
    if body.username.None? {
      return Err(TypeError(LowerCaseOfUndefined));
    }
    var user := store.Create(RegistrationInput(body, avatar.value, coverImage), bcrypt);
    if user.Err? {
      return Err(CreateFailed(user.error));
    }
    var createdUser := FindById(store.users, Some(user.value.id));
    if createdUser.None? {
      return Fail(500, RegistrationFailed);
    }
    r := Ok(Reply(201, NewApiResponse(200, Project(createdUser.value), Some(Registered))));
  }
}
