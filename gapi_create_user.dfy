/** The gRPC CreateUser handler (gapi/rpc_create_user.go): hash the
    password, insert the user through the pool, and map a store error to a
    gRPC status. Password hashing is a function parameter returning the
    hash or the error's text. */
module GapiCreateUser {
  import opened Wrappers
  import opened DbErrors
  import opened Schema
  import UQ = UsersQueries

  /** The gRPC status codes the handler uses. */
  datatype Code = Internal | AlreadyExists | Unimplemented

  datatype GrpcStatus = GrpcStatus(code: Code, message: string)

  datatype CreateUserRequest = CreateUserRequest(username: string, fullName: string, email: string, password: string)

  datatype CreateUserResponse = CreateUserResponse(user: User)

  /** The handler's reply, the database after it, and the parameters it
      gave the store, if it called the store at all. */
  datatype RpcOutcome = RpcOutcome(db: Db, storeArg: Option<UQ.CreateUserParams>, reply: Result<CreateUserResponse, GrpcStatus>)

  /** The status a failed insert is reported with: only an email clash is
      told apart; everything else, a taken username included, is
      Unimplemented. */
  function StoreErrorStatus(err: Error, email: string): (s: GrpcStatus)
    ensures s.code == AlreadyExists <==> ErrorDescription(err) == (UniqueViolationCode, UniqueEmailConstraint)
    ensures s.code == AlreadyExists ==> s.message == "email already exists: " + email
    ensures s.code != AlreadyExists ==> s == GrpcStatus(Unimplemented, "method CreateUser not implemented")
  {
    var (errCode, constraintName) := ErrorDescription(err);
    if errCode == UniqueViolationCode && constraintName == UniqueEmailConstraint then
      GrpcStatus(AlreadyExists, "email already exists: " + email)
    else
      GrpcStatus(Unimplemented, "method CreateUser not implemented")
  }

  function CreateUser(db: Db, req: CreateUserRequest, hashPassword: string -> Result<string, string>,
                      now: Time, fault: Option<Error>): (r: RpcOutcome)
    ensures hashPassword(req.password).Err? ==>
              r == RpcOutcome(db, None, Err(GrpcStatus(Internal, "failed to hash password: " + hashPassword(req.password).error)))
    ensures hashPassword(req.password).Ok? ==>
              var arg := UQ.CreateUserParams(req.username, hashPassword(req.password).value, req.fullName, req.email);
              var inserted := UQ.CreateUser(db, arg, now, fault);
              && r.storeArg == Some(arg)
              && r.db == inserted.db
              && (inserted.err.Some? ==> r.reply == Err(StoreErrorStatus(inserted.err.value, req.email)))
              && (inserted.err.None? ==> r.reply == Ok(CreateUserResponse(inserted.value)))
    ensures r.reply.Ok? ==>
              && r.reply.value.user.username == req.username
              && r.reply.value.user.fullName == req.fullName
              && r.reply.value.user.email == req.email
              && r.db.users == db.users[req.username := r.reply.value.user]
  {
    var hashed := hashPassword(req.password);
    if hashed.Err? then
      RpcOutcome(db, None, Err(GrpcStatus(Internal, "failed to hash password: " + hashed.error)))
    else
      var arg := UQ.CreateUserParams(req.username, hashed.value, req.fullName, req.email);
      var inserted := UQ.CreateUser(db, arg, now, fault);
      if inserted.err.Some? then
        RpcOutcome(inserted.db, Some(arg), Err(StoreErrorStatus(inserted.err.value, req.email)))
      else
        RpcOutcome(inserted.db, Some(arg), Ok(CreateUserResponse(inserted.value)))
  }

  /** A taken username is not reported as such: the users_pkey violation
      falls through to Unimplemented, and nothing is written. */
  lemma TakenUsernameIsUnimplemented(db: Db, req: CreateUserRequest, hashPassword: string -> Result<string, string>, now: Time)
    requires hashPassword(req.password).Ok?
    requires req.username in db.users
    ensures var r := CreateUser(db, req, hashPassword, now, None);
            r.reply == Err(GrpcStatus(Unimplemented, "method CreateUser not implemented")) && r.db == db
  {
    var arg := UQ.CreateUserParams(req.username, hashPassword(req.password).value, req.fullName, req.email);
    assert UQ.CreateUser(db, arg, now, None).err == Some(PgError(UniqueViolationCode, UniqueUsernameConstraint));
    assert ErrorDescription(PgError(UniqueViolationCode, UniqueUsernameConstraint)) == (UniqueViolationCode, UniqueUsernameConstraint);
  }

  /** An email another user holds is reported as AlreadyExists, naming it. */
  lemma TakenEmailAlreadyExists(db: Db, req: CreateUserRequest, hashPassword: string -> Result<string, string>, now: Time)
    requires hashPassword(req.password).Ok?
    requires req.username !in db.users
    requires UQ.EmailInUse(db.users, req.email, req.username)
    ensures CreateUser(db, req, hashPassword, now, None).reply ==
              Err(GrpcStatus(AlreadyExists, "email already exists: " + req.email))
  {
    var arg := UQ.CreateUserParams(req.username, hashPassword(req.password).value, req.fullName, req.email);
    assert UQ.CreateUser(db, arg, now, None).err == Some(PgError(UniqueViolationCode, UniqueEmailConstraint));
    assert ErrorDescription(PgError(UniqueViolationCode, UniqueEmailConstraint)) == (UniqueViolationCode, UniqueEmailConstraint);
  }
}
