/** The user endpoints of api/user.go: the request validators, which
    collect one field violation per failing field by appending to a list,
    the accessors of the update request, the UpdateUserParams it builds, the
    AfterCreate hook and the createUser and updateUser handlers. */
module UserApi {
  import opened Wrappers
  import opened DbErrors
  import opened Schema
  import V = Validator
  import UQ = UsersQueries
  import St = Store
  import T = VerifyEmailTask
  import Http

  /** api/error.go's FieldViolation: the field's JSON name and the
      validator's error, whose text is the violation's description. */
  datatype FieldViolation = FieldViolation(field: string, error: V.ValidationError)
  {
    function Description(): string { V.Message(error) }
  }

  /** One validator run on one field. */
  datatype Check = Check(field: string, outcome: Option<V.ValidationError>)

  /** The reference list of violations: one per failing check, in the order
      the checks run. */
  function Reported(checks: seq<Check>): seq<FieldViolation>
  {
    if checks == [] then [] else Reports(checks[0]) + Reported(checks[1..])
  }

  /** The violation one check contributes: none when it passes. */
  function Reports(c: Check): (vs: seq<FieldViolation>)
    ensures |vs| <= 1
    ensures vs == [] <==> c.outcome.None?
    ensures vs != [] ==> vs[0] == FieldViolation(c.field, c.outcome.value)
  {
    if c.outcome.Some? then [FieldViolation(c.field, c.outcome.value)] else []
  }

  lemma ReportedSingle(c: Check)
    ensures Reported([c]) == (if c.outcome.Some? then [FieldViolation(c.field, c.outcome.value)] else [])
  {
    assert [c][1..] == [];
  }

  /** Nothing is reported exactly when every check passes. */
  lemma {:induction false} ReportedEmpty(checks: seq<Check>)
    ensures Reported(checks) == [] <==> forall i :: 0 <= i < |checks| ==> checks[i].outcome.None?
  {
    if checks != [] {
      ReportedEmpty(checks[1..]);
      assert forall i :: 1 <= i < |checks| ==> checks[i] == checks[1..][i - 1];
    }
  }

  lemma {:induction false} ReportedAppend(a: seq<Check>, b: seq<Check>)
    ensures Reported(a + b) == Reported(a) + Reported(b)
  {
    if a == [] {
      assert a + b == b;
    } else {
      assert (a + b)[0] == a[0];
      assert (a + b)[1..] == a[1..] + b;
      ReportedAppend(a[1..], b);
      assert Reported(a + b) == Reports(a[0]) + Reported(a[1..] + b);
    }
  }

  /** A violation is reported exactly for a failing check, with that
      check's field and error. */
  lemma {:induction false} ReportedMembership(checks: seq<Check>, v: FieldViolation)
    ensures v in Reported(checks) <==>
              exists i :: 0 <= i < |checks| && checks[i].outcome.Some?
                          && v == FieldViolation(checks[i].field, checks[i].outcome.value)
  {
    if checks != [] {
      ReportedMembership(checks[1..], v);
      assert forall i :: 1 <= i < |checks| ==> checks[i] == checks[1..][i - 1];
      if v in Reported(checks[1..]) {
        var j :| 0 <= j < |checks[1..]| && checks[1..][j].outcome.Some?
                 && v == FieldViolation(checks[1..][j].field, checks[1..][j].outcome.value);
        assert checks[j + 1] == checks[1..][j];
      }
    }
  }

  /** When the checked fields are distinct, no field is reported twice. */
  lemma {:induction false} ReportedOncePerField(checks: seq<Check>)
    requires forall i, j :: 0 <= i < j < |checks| ==> checks[i].field != checks[j].field
    ensures var vs := Reported(checks);
            forall i, j :: 0 <= i < j < |vs| ==> vs[i].field != vs[j].field
  {
    if checks != [] {
      var tail := Reported(checks[1..]);
      ReportedOncePerField(checks[1..]);
      forall k | 0 <= k < |tail|
        ensures tail[k].field != checks[0].field
      {
        ReportedMembership(checks[1..], tail[k]);
      }
    }
  }

  datatype CreateUserRequest = CreateUserRequest(username: string, password: string, fullName: string, email: string)

  datatype LoginUserRequest = LoginUserRequest(username: string, password: string)

  /** The update request; a field the JSON leaves out (a nil pointer) is None. */
  datatype UpdateUserRequest = UpdateUserRequest(
    username: string, fullName: Option<string>, email: Option<string>, password: Option<string>)

  /** The checks validateCreateUserRequest runs, in order; `parsesAsAddress`
      stands for mail.ParseAddress accepting the value. */
  function CreateUserChecks(req: CreateUserRequest, parsesAsAddress: string -> bool): seq<Check>
  {
    [Check("username", V.ValidateUsername(req.username)),
     Check("password", V.ValidatePassword(req.password)),
     Check("full_name", V.ValidateFullName(req.fullName)),
     Check("email", V.ValidateEmail(req.email, parsesAsAddress))]
  }

  function LoginUserChecks(req: LoginUserRequest): seq<Check>
  {
    [Check("username", V.ValidateUsername(req.username)),
     Check("password", V.ValidatePassword(req.password))]
  }

  /** The checks validateUpdateUserRequest runs: the username always, each
      optional field only when it is present. */
  function UpdateUserChecks(req: UpdateUserRequest, parsesAsAddress: string -> bool): seq<Check>
  {
    [Check("username", V.ValidateUsername(GetUserName(Some(req))))]
    + PasswordCheck(req) + FullNameCheck(req) + EmailCheck(req, parsesAsAddress)
  }

  function PasswordCheck(req: UpdateUserRequest): seq<Check>
  {
    if req.password.Some? then [Check("password", V.ValidatePassword(GetPassword(Some(req))))] else []
  }

  function FullNameCheck(req: UpdateUserRequest): seq<Check>
  {
    if req.fullName.Some? then [Check("full_name", V.ValidateFullName(GetFullName(Some(req))))] else []
  }

  function EmailCheck(req: UpdateUserRequest, parsesAsAddress: string -> bool): seq<Check>
  {
    if req.email.Some? then [Check("email", V.ValidateEmail(GetEmail(Some(req)), parsesAsAddress))] else []
  }

  /** Running one more check extends the reference list by that check's
      violation, if it failed. */
  lemma ReportedSnoc(done: seq<Check>, c: Check)
    ensures Reported(done + [c]) ==
              Reported(done) + (if c.outcome.Some? then [FieldViolation(c.field, c.outcome.value)] else [])
  {
    ReportedAppend(done, [c]);
    assert [c][1..] == [];
  }

  /** The four JSON field names differ from one another. */
  lemma FieldNamesDistinct()
    ensures "username" != "password" && "username" != "full_name" && "username" != "email"
    ensures "password" != "full_name" && "password" != "email" && "full_name" != "email"
  {
    assert "username"[0] != "password"[0];
    assert |"username"| != |"full_name"| && |"username"| != |"email"|;
    assert |"password"| != |"full_name"| && |"password"| != |"email"| && |"full_name"| != |"email"|;
  }

  method ValidateCreateUserRequest(req: CreateUserRequest, parsesAsAddress: string -> bool)
    returns (violations: seq<FieldViolation>)
    ensures violations == Reported(CreateUserChecks(req, parsesAsAddress))
  {
    ghost var done: seq<Check> := [];
    violations := [];
    var e := V.ValidateUsername(req.username);
    if e.Some? { violations := violations + [FieldViolation("username", e.value)]; }
    ReportedSnoc(done, Check("username", e));
    done := done + [Check("username", e)];
    e := V.ValidatePassword(req.password);
    if e.Some? { violations := violations + [FieldViolation("password", e.value)]; }
    ReportedSnoc(done, Check("password", e));
    done := done + [Check("password", e)];
    e := V.ValidateFullName(req.fullName);
    if e.Some? { violations := violations + [FieldViolation("full_name", e.value)]; }
    ReportedSnoc(done, Check("full_name", e));
    done := done + [Check("full_name", e)];
    e := V.ValidateEmail(req.email, parsesAsAddress);
    if e.Some? { violations := violations + [FieldViolation("email", e.value)]; }
    ReportedSnoc(done, Check("email", e));
    done := done + [Check("email", e)];
    assert done == CreateUserChecks(req, parsesAsAddress);
  }

  method ValidateLoginUserRequest(req: LoginUserRequest) returns (violations: seq<FieldViolation>)
    ensures violations == Reported(LoginUserChecks(req))
  {
    ghost var done: seq<Check> := [];
    violations := [];
    var e := V.ValidateUsername(req.username);
    if e.Some? { violations := violations + [FieldViolation("username", e.value)]; }
    ReportedSnoc(done, Check("username", e));
    done := done + [Check("username", e)];
    e := V.ValidatePassword(req.password);
    if e.Some? { violations := violations + [FieldViolation("password", e.value)]; }
    ReportedSnoc(done, Check("password", e));
    done := done + [Check("password", e)];
    assert done == LoginUserChecks(req);
  }

  method ValidateUpdateUserRequest(req: UpdateUserRequest, parsesAsAddress: string -> bool)
    returns (violations: seq<FieldViolation>)
    ensures violations == Reported(UpdateUserChecks(req, parsesAsAddress))
  {
    violations := [];
    var e := V.ValidateUsername(GetUserName(Some(req)));
    violations := AppendViolation(violations, [], Check("username", e));
    ghost var done := [Check("username", e)];
    if req.password.Some? {
      e := V.ValidatePassword(GetPassword(Some(req)));
      violations := AppendViolation(violations, done, Check("password", e));
      assert PasswordCheck(req) == [Check("password", e)];
    } else {
      assert done + PasswordCheck(req) == done;
    }
    done := done + PasswordCheck(req);
    if req.fullName.Some? {
      e := V.ValidateFullName(GetFullName(Some(req)));
      violations := AppendViolation(violations, done, Check("full_name", e));
      assert FullNameCheck(req) == [Check("full_name", e)];
    } else {
      assert done + FullNameCheck(req) == done;
    }
    done := done + FullNameCheck(req);
    if req.email.Some? {
      e := V.ValidateEmail(GetEmail(Some(req)), parsesAsAddress);
      violations := AppendViolation(violations, done, Check("email", e));
      assert EmailCheck(req, parsesAsAddress) == [Check("email", e)];
    } else {
      assert done + EmailCheck(req, parsesAsAddress) == done;
    }
    done := done + EmailCheck(req, parsesAsAddress);
  }

  /** Appends the violation of one check that ran, if it failed. */
  method AppendViolation(violations: seq<FieldViolation>, ghost done: seq<Check>, c: Check)
    returns (violations': seq<FieldViolation>)
    requires violations == Reported(done)
    ensures violations' == Reported(done + [c])
  {
    ReportedAppend(done, [c]);
    ReportedSingle(c);
    violations' := violations;
    if c.outcome.Some? {
      violations' := violations' + [FieldViolation(c.field, c.outcome.value)];
    }
  }

  /** validateCreateUserRequest reports nothing exactly when all four
      validators accept, and each field at most once. */
  lemma CreateUserViolations(req: CreateUserRequest, parsesAsAddress: string -> bool)
    ensures var vs := Reported(CreateUserChecks(req, parsesAsAddress));
            && (vs == [] <==>
                  && V.ValidateUsername(req.username).None? && V.ValidatePassword(req.password).None?
                  && V.ValidateFullName(req.fullName).None? && V.ValidateEmail(req.email, parsesAsAddress).None?)
            && (forall i, j :: 0 <= i < j < |vs| ==> vs[i].field != vs[j].field)
  {
    var checks := CreateUserChecks(req, parsesAsAddress);
    assert checks[0].outcome == V.ValidateUsername(req.username);
    assert checks[1].outcome == V.ValidatePassword(req.password);
    assert checks[2].outcome == V.ValidateFullName(req.fullName);
    assert checks[3].outcome == V.ValidateEmail(req.email, parsesAsAddress);
    ReportedEmpty(checks);
    FieldNamesDistinct();
    ReportedOncePerField(checks);
  }

  /** validateLoginUserRequest looks at the username and the password only. */
  lemma LoginUserViolations(req: LoginUserRequest)
    ensures var vs := Reported(LoginUserChecks(req));
            && (vs == [] <==> V.ValidateUsername(req.username).None? && V.ValidatePassword(req.password).None?)
            && (forall v :: v in vs ==> v.field in {"username", "password"})
            && (forall i, j :: 0 <= i < j < |vs| ==> vs[i].field != vs[j].field)
  {
    var checks := LoginUserChecks(req);
    assert checks[0].outcome == V.ValidateUsername(req.username);
    assert checks[1].outcome == V.ValidatePassword(req.password);
    ReportedEmpty(checks);
    FieldNamesDistinct();
    ReportedOncePerField(checks);
    forall v | v in Reported(checks)
      ensures v.field in {"username", "password"}
    {
      ReportedMembership(checks, v);
    }
  }

  /** The reference list of the update request's checks, piece by piece. */
  lemma UpdateUserReported(req: UpdateUserRequest, parsesAsAddress: string -> bool)
    ensures Reported(UpdateUserChecks(req, parsesAsAddress)) ==
              Reported([Check("username", V.ValidateUsername(GetUserName(Some(req))))])
              + Reported(PasswordCheck(req)) + Reported(FullNameCheck(req)) + Reported(EmailCheck(req, parsesAsAddress))
  {
    var u := [Check("username", V.ValidateUsername(GetUserName(Some(req))))];
    var pc, fc, ec := PasswordCheck(req), FullNameCheck(req), EmailCheck(req, parsesAsAddress);
    ReportedAppend(u + pc + fc, ec);
    ReportedAppend(u + pc, fc);
    ReportedAppend(u, pc);
  }

  /** validateUpdateUserRequest always checks the username and checks each
      optional field only when it is present: it reports nothing exactly
      when the username and the present fields pass. */
  lemma UpdateUserViolations(req: UpdateUserRequest, parsesAsAddress: string -> bool)
    ensures Reported(UpdateUserChecks(req, parsesAsAddress)) == [] <==>
              && V.ValidateUsername(req.username).None?
              && (req.password.Some? ==> V.ValidatePassword(req.password.value).None?)
              && (req.fullName.Some? ==> V.ValidateFullName(req.fullName.value).None?)
              && (req.email.Some? ==> V.ValidateEmail(req.email.value, parsesAsAddress).None?)
  {
    UpdateUserReported(req, parsesAsAddress);
    ReportedSingle(Check("username", V.ValidateUsername(GetUserName(Some(req)))));
    if req.password.Some? { ReportedSingle(PasswordCheck(req)[0]); }
    if req.fullName.Some? { ReportedSingle(FullNameCheck(req)[0]); }
    if req.email.Some? { ReportedSingle(EmailCheck(req, parsesAsAddress)[0]); }
  }

  /** An absent optional field is never reported. */
  lemma UpdateUserAbsentNotReported(req: UpdateUserRequest, parsesAsAddress: string -> bool, v: FieldViolation)
    requires v in Reported(UpdateUserChecks(req, parsesAsAddress))
    ensures v.field == "password" ==> req.password.Some?
    ensures v.field == "full_name" ==> req.fullName.Some?
    ensures v.field == "email" ==> req.email.Some?
  {
    UpdateUserReported(req, parsesAsAddress);
    var username := Check("username", V.ValidateUsername(GetUserName(Some(req))));
    ReportedSingle(username);
    assert v in Reported([username]) || v in Reported(PasswordCheck(req))
           || v in Reported(FullNameCheck(req)) || v in Reported(EmailCheck(req, parsesAsAddress));
    FieldNamesDistinct();
    if req.password.Some? { ReportedSingle(PasswordCheck(req)[0]); } else { assert Reported(PasswordCheck(req)) == []; }
    if req.fullName.Some? { ReportedSingle(FullNameCheck(req)[0]); } else { assert Reported(FullNameCheck(req)) == []; }
    if req.email.Some? { ReportedSingle(EmailCheck(req, parsesAsAddress)[0]); } else { assert Reported(EmailCheck(req, parsesAsAddress)) == []; }
  }

  // The accessors work on a possibly absent request (a nil receiver).

  function GetUserName(req: Option<UpdateUserRequest>): string
  {
    if req.Some? then req.value.username else ""
  }

  function GetFullName(req: Option<UpdateUserRequest>): string
  {
    if req.Some? && req.value.fullName.Some? then req.value.fullName.value else ""
  }

  function GetEmail(req: Option<UpdateUserRequest>): string
  {
    if req.Some? && req.value.email.Some? then req.value.email.value else ""
  }

  function GetPassword(req: Option<UpdateUserRequest>): string
  {
    if req.Some? && req.value.password.Some? then req.value.password.value else ""
  }

  /** The UpdateUserParams updateUser fills in field by field;
      `hashPassword` is util.HashPassword, called only when a password is
      given. An Err result is the hashing error. */
  method BuildUpdateUserParams(req: UpdateUserRequest, hashPassword: string -> Result<string, Error>, now: Time)
    returns (arg: Result<UQ.UpdateUserParams, Error>)
    ensures arg.Err? <==> req.password.Some? && hashPassword(req.password.value).Err?
    ensures arg.Err? ==> arg.error == hashPassword(req.password.value).error
    ensures arg.Ok? ==>
              && arg.value.username == req.username
              && arg.value.fullName.valid == req.fullName.Some?
              && (req.fullName.Some? ==> arg.value.fullName.value == req.fullName.value)
              && arg.value.email.valid == req.email.Some?
              && (req.email.Some? ==> arg.value.email.value == req.email.value)
              && arg.value.hashedPassword.valid == req.password.Some?
              && arg.value.passwordChangedAt.valid == req.password.Some?
              && (req.password.Some? ==>
                    arg.value.hashedPassword.value == hashPassword(req.password.value).value
                    && arg.value.passwordChangedAt.value == now)
              && !arg.value.isEmailVerified.valid
  {
    var p := UQ.UpdateUserParams(
      Nullable(GetFullName(Some(req)), req.fullName.Some?),
      Nullable(GetEmail(Some(req)), req.email.Some?),
      Nullable("", false), Nullable(ZeroTime, false), Nullable(false, false),
      GetUserName(Some(req)));
    if req.password.Some? {
      var hashed := hashPassword(GetPassword(Some(req)));
      if hashed.Err? {
        return Err(hashed.error);
      }
      p := p.(hashedPassword := Nullable(hashed.value, true));
      p := p.(passwordChangedAt := Nullable(now, true));
    }
    arg := Ok(p);
  }

  /** The options the hook enqueues the task with. */
  const VerifyEmailTaskOptions: seq<T.TaskOption> :=
    [T.MaxRetry(10), T.ProcessIn(10 * Second), T.Queue(T.QueueCritical)]

  /** The AfterCreate hook createUser installs: distribute a verify-email
      task for the new user; a failed distribution becomes an error, which
      aborts the transaction. */
  function AfterCreate(marshal: T.PayloadSendVerifyEmail -> Result<seq<T.byte>, Error>,
                       enqueue: T.Task -> Option<Error>): User -> Option<Error>
  {
    (user: User) =>
      var d := T.DistributeTaskSendVerifyEmail(T.PayloadSendVerifyEmail(user.username), VerifyEmailTaskOptions, marshal, enqueue);
      if d.err.Some? then Some(Msg("failed to send verify email to username: " + user.username)) else None
  }

  /** What the hook hands the queue, and when it fails. */
  lemma AfterCreateEnqueues(marshal: T.PayloadSendVerifyEmail -> Result<seq<T.byte>, Error>,
                            enqueue: T.Task -> Option<Error>, user: User)
    ensures var d := T.DistributeTaskSendVerifyEmail(T.PayloadSendVerifyEmail(user.username), VerifyEmailTaskOptions, marshal, enqueue);
            && (AfterCreate(marshal, enqueue)(user).None? <==> d.err.None?)
            && (d.attempted.Some? ==>
                  && d.attempted.value.typeName == T.TaskSendVerifyEmail
                  && d.attempted.value.opts == [T.MaxRetry(10), T.ProcessIn(10 * Second), T.Queue("critical")])
            && (AfterCreate(marshal, enqueue)(user).Some? ==>
                  !IsUniqueViolation(AfterCreate(marshal, enqueue)(user).value))
  {
  }

  /** The part of createUser after hashing: CreateUserTx with the hook;
      a unique violation answers 422, any other error 500. */
  method CreateUserInStore(store: St.SQLStore, params: UQ.CreateUserParams,
                           marshal: T.PayloadSendVerifyEmail -> Result<seq<T.byte>, Error>,
                           enqueue: T.Task -> Option<Error>,
                           now: Time, insertFault: Option<Error>, faults: St.TxFaults)
    returns (status: int, body: Option<User>)
    requires Valid(store.State())
    modifies store
    ensures Valid(store.State())
    ensures status in {Http.StatusOK, Http.StatusUnprocessableEntity, Http.StatusInternalServerError}
    ensures status != Http.StatusOK ==> body.None? && store.State() == old(store.State())
    ensures status == Http.StatusOK ==>
              && body.Some?
              && body.value.username == params.username && body.value.fullName == params.fullName
              && body.value.email == params.email && body.value.hashedPassword == params.hashedPassword
              && !body.value.isEmailVerified && body.value.createdAt == now
              && store.users == old(store.users)[params.username := body.value]
              && store.accounts == old(store.accounts)
              && T.DistributeTaskSendVerifyEmail(T.PayloadSendVerifyEmail(params.username), VerifyEmailTaskOptions,
                                                 marshal, enqueue).err.None?
    ensures var ins := UQ.CreateUser(old(store.State()), params, now, insertFault);
            && (faults.begin.None? && ins.err.Some? && IsUniqueViolation(ins.err.value) && faults.rollback.None? ==>
                  status == Http.StatusUnprocessableEntity)
            && (faults.begin.None? && ins.err.None? &&
                T.DistributeTaskSendVerifyEmail(T.PayloadSendVerifyEmail(params.username), VerifyEmailTaskOptions,
                                                marshal, enqueue).err.Some? ==>
                  status == Http.StatusInternalServerError && params.username !in store.users)
  {
    ghost var ins := UQ.CreateUser(store.State(), params, now, insertFault);
    body := None;
    var hook := AfterCreate(marshal, enqueue);
    var arg := St.CreateUserTxParams(params, hook);
    var result, err, called := store.CreateUserTx(arg, now, insertFault, faults);
    if ins.err.None? {
      AfterCreateEnqueues(marshal, enqueue, ins.value);
    }
    if err.Some? {
      if IsUniqueViolation(err.value) {
        return Http.StatusUnprocessableEntity, None;
      }
      return Http.StatusInternalServerError, None;
    }
    status, body := Http.StatusOK, Some(result.user);
  }

  /** createUser: validation, hashing, then the store; any violation
      answers 400 and a failed hash 500, both before the store is used. */
  method CreateUserHandler(store: St.SQLStore, req: CreateUserRequest, parsesAsAddress: string -> bool,
                           hashPassword: string -> Result<string, Error>,
                           marshal: T.PayloadSendVerifyEmail -> Result<seq<T.byte>, Error>,
                           enqueue: T.Task -> Option<Error>,
                           now: Time, insertFault: Option<Error>, faults: St.TxFaults)
    returns (status: int, body: Option<User>, violations: seq<FieldViolation>)
    requires Valid(store.State())
    modifies store
    ensures Valid(store.State())
    ensures violations == Reported(CreateUserChecks(req, parsesAsAddress))
    ensures violations != [] ==>
              status == Http.StatusBadRequest && store.State() == old(store.State()) && store.txLog == old(store.txLog)
    ensures violations == [] && hashPassword(req.password).Err? ==>
              status == Http.StatusInternalServerError && store.State() == old(store.State())
              && store.txLog == old(store.txLog)
    ensures status in {Http.StatusOK, Http.StatusBadRequest, Http.StatusUnprocessableEntity, Http.StatusInternalServerError}
    ensures status != Http.StatusOK ==> body.None? && store.State() == old(store.State())
    ensures status == Http.StatusOK ==>
              && violations == [] && hashPassword(req.password).Ok? && body.Some?
              && body.value.username == req.username && body.value.fullName == req.fullName
              && body.value.email == req.email
              && body.value.hashedPassword == hashPassword(req.password).value
              && !body.value.isEmailVerified && body.value.createdAt == now
              && store.users == old(store.users)[req.username := body.value]
              && store.accounts == old(store.accounts)
              && T.DistributeTaskSendVerifyEmail(T.PayloadSendVerifyEmail(req.username), VerifyEmailTaskOptions,
                                                 marshal, enqueue).err.None?
    ensures violations == [] && hashPassword(req.password).Ok? ==>
              var ins := UQ.CreateUser(old(store.State()),
                                       UQ.CreateUserParams(req.username, hashPassword(req.password).value, req.fullName, req.email),
                                       now, insertFault);
              && (faults.begin.None? && ins.err.Some? && IsUniqueViolation(ins.err.value) && faults.rollback.None? ==>
                    status == Http.StatusUnprocessableEntity)
              && (faults.begin.None? && ins.err.None? &&
                  T.DistributeTaskSendVerifyEmail(T.PayloadSendVerifyEmail(req.username), VerifyEmailTaskOptions,
                                                  marshal, enqueue).err.Some? ==>
                    status == Http.StatusInternalServerError && req.username !in store.users)
  {
    body := None;
    violations := ValidateCreateUserRequest(req, parsesAsAddress);
    if violations != [] {
      return Http.StatusBadRequest, None, violations;
    }
    var hashed := hashPassword(req.password);
    if hashed.Err? {
      return Http.StatusInternalServerError, None, violations;
    }
    status, body := CreateUserInStore(store, UQ.CreateUserParams(req.username, hashed.value, req.fullName, req.email),
                                      marshal, enqueue, now, insertFault, faults);
  }

  /** updateUser: validation, the nullable parameters, then UpdateUser; a
      missing user answers 404. */
  method UpdateUserHandler(store: St.SQLStore, req: UpdateUserRequest, parsesAsAddress: string -> bool,
                           hashPassword: string -> Result<string, Error>, now: Time, fault: Option<Error>)
    returns (status: int, body: Option<User>, violations: seq<FieldViolation>)
    requires Valid(store.State())
    modifies store
    ensures Valid(store.State())
    ensures store.txLog == old(store.txLog)
    ensures violations == Reported(UpdateUserChecks(req, parsesAsAddress))
    ensures violations != [] ==> status == Http.StatusBadRequest
    ensures violations == [] && req.password.Some? && hashPassword(req.password.value).Err? ==>
              status == Http.StatusInternalServerError
    ensures status in {Http.StatusOK, Http.StatusBadRequest, Http.StatusNotFound, Http.StatusInternalServerError}
    ensures status != Http.StatusOK ==> body.None? && store.State() == old(store.State())
    ensures status == Http.StatusNotFound ==>
              req.username !in old(store.users) || (fault.Some? && Is(fault.value, ErrNoRows))
    ensures violations == [] && (req.password.Some? ==> hashPassword(req.password.value).Ok?)
            && fault.None? && req.username in old(store.users)
            && !(req.email.Some? && UQ.EmailInUse(old(store.users), req.email.value, req.username)) ==>
              status == Http.StatusOK
    ensures status == Http.StatusOK ==>
              && req.username in old(store.users) && body.Some?
              && var stored := old(store.users)[req.username];
              && body.value.username == stored.username && body.value.role == stored.role
              && body.value.createdAt == stored.createdAt
              && body.value.fullName == (if req.fullName.Some? then req.fullName.value else stored.fullName)
              && body.value.email == (if req.email.Some? then req.email.value else stored.email)
              && body.value.hashedPassword ==
                   (if req.password.Some? then hashPassword(req.password.value).value else stored.hashedPassword)
              && body.value.passwordChangedAt == (if req.password.Some? then now else stored.passwordChangedAt)
              && body.value.isEmailVerified == stored.isEmailVerified
              && store.users == old(store.users)[req.username := body.value]
              && store.accounts == old(store.accounts) && store.verifyEmails == old(store.verifyEmails)
  {
    body := None;
    violations := ValidateUpdateUserRequest(req, parsesAsAddress);
    if violations != [] {
      return Http.StatusBadRequest, None, violations;
    }
    var arg := BuildUpdateUserParams(req, hashPassword, now);
    if arg.Err? {
      return Http.StatusInternalServerError, None, violations;
    }
    var user, err := store.UpdateUser(arg.value, fault);
    if err.Some? {
      if Is(err.value, ErrNoRows) {
        return Http.StatusNotFound, None, violations;
      }
      return Http.StatusInternalServerError, None, violations;
    }
    status, body := Http.StatusOK, Some(user);
  }
}
