/** The SQL store: the tables as fields of one object, the statements run
    directly on the pool, ExecTx (db/sqlc/exec_tx.go) and the two
    transactions built on it, CreateUserTx (db/sqlc/tx_create_user.go) and
    VerifyUserEmailTx (db/sqlc/tx_verify_user_email.go). */
module Store {
  import opened Wrappers
  import opened DbErrors
  import opened Schema
  import UQ = UsersQueries
  import AQ = AccountsQueries
  import VQ = VerifyEmailQueries

  /** What the driver answers to Begin, Rollback and Commit. */
  datatype TxFaults = TxFaults(begin: Option<Error>, rollback: Option<Error>, commit: Option<Error>)

  /** The transaction steps ExecTx takes, in order. */
  datatype TxEvent = BeginFailed | Begin | RunWork | Rollback | RollbackFailed | Commit | CommitFailed

  /** The error ExecTx returns for a failed work function: the work's error
      alone, or both errors when the rollback fails too. */
  function TxError(workErr: Error, rollbackErr: Option<Error>): (e: Error)
    ensures rollbackErr.None? ==> e == workErr
    ensures rollbackErr.Some? ==> e.TxFailed? && e.txErr == workErr && e.rollbackErr == rollbackErr.value
  {
    if rollbackErr.Some? then TxFailed(workErr, rollbackErr.value) else workErr
  }

  datatype CreateUserTxParams = CreateUserTxParams(
    params: UQ.CreateUserParams,
    afterCreate: User -> Option<Error>)  // runs inside the transaction, after the insert

  datatype CreateUserTxResult = CreateUserTxResult(user: User)

  datatype VerifyUserEmailTxParams = VerifyUserEmailTxParams(emailId: int, secretCode: string)

  datatype VerifyUserEmailTxResult = VerifyUserEmailTxResult(user: User, verifyEmail: VerifyEmail)

  /** What CreateUserTx's work leaves behind: the result it filled in and the
      row AfterCreate was called with, if it was called. */
  datatype CreateUserRun = CreateUserRun(result: CreateUserTxResult, afterCreateArg: Option<User>)

  /** The function CreateUserTx passes to ExecTx: insert the user on the
      transaction's handle, then, only if that succeeded, call AfterCreate
      with the inserted row. */
  function CreateUserWork(arg: CreateUserTxParams, now: Time, insertFault: Option<Error>): Db -> Step<CreateUserRun>
  {
    (tx: Db) =>
      var ins := UQ.CreateUser(tx, arg.params, now, insertFault);
      if ins.err.Some? then Step(ins.db, CreateUserRun(CreateUserTxResult(ins.value), None), ins.err)
      else Step(ins.db, CreateUserRun(CreateUserTxResult(ins.value), Some(ins.value)), arg.afterCreate(ins.value))
  }

  /** The UpdateUserParams VerifyUserEmailTx builds: every column NULL except
      is_email_verified, which is set to true. */
  function VerifiedFlagParams(username: string): (p: UQ.UpdateUserParams)
    ensures p.username == username && p.isEmailVerified == Nullable(true, true)
    ensures !p.fullName.valid && !p.email.valid && !p.hashedPassword.valid && !p.passwordChangedAt.valid
  {
    UQ.UpdateUserParams(Nullable("", false), Nullable("", false), Nullable("", false),
                        Nullable(ZeroTime, false), Nullable(true, true), username)
  }

  /** The function VerifyUserEmailTx passes to ExecTx: update the
      verify-email row, then, only if that succeeded, mark the user the row
      names as verified. */
  function VerifyUserEmailWork(arg: VerifyUserEmailTxParams, q: VQ.VerifyEmailUpdate,
                               emailFault: Option<Error>, userFault: Option<Error>): Db -> Step<VerifyUserEmailTxResult>
  {
    (tx: Db) =>
      var ve := VQ.UpdateVerifyEmail(tx, VQ.UpdateVerifyEmailParams(arg.emailId, arg.secretCode), q, emailFault);
      if ve.err.Some? then Step(ve.db, VerifyUserEmailTxResult(EmptyUser, ve.value), ve.err)
      else
        var uu := UQ.UpdateUser(ve.db, VerifiedFlagParams(ve.value.username), userFault);
        Step(uu.db, VerifyUserEmailTxResult(uu.value, ve.value), uu.err)
  }

  /** Marking a user verified changes that flag and nothing else. */
  lemma VerifiedFlagMerge(stored: User)
    ensures UQ.Merge(stored, VerifiedFlagParams(stored.username)) == stored.(isEmailVerified := true)
  {
  }

  class SQLStore {
    var users: map<string, User>
    var accounts: map<int, Account>
    var verifyEmails: map<int, VerifyEmail>
    var nextAccountId: int
    /** The transaction steps taken so far, oldest first. */
    ghost var txLog: seq<TxEvent>

    function State(): Db
      reads this
    {
      Db(users, accounts, verifyEmails, nextAccountId)
    }

    constructor ()
      ensures State() == EmptyDb && txLog == []
    {
      users, accounts, verifyEmails, nextAccountId := map[], map[], map[], 1;
      txLog := [];
    }

    /** Writes a database value into the tables: the helper ExecTx uses to
        publish or restore its snapshot. */
    method Load(db: Db)
      modifies this
      ensures State() == db && txLog == old(txLog)
    {
      users, accounts, verifyEmails, nextAccountId := db.users, db.accounts, db.verifyEmails, db.nextAccountId;
    }

    /** ExecTx: begin; run the work once on the transaction's view of the
        tables; on a work error roll back (combining errors when the
        rollback fails too); otherwise commit and return the commit's
        error. The tables change only when the commit succeeds. */
    method ExecTx<R>(work: Db -> Step<R>, faults: TxFaults) returns (out: Option<R>, err: Option<Error>)
      modifies this
      ensures faults.begin.Some? ==>
                && out.None? && err == faults.begin
                && State() == old(State()) && txLog == old(txLog) + [BeginFailed]
      ensures faults.begin.None? ==> out == Some(work(old(State())).value)
      ensures faults.begin.None? && work(old(State())).err.Some? ==>
                && err == Some(TxError(work(old(State())).err.value, faults.rollback))
                && State() == old(State())
                && txLog == old(txLog) + [Begin, RunWork, if faults.rollback.None? then Rollback else RollbackFailed]
      ensures faults.begin.None? && work(old(State())).err.None? ==>
                && err == faults.commit
                && State() == (if faults.commit.None? then work(old(State())).db else old(State()))
                && txLog == old(txLog) + [Begin, RunWork, if faults.commit.None? then Commit else CommitFailed]
    {
      if faults.begin.Some? {
        txLog := txLog + [BeginFailed];
        return None, faults.begin;
      }
      txLog := txLog + [Begin];
      var tx := State();
      txLog := txLog + [RunWork];
      var w := work(tx);
      Load(w.db);
      out := Some(w.value);
      if w.err.Some? {
        // an aborted transaction's writes are never visible, whatever Rollback reports
        Load(tx);
        if faults.rollback.Some? {
          txLog := txLog + [RollbackFailed];
          return out, Some(TxFailed(w.err.value, faults.rollback.value));
        }
        txLog := txLog + [Rollback];
        return out, w.err;
      }
      if faults.commit.Some? {
        Load(tx);
        txLog := txLog + [CommitFailed];
        return out, faults.commit;
      }
      txLog := txLog + [Commit];
      err := None;
    }

    /** CreateUserTx: the insert and AfterCreate in one transaction, so an
        AfterCreate error leaves no user behind. The result is returned
        together with the error. */
    method CreateUserTx(arg: CreateUserTxParams, now: Time, insertFault: Option<Error>, faults: TxFaults)
      returns (result: CreateUserTxResult, err: Option<Error>, afterCreateArg: Option<User>)
      requires Valid(State())
      modifies this
      ensures Valid(State())
      ensures err.Some? ==> State() == old(State())
      ensures faults.begin.Some? ==>
                err == faults.begin && result.user == EmptyUser && afterCreateArg.None?
      ensures var ins := UQ.CreateUser(old(State()), arg.params, now, insertFault);
              faults.begin.None? && ins.err.Some? ==>
                && afterCreateArg.None? && result.user == EmptyUser
                && err == Some(TxError(ins.err.value, faults.rollback))
      ensures var ins := UQ.CreateUser(old(State()), arg.params, now, insertFault);
              faults.begin.None? && ins.err.None? ==>
                && afterCreateArg == Some(ins.value) && result.user == ins.value
                && (arg.afterCreate(ins.value).Some? ==>
                      && err == Some(TxError(arg.afterCreate(ins.value).value, faults.rollback))
                      && arg.params.username !in users)
      ensures var ins := UQ.CreateUser(old(State()), arg.params, now, insertFault);
              err.None? <==>
                faults.begin.None? && ins.err.None? && arg.afterCreate(ins.value).None? && faults.commit.None?
      ensures err.None? ==>
                && arg.params.username in users && users[arg.params.username] == result.user
                && users == old(users)[arg.params.username := result.user]
                && accounts == old(accounts) && verifyEmails == old(verifyEmails)
                && nextAccountId == old(nextAccountId)
    {
      var out, e := ExecTx(CreateUserWork(arg, now, insertFault), faults);
      if out.Some? {
        result, afterCreateArg := out.value.result, out.value.afterCreateArg;
      } else {
        result, afterCreateArg := CreateUserTxResult(EmptyUser), None;
      }
      err := e;
    }

    /** VerifyUserEmailTx: update the verify-email row matched by id and
        secret code, then set is_email_verified on the user that row names,
        committing both or neither. */
    method VerifyUserEmailTx(arg: VerifyUserEmailTxParams, q: VQ.VerifyEmailUpdate,
                             emailFault: Option<Error>, userFault: Option<Error>, faults: TxFaults)
      returns (result: VerifyUserEmailTxResult, err: Option<Error>)
      requires Valid(State())
      modifies this
      ensures Valid(State())
      ensures err.Some? ==> State() == old(State())
      ensures faults.begin.Some? ==>
                err == faults.begin && result == VerifyUserEmailTxResult(EmptyUser, EmptyVerifyEmail)
      ensures var ve := VQ.UpdateVerifyEmail(old(State()), VQ.UpdateVerifyEmailParams(arg.emailId, arg.secretCode), q, emailFault);
              faults.begin.None? && ve.err.Some? ==>
                && err == Some(TxError(ve.err.value, faults.rollback))
                && result == VerifyUserEmailTxResult(EmptyUser, EmptyVerifyEmail)
      ensures var ve := VQ.UpdateVerifyEmail(old(State()), VQ.UpdateVerifyEmailParams(arg.emailId, arg.secretCode), q, emailFault);
              var uu := UQ.UpdateUser(ve.db, VerifiedFlagParams(ve.value.username), userFault);
              && (faults.begin.None? && ve.err.None? ==> result == VerifyUserEmailTxResult(uu.value, ve.value))
              && (err.None? <==> faults.begin.None? && ve.err.None? && uu.err.None? && faults.commit.None?)
      ensures err.None? ==>
                && arg.emailId in old(verifyEmails)
                && q.matches(old(verifyEmails)[arg.emailId], arg.secretCode)
                && result.verifyEmail == q.apply(old(verifyEmails)[arg.emailId])
                && verifyEmails == old(verifyEmails)[arg.emailId := result.verifyEmail]
                && result.user.username == result.verifyEmail.username
                && result.verifyEmail.username in old(users)
                && result.user == old(users)[result.verifyEmail.username].(isEmailVerified := true)
                && users == old(users)[result.user.username := result.user]
                && accounts == old(accounts) && nextAccountId == old(nextAccountId)
    {
      var out, e := ExecTx(VerifyUserEmailWork(arg, q, emailFault, userFault), faults);
      result := if out.Some? then out.value else VerifyUserEmailTxResult(EmptyUser, EmptyVerifyEmail);
      err := e;
      if err.None? {
        VerifiedFlagMerge(old(users)[result.verifyEmail.username]);
      }
    }

    // Statements run directly on the pool: each commits on its own.

    method CreateUser(arg: UQ.CreateUserParams, now: Time, fault: Option<Error>) returns (user: User, err: Option<Error>)
      modifies this
      ensures var s := UQ.CreateUser(old(State()), arg, now, fault);
              State() == s.db && user == s.value && err == s.err
      ensures txLog == old(txLog)
    {
      var s := UQ.CreateUser(State(), arg, now, fault);
      Load(s.db);
      user, err := s.value, s.err;
    }

    method GetUser(username: string, fault: Option<Error>) returns (user: User, err: Option<Error>)
      ensures Reply(user, err) == UQ.GetUser(State(), username, fault)
    {
      var r := UQ.GetUser(State(), username, fault);
      user, err := r.value, r.err;
    }

    method UpdateUser(arg: UQ.UpdateUserParams, fault: Option<Error>) returns (user: User, err: Option<Error>)
      modifies this
      ensures var s := UQ.UpdateUser(old(State()), arg, fault);
              State() == s.db && user == s.value && err == s.err
      ensures txLog == old(txLog)
    {
      var s := UQ.UpdateUser(State(), arg, fault);
      Load(s.db);
      user, err := s.value, s.err;
    }

    method CreateAccount(arg: AQ.CreateAccountParams, now: Time, fault: Option<Error>) returns (account: Account, err: Option<Error>)
      modifies this
      ensures var s := AQ.CreateAccount(old(State()), arg, now, fault);
              State() == s.db && account == s.value && err == s.err
      ensures txLog == old(txLog)
    {
      var s := AQ.CreateAccount(State(), arg, now, fault);
      Load(s.db);
      account, err := s.value, s.err;
    }

    method GetAccount(id: int, fault: Option<Error>) returns (account: Account, err: Option<Error>)
      ensures Reply(account, err) == AQ.GetAccount(State(), id, fault)
    {
      var r := AQ.GetAccount(State(), id, fault);
      account, err := r.value, r.err;
    }

    method UpdateAccount(arg: AQ.UpdateAccountParams, fault: Option<Error>) returns (account: Account, err: Option<Error>)
      modifies this
      ensures var s := AQ.UpdateAccount(old(State()), arg, fault);
              State() == s.db && account == s.value && err == s.err
      ensures txLog == old(txLog)
    {
      var s := AQ.UpdateAccount(State(), arg, fault);
      Load(s.db);
      account, err := s.value, s.err;
    }

    method DeleteAccount(id: int, fault: Option<Error>) returns (err: Option<Error>)
      modifies this
      ensures var s := AQ.DeleteAccount(old(State()), id, fault);
              State() == s.db && err == s.err
      ensures txLog == old(txLog)
    {
      var s := AQ.DeleteAccount(State(), id, fault);
      Load(s.db);
      err := s.err;
    }

    method ListAccountsByOwner(arg: AQ.ListAccountsByOwnerParams, fault: Option<Error>)
      returns (accounts': seq<Account>, err: Option<Error>)
      ensures Reply(accounts', err) == AQ.ListAccountsByOwner(State(), arg, fault)
    {
      var r := AQ.ListAccountsByOwner(State(), arg, fault);
      accounts', err := r.value, r.err;
    }
  }
}
