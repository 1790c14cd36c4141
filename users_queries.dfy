/** db/sqlc/users.sql.go: CreateUser, GetUser and UpdateUser over the users
    table, as functions from the database before the statement to the
    database after it and the `(User, error)` pair Scan produces. */
module UsersQueries {
  import opened Wrappers
  import opened DbErrors
  import opened Schema

  datatype CreateUserParams = CreateUserParams(
    username: string,
    hashedPassword: string,
    fullName: string,
    email: string)

  /** $1..$6 of the UPDATE: one nullable value per COALESCE'd column, and the
      username of the WHERE clause. */
  datatype UpdateUserParams = UpdateUserParams(
    fullName: Nullable<string>,
    email: Nullable<string>,
    hashedPassword: Nullable<string>,
    passwordChangedAt: Nullable<Time>,
    isEmailVerified: Nullable<bool>,
    username: string)

  /** Some row other than `username`'s already holds `email`, so writing it
      would violate users_email_key. */
  predicate EmailInUse(users: map<string, User>, email: string, username: string)
  {
    exists name | name in users && name != username :: users[name].email == email
  }

  /** INSERT ... RETURNING: the new row holds exactly the four arguments and
      the column defaults; a username or email already present is a unique
      violation reported under its own constraint, and the table is then
      untouched. */
  function CreateUser(db: Db, arg: CreateUserParams, now: Time, fault: Option<Error>): (r: Step<User>)
    ensures r.err.None? <==> fault.None? && arg.username !in db.users && !EmailInUse(db.users, arg.email, arg.username)
    ensures r.err.None? ==>
              && r.value.username == arg.username
              && r.value.hashedPassword == arg.hashedPassword
              && r.value.fullName == arg.fullName
              && r.value.email == arg.email
              && r.value.role == DefaultRole
              && !r.value.isEmailVerified
              && r.value.passwordChangedAt == DefaultPasswordChangedAt
              && r.value.createdAt == now
              && r.db == db.(users := db.users[arg.username := r.value])
    ensures r.err.Some? ==> r.db == db && r.value == EmptyUser
    ensures fault.Some? ==> r.err == fault
    ensures fault.None? && arg.username in db.users ==>
              r.err == Some(PgError(UniqueViolationCode, UniqueUsernameConstraint))
    ensures fault.None? && arg.username !in db.users && EmailInUse(db.users, arg.email, arg.username) ==>
              r.err == Some(PgError(UniqueViolationCode, UniqueEmailConstraint))
    ensures Valid(db) ==> Valid(r.db)
  {
    if fault.Some? then Step(db, EmptyUser, fault)
    else if arg.username in db.users then
      Step(db, EmptyUser, Some(PgError(UniqueViolationCode, UniqueUsernameConstraint)))
    else if EmailInUse(db.users, arg.email, arg.username) then
      Step(db, EmptyUser, Some(PgError(UniqueViolationCode, UniqueEmailConstraint)))
    else
      var u := User(arg.username, DefaultRole, arg.hashedPassword, arg.fullName, arg.email,
                    false, DefaultPasswordChangedAt, now);
      Step(db.(users := db.users[arg.username := u]), u, None)
  }

  /** SELECT ... WHERE username = $1: the row stored under that username, or
      the zero User and ErrNoRows. */
  function GetUser(db: Db, username: string, fault: Option<Error>): (r: Reply<User>)
    ensures r.err.None? <==> fault.None? && username in db.users
    ensures r.err.None? ==> r.value == db.users[username]
    ensures Valid(db) && r.err.None? ==> r.value.username == username
    ensures fault.None? && username !in db.users ==> r == Reply(EmptyUser, Some(ErrNoRows))
    ensures fault.Some? ==> r == Reply(EmptyUser, fault)
  {
    if fault.Some? then Reply(EmptyUser, fault)
    else if username in db.users then Reply(db.users[username], None)
    else Reply(EmptyUser, Some(ErrNoRows))
  }

  /** COALESCE($n, column): the parameter when it is not NULL, else the
      stored value. */
  function Coalesce<T>(p: Nullable<T>, stored: T): T
  {
    if p.valid then p.value else stored
  }

  /** The SET list of UpdateUser applied to one stored row: each of the five
      columns takes its parameter only when that parameter is non-null;
      username, role and created_at are never written. */
  function Merge(stored: User, p: UpdateUserParams): (r: User)
    ensures r.fullName == (if p.fullName.valid then p.fullName.value else stored.fullName)
    ensures r.email == (if p.email.valid then p.email.value else stored.email)
    ensures r.hashedPassword == (if p.hashedPassword.valid then p.hashedPassword.value else stored.hashedPassword)
    ensures r.passwordChangedAt == (if p.passwordChangedAt.valid then p.passwordChangedAt.value else stored.passwordChangedAt)
    ensures r.isEmailVerified == (if p.isEmailVerified.valid then p.isEmailVerified.value else stored.isEmailVerified)
    ensures r.username == stored.username && r.role == stored.role && r.createdAt == stored.createdAt
  {
    stored.(
      fullName := Coalesce(p.fullName, stored.fullName),
      email := Coalesce(p.email, stored.email),
      hashedPassword := Coalesce(p.hashedPassword, stored.hashedPassword),
      passwordChangedAt := Coalesce(p.passwordChangedAt, stored.passwordChangedAt),
      isEmailVerified := Coalesce(p.isEmailVerified, stored.isEmailVerified))
  }

  predicate AllNull(p: UpdateUserParams)
  {
    !p.fullName.valid && !p.email.valid && !p.hashedPassword.valid
    && !p.passwordChangedAt.valid && !p.isEmailVerified.valid
  }

  /** With every optional parameter null the row comes back unchanged. */
  lemma MergeAllNull(stored: User, p: UpdateUserParams)
    requires AllNull(p)
    ensures Merge(stored, p) == stored
  {
  }

  /** Running the same update twice is the same as running it once. */
  lemma MergeIdempotent(stored: User, p: UpdateUserParams)
    ensures Merge(Merge(stored, p), p) == Merge(stored, p)
  {
  }

  /** UPDATE ... WHERE username = $6 RETURNING: only that row changes, to
      the merge of its stored value with the parameters; a missing username
      yields no row and changes nothing; an email another user holds is a
      users_email_key violation. */
  function UpdateUser(db: Db, arg: UpdateUserParams, fault: Option<Error>): (r: Step<User>)
    ensures fault.Some? ==> r == Step(db, EmptyUser, fault)
    ensures fault.None? && arg.username !in db.users ==> r == Step(db, EmptyUser, Some(ErrNoRows))
    ensures fault.None? && arg.username in db.users && arg.email.valid
            && EmailInUse(db.users, arg.email.value, arg.username) ==>
              r == Step(db, EmptyUser, Some(PgError(UniqueViolationCode, UniqueEmailConstraint)))
    ensures r.err.None? <==>
              fault.None? && arg.username in db.users
              && !(arg.email.valid && EmailInUse(db.users, arg.email.value, arg.username))
    ensures r.err.None? ==>
              && arg.username in db.users
              && r.value == Merge(db.users[arg.username], arg)
              && r.db == db.(users := db.users[arg.username := r.value])
    ensures Valid(db) ==> Valid(r.db)
  {
    if fault.Some? then Step(db, EmptyUser, fault)
    else if arg.username !in db.users then Step(db, EmptyUser, Some(ErrNoRows))
    else if arg.email.valid && EmailInUse(db.users, arg.email.value, arg.username) then
      Step(db, EmptyUser, Some(PgError(UniqueViolationCode, UniqueEmailConstraint)))
    else
      var u := Merge(db.users[arg.username], arg);
      Step(db.(users := db.users[arg.username := u]), u, None)
  }
}
