/** The rows the core reads and writes (the sqlc models of users, accounts
    and verify_emails), the database as one value, and the shapes in which
    queries answer. */
module Schema {
  import opened Wrappers
  import opened DbErrors

  /** Instants and durations in nanoseconds; 0 stands for Go's zero time. */
  type Time = int
  type Duration = int
  const ZeroTime: Time := 0
  const Second: Duration := 1_000_000_000

  const MinInt32: int := -0x8000_0000
  const MaxInt32: int := 0x7fff_ffff
  const MinInt64: int := -0x8000_0000_0000_0000
  const MaxInt64: int := 0x7fff_ffff_ffff_ffff
  type Int32 = x: int | MinInt32 <= x <= MaxInt32

  /** A nullable query parameter (pgtype.Text, sql.NullBool, ...): a value
      plus a Valid flag; `valid == false` binds SQL NULL. */
  datatype Nullable<T> = Nullable(value: T, valid: bool)

  datatype User = User(
    username: string,
    role: string,
    hashedPassword: string,
    fullName: string,
    email: string,
    isEmailVerified: bool,
    passwordChangedAt: Time,
    createdAt: Time)

  /** The zero User a failed Scan leaves behind. */
  const EmptyUser: User := User("", "", "", "", "", false, ZeroTime, ZeroTime)

  /** Column defaults of the users table for the columns CreateUser does
      not bind. */
  const DefaultRole: string := "depositor"
  const DefaultPasswordChangedAt: Time := ZeroTime

  datatype Account = Account(id: int, owner: string, balance: int, currency: string, createdAt: Time)

  const EmptyAccount: Account := Account(0, "", 0, "", ZeroTime)

  datatype VerifyEmail = VerifyEmail(
    id: int,
    username: string,
    email: string,
    secretCode: string,
    isUsed: bool,
    createdAt: Time,
    expiredAt: Time)

  const EmptyVerifyEmail: VerifyEmail := VerifyEmail(0, "", "", "", false, ZeroTime, ZeroTime)

  /** The tables: users keyed by username, accounts and verify_emails keyed
      by id, and the next value of the accounts id sequence. */
  datatype Db = Db(
    users: map<string, User>,
    accounts: map<int, Account>,
    verifyEmails: map<int, VerifyEmail>,
    nextAccountId: int)

  const EmptyDb: Db := Db(map[], map[], map[], 1)

  /** What the constraints of the schema keep true: each user row sits under
      its own username, emails are unique (users_email_key), each account
      sits under its own id, and ids come from a sequence starting at 1. */
  ghost predicate Valid(db: Db)
  {
    && (forall name | name in db.users :: db.users[name].username == name)
    && (forall a, b | a in db.users && b in db.users && a != b :: db.users[a].email != db.users[b].email)
    && (forall id | id in db.accounts :: db.accounts[id].id == id && 0 < id < db.nextAccountId)
    && 0 < db.nextAccountId
  }

  /** A statement that may write: the database afterwards, and Go's
      `(row, error)` pair, the row being the zero value on most errors. */
  datatype Step<T> = Step(db: Db, value: T, err: Option<Error>)

  /** A read-only statement's `(row, error)` pair. */
  datatype Reply<T> = Reply(value: T, err: Option<Error>)
}

/** The HTTP status codes the handlers answer with. */
module Http {
  const StatusOK: int := 200
  const StatusBadRequest: int := 400
  const StatusUnauthorized: int := 401
  const StatusForbidden: int := 403
  const StatusNotFound: int := 404
  const StatusUnprocessableEntity: int := 422
  const StatusInternalServerError: int := 500
}
