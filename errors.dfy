/** db/sqlc/errors.go, together with the Go error values the core builds and
    inspects: sentinels, Postgres errors, `%w` wrapping and the combined
    transaction/rollback error. */
module DbErrors {
  import opened Wrappers

  datatype Error =
    | ErrNoRows                                     // pgx.ErrNoRows (= sql.ErrNoRows): no row matched
    | PgError(code: string, constraintName: string) // *pgconn.PgError raised by Postgres
    | SkipRetry                                     // asynq.SkipRetry sentinel
    | Msg(text: string)                             // errors.New, or fmt.Errorf without %w
    | Wrapped(prefix: string, inner: Error)         // fmt.Errorf("<prefix>: %w", inner)
    | TxFailed(txErr: Error, rollbackErr: Error)    // fmt.Errorf("transaction error: %v, rollback error: %v", ..)

  const ForeignKeyViolationCode: string := "23503"
  const UniqueViolationCode: string := "23505"

  const UniqueUsernameConstraint: string := "users_pkey"
  const UniqueEmailConstraint: string := "users_email_key"

  /** The single not-found sentinel. */
  const ErrRecordNotFound: Error := ErrNoRows

  /** The innermost error of the chain `errors.Unwrap` walks from `err`:
      only `%w` wraps, so a `TxFailed` ends the chain even though it mentions
      other errors. */
  function Root(err: Error): (r: Error)
    ensures !r.Wrapped?
  {
    if err.Wrapped? then Root(err.inner) else err
  }

  /** errors.Is(err, target) for the comparable sentinels used here. */
  predicate Is(err: Error, target: Error)
  {
    err == target || (err.Wrapped? && Is(err.inner, target))
  }

  /** ErrorDescription: the code and constraint name of the Postgres error
      that `errors.As` finds on the chain, or two empty strings. */
  function ErrorDescription(err: Error): (r: (string, string))
    ensures Root(err).PgError? ==> r == (Root(err).code, Root(err).constraintName)
    ensures !Root(err).PgError? ==> r == ("", "")
  {
    match err
    case PgError(code, name) => (code, name)
    case Wrapped(_, inner) => ErrorDescription(inner)
    case _ => ("", "")
  }

  predicate IsUniqueViolation(err: Error)
  {
    ErrorDescription(err).0 == UniqueViolationCode
  }

  predicate IsForeignKeyViolation(err: Error)
  {
    ErrorDescription(err).0 == ForeignKeyViolationCode
  }

  /** The two classifications never overlap, and username and email
      uniqueness are told apart by their constraint names. */
  lemma ViolationClassesDistinct(err: Error)
    ensures !(IsUniqueViolation(err) && IsForeignKeyViolation(err))
    ensures UniqueUsernameConstraint != UniqueEmailConstraint
  {
  }

  /** A Postgres error keeps its description through any number of `%w`
      wrappers. */
  lemma {:induction false} DescriptionThroughWrapping(prefixes: seq<string>, code: string, name: string)
    ensures Root(WrapAll(prefixes, PgError(code, name))) == PgError(code, name)
    ensures ErrorDescription(WrapAll(prefixes, PgError(code, name))) == (code, name)
  {
    if |prefixes| > 0 {
      DescriptionThroughWrapping(prefixes[1..], code, name);
    }
  }

  /** `err` wrapped once per prefix, outermost first. */
  function WrapAll(prefixes: seq<string>, err: Error): Error
  {
    if |prefixes| == 0 then err else Wrapped(prefixes[0], WrapAll(prefixes[1..], err))
  }

  /** errors.Is does not see through the combined rollback error, since it is
      built with %v: neither of the two inner errors is found. */
  lemma TxFailedHidesCauses(txErr: Error, rbErr: Error, target: Error)
    requires target != TxFailed(txErr, rbErr)
    ensures !Is(TxFailed(txErr, rbErr), target)
    ensures ErrorDescription(TxFailed(txErr, rbErr)) == ("", "")
  {
  }
}
