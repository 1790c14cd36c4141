/** The UpdateVerifyEmail statement used by VerifyUserEmailTx. Its SQL is not
    part of this model, so the row condition of its WHERE clause and the
    effect of its SET list are parameters. */
module VerifyEmailQueries {
  import opened Wrappers
  import opened DbErrors
  import opened Schema

  datatype UpdateVerifyEmailParams = UpdateVerifyEmailParams(id: int, secretCode: string)

  /** `matches(row, secretCode)`: the row with the given id qualifies for
      the update; `apply(row)`: the row after the SET list. */
  datatype VerifyEmailUpdate = VerifyEmailUpdate(
    matches: (VerifyEmail, string) -> bool,
    apply: VerifyEmail -> VerifyEmail)

  /** UPDATE verify_emails ... WHERE id = $1 AND <matches> RETURNING: the
      updated row, or the zero row and ErrNoRows when nothing qualifies;
      no other table and no other row is written. */
  function UpdateVerifyEmail(db: Db, arg: UpdateVerifyEmailParams, q: VerifyEmailUpdate, fault: Option<Error>): (r: Step<VerifyEmail>)
    ensures r.err.None? <==>
              fault.None? && arg.id in db.verifyEmails && q.matches(db.verifyEmails[arg.id], arg.secretCode)
    ensures r.err.None? ==>
              r.value == q.apply(db.verifyEmails[arg.id])
              && r.db == db.(verifyEmails := db.verifyEmails[arg.id := r.value])
    ensures r.err.Some? ==> r.db == db && r.value == EmptyVerifyEmail
    ensures fault.Some? ==> r.err == fault
    ensures fault.None? && r.err.Some? ==> r.err == Some(ErrNoRows)
    ensures Valid(db) ==> Valid(r.db)
  {
    if fault.Some? then Step(db, EmptyVerifyEmail, fault)
    else if arg.id in db.verifyEmails && q.matches(db.verifyEmails[arg.id], arg.secretCode) then
      var row := q.apply(db.verifyEmails[arg.id]);
      Step(db.(verifyEmails := db.verifyEmails[arg.id := row]), row, None)
    else Step(db, EmptyVerifyEmail, Some(ErrNoRows))
  }
}
