/** createTransfer and validAccount (api/transfer.go): both accounts must
    exist and hold the request's currency, and the from-account must belong
    to the caller, before the transfer engine is called. The engine
    (TransferTx) is a function parameter. */
module TransferApi {
  import opened Wrappers
  import opened DbErrors
  import opened Schema
  import AQ = AccountsQueries
  import Http

  datatype CreateTransferRequest = CreateTransferRequest(
    fromAccountId: int, toAccountId: int, amount: int, currency: string)

  datatype TransferTxParams = TransferTxParams(fromAccountId: int, toAccountId: int, amount: int)

  /** validAccount's answer: the account read, whether it passed, and the
      status already chosen when it did not. */
  datatype AccountCheck = AccountCheck(account: Account, valid: bool, status: int)

  /** validAccount; `fault` is the driver's failure of the lookup. */
  function ValidAccount(db: Db, accountId: int, currency: string, fault: Option<Error>): (r: AccountCheck)
    ensures r.account == AQ.GetAccount(db, accountId, fault).value
    ensures r.valid <==> fault.None? && accountId in db.accounts && db.accounts[accountId].currency == currency
    ensures !r.valid ==>
              r.status == (if fault.Some? && !Is(fault.value, ErrNoRows) then Http.StatusInternalServerError
                           else if fault.Some? || accountId !in db.accounts then Http.StatusNotFound
                           else Http.StatusBadRequest)
  {
    var got := AQ.GetAccount(db, accountId, fault);
    if got.err.Some? then
      if Is(got.err.value, ErrNoRows) then AccountCheck(got.value, false, Http.StatusNotFound)
      else AccountCheck(got.value, false, Http.StatusInternalServerError)
    else if got.value.currency != currency then AccountCheck(got.value, false, Http.StatusBadRequest)
    else AccountCheck(got.value, true, Http.StatusOK)
  }

  /** What createTransfer did: the account ids it looked up in order, the
      engine call it made if any, its status and the engine's result. */
  datatype TransferOutcome<R> = TransferOutcome(
    lookups: seq<int>, engineCall: Option<TransferTxParams>, status: int, result: Option<R>)

  /** createTransfer for the authenticated `subject`; `fromFault` and
      `toFault` are the driver's failures of the two lookups, `transfer` is
      the engine. */
  function CreateTransfer<R>(db: Db, req: CreateTransferRequest, subject: string,
                             fromFault: Option<Error>, toFault: Option<Error>,
                             transfer: TransferTxParams -> Result<R, Error>): (r: TransferOutcome<R>)
    ensures var from := ValidAccount(db, req.fromAccountId, req.currency, fromFault);
            var to := ValidAccount(db, req.toAccountId, req.currency, toFault);
            && (!from.valid ==> r == TransferOutcome([req.fromAccountId], None, from.status, None))
            && (from.valid && from.account.owner != subject ==>
                  r == TransferOutcome([req.fromAccountId], None, Http.StatusForbidden, None))
            && (from.valid && from.account.owner == subject ==> r.lookups == [req.fromAccountId, req.toAccountId])
            && (r.engineCall.Some? <==> from.valid && from.account.owner == subject && to.valid)
            && (r.engineCall.Some? ==>
                  && r.engineCall.value == TransferTxParams(req.fromAccountId, req.toAccountId, req.amount)
                  && r.status == (if transfer(r.engineCall.value).Ok? then Http.StatusOK else Http.StatusInternalServerError)
                  && (r.status == Http.StatusOK ==> r.result == Some(transfer(r.engineCall.value).value)))
            && (from.valid && from.account.owner == subject && !to.valid ==> r.status == to.status)
    ensures r.status == Http.StatusOK ==> r.engineCall.Some? && r.result.Some?
  {
    var from := ValidAccount(db, req.fromAccountId, req.currency, fromFault);
    if !from.valid then TransferOutcome([req.fromAccountId], None, from.status, None)
    else if from.account.owner != subject then TransferOutcome([req.fromAccountId], None, Http.StatusForbidden, None)
    else
      var to := ValidAccount(db, req.toAccountId, req.currency, toFault);
      if !to.valid then TransferOutcome([req.fromAccountId, req.toAccountId], None, to.status, None)
      else
        var arg := TransferTxParams(req.fromAccountId, req.toAccountId, req.amount);
        var res := transfer(arg);
        if res.Err? then TransferOutcome([req.fromAccountId, req.toAccountId], Some(arg), Http.StatusInternalServerError, None)
        else TransferOutcome([req.fromAccountId, req.toAccountId], Some(arg), Http.StatusOK, Some(res.value))
  }

  /** Ownership is checked for the from-account only: who owns the
      to-account never changes the outcome. */
  lemma ToAccountOwnerIgnored<R>(db: Db, req: CreateTransferRequest, subject: string, newOwner: string,
                                 fromFault: Option<Error>, toFault: Option<Error>,
                                 transfer: TransferTxParams -> Result<R, Error>)
    requires req.toAccountId in db.accounts && req.toAccountId != req.fromAccountId
    ensures var db' := db.(accounts := db.accounts[req.toAccountId := db.accounts[req.toAccountId].(owner := newOwner)]);
            CreateTransfer(db', req, subject, fromFault, toFault, transfer)
              == CreateTransfer(db, req, subject, fromFault, toFault, transfer)
  {
    var db' := db.(accounts := db.accounts[req.toAccountId := db.accounts[req.toAccountId].(owner := newOwner)]);
    assert ValidAccount(db', req.fromAccountId, req.currency, fromFault) == ValidAccount(db, req.fromAccountId, req.currency, fromFault);
    assert ValidAccount(db', req.toAccountId, req.currency, toFault).valid == ValidAccount(db, req.toAccountId, req.currency, toFault).valid;
    assert ValidAccount(db', req.toAccountId, req.currency, toFault).status == ValidAccount(db, req.toAccountId, req.currency, toFault).status;
  }

  /** A caller who does not own the from-account is refused before the
      to-account is read, and no transfer is made. */
  lemma ForeignFromAccountRefused<R>(db: Db, req: CreateTransferRequest, subject: string,
                                     fromFault: Option<Error>, toFault: Option<Error>,
                                     transfer: TransferTxParams -> Result<R, Error>)
    requires fromFault.None? && req.fromAccountId in db.accounts
    requires db.accounts[req.fromAccountId].currency == req.currency
    requires db.accounts[req.fromAccountId].owner != subject
    ensures var r := CreateTransfer(db, req, subject, fromFault, toFault, transfer);
            r.status == Http.StatusForbidden && r.engineCall.None? && r.lookups == [req.fromAccountId]
  {
  }
}
