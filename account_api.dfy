/** The account endpoints of api/account.go for the authenticated
    `subject` (the access token's subject): createAccount, getAccount and
    listAccounts. Each makes a single store call, modelled by the query
    functions over the database value. */
module AccountApi {
  import opened Wrappers
  import opened DbErrors
  import opened Schema
  import AQ = AccountsQueries
  import Http

  datatype CreateAccountRequest = CreateAccountRequest(currency: string)

  /** A handler's effect: the database after it, the status and the body
      on success. */
  datatype HandlerResult<T> = HandlerResult(db: Db, status: int, body: Option<T>)

  /** createAccount: a zero-balance account owned by the subject; a unique
      or foreign-key violation answers 422, any other error 500. */
  function CreateAccountHandler(db: Db, subject: string, req: CreateAccountRequest, now: Time, fault: Option<Error>)
    : (r: HandlerResult<Account>)
    ensures var s := AQ.CreateAccount(db, AQ.CreateAccountParams(subject, 0, req.currency), now, fault);
            && r.db == s.db
            && (s.err.None? ==> r.status == Http.StatusOK && r.body == Some(s.value))
            && (s.err.Some? && (IsUniqueViolation(s.err.value) || IsForeignKeyViolation(s.err.value)) ==>
                  r.status == Http.StatusUnprocessableEntity && r.body.None?)
            && (s.err.Some? && !IsUniqueViolation(s.err.value) && !IsForeignKeyViolation(s.err.value) ==>
                  r.status == Http.StatusInternalServerError && r.body.None?)
    ensures r.status == Http.StatusOK ==>
              && r.body.Some? && r.body.value.owner == subject && r.body.value.balance == 0
              && r.body.value.currency == req.currency
    ensures r.status != Http.StatusOK ==> r.db == db
  {
    var s := AQ.CreateAccount(db, AQ.CreateAccountParams(subject, 0, req.currency), now, fault);
    if s.err.Some? then
      var e := s.err.value;
      if IsUniqueViolation(e) || IsForeignKeyViolation(e) then HandlerResult(s.db, Http.StatusUnprocessableEntity, None)
      else HandlerResult(s.db, Http.StatusInternalServerError, None)
    else HandlerResult(s.db, Http.StatusOK, Some(s.value))
  }

  /** getAccount: the id is required (the zero id fails binding), a missing
      account is 404, other errors 500, and an account of another owner
      is refused with 403. */
  function GetAccountHandler(db: Db, subject: string, id: int, fault: Option<Error>): (r: HandlerResult<Account>)
    ensures r.db == db
    ensures id == 0 ==> r.status == Http.StatusBadRequest
    ensures id != 0 && fault.None? && id !in db.accounts ==> r.status == Http.StatusNotFound
    ensures id != 0 && fault.Some? ==>
              r.status == (if Is(fault.value, ErrNoRows) then Http.StatusNotFound else Http.StatusInternalServerError)
    ensures id != 0 && fault.None? && id in db.accounts ==>
              r.status == (if db.accounts[id].owner == subject then Http.StatusOK else Http.StatusForbidden)
    ensures r.status == Http.StatusOK <==> r.body.Some?
    ensures r.body.Some? ==> id in db.accounts && r.body.value == db.accounts[id] && r.body.value.owner == subject
  {
    if id == 0 then HandlerResult(db, Http.StatusBadRequest, None)
    else
      var got := AQ.GetAccount(db, id, fault);
      if got.err.Some? then
        if Is(got.err.value, ErrNoRows) then HandlerResult(db, Http.StatusNotFound, None)
        else HandlerResult(db, Http.StatusInternalServerError, None)
      else if got.value.owner != subject then HandlerResult(db, Http.StatusForbidden, None)
      else HandlerResult(db, Http.StatusOK, Some(got.value))
  }

  /** Go's int32 arithmetic: the value congruent to x modulo 2^32 in the
      int32 range. */
  function WrapInt32(x: int): (r: Int32)
    ensures (r - x) % 0x1_0000_0000 == 0
    ensures MinInt32 <= x <= MaxInt32 ==> r == x
  {
    (x - MinInt32) % 0x1_0000_0000 + MinInt32
  }

  /** The offset as the source computes it, in int32. */
  function ListOffsetAsWritten(pageId: Int32, pageSize: Int32): Int32
  {
    WrapInt32(WrapInt32(pageId - 1) * pageSize)
  }

  /** Large page numbers pass binding (page_id only has a lower bound) and
      overflow: page_id 214748366 with page_size 10 gives a negative offset,
      which the database rejects, so listAccounts answers 500; page_id
      429496731 with page_size 10 wraps round to offset 4 and silently
      returns the wrong page. */
  lemma ListOffsetOverflows(db: Db, subject: string)
    ensures ListOffsetAsWritten(214748366, 10) == -2147483646
    ensures AQ.ListAccountsByOwner(db, AQ.ListAccountsByOwnerParams(subject, 10, ListOffsetAsWritten(214748366, 10)), None).err
              == Some(PgError(AQ.NegativeOffsetCode, ""))
    ensures ListOffsetAsWritten(429496731, 10) == 4 && ListOffset(429496731, 10) == 4294967300
    ensures ListAccountsHandler(db, subject, 214748366, 10, None).status == Http.StatusInternalServerError
    ensures ListAccountsHandlerCorrected(db, subject, 214748366, 10, None).status == Http.StatusOK
    ensures ListAccountsHandler(db, subject, 429496731, 10, None) == ListPage(db, subject, 10, 4, None)
  {
    assert WrapInt32(214748366 - 1) == 214748365;
    assert WrapInt32(2147483650) == (2147483650 + 0x8000_0000) % 0x1_0000_0000 - 0x8000_0000 == -2147483646;
    assert WrapInt32(429496731 - 1) == 429496730;
    assert WrapInt32(4294967300) == (4294967300 + 0x8000_0000) % 0x1_0000_0000 - 0x8000_0000 == 4;
  }

  /** The offset of a page: the number of rows on the pages before it,
      computed without overflow. */
  function ListOffset(pageId: int, pageSize: int): (offset: int)
    ensures pageId >= 1 && pageSize >= 0 ==> offset >= 0
    ensures pageSize > 0 ==> offset % pageSize == 0 && offset / pageSize == pageId - 1
  {
    MultipleOf(pageId - 1, pageSize);
    (pageId - 1) * pageSize
  }

  /** k * n is a multiple of n, and a non-negative one when both are. */
  lemma MultipleOf(k: int, n: int)
    ensures n > 0 ==> (k * n) % n == 0 && (k * n) / n == k
    ensures k >= 0 && n >= 0 ==> k * n >= 0
  {
    if n > 0 {
      var q, r := (k * n) / n, (k * n) % n;
      assert (k - q) * n == r by {
        assert k * n == q * n + r;
      }
      ProductBounds(k - q, n);
    }
  }

  /** Helper for MultipleOf: a non-zero multiple of a positive n is at
      least n away from zero. */
  lemma ProductBounds(d: int, n: int)
    requires n > 0
    ensures d >= 1 ==> d * n >= n
    ensures d <= -1 ==> d * n <= -n
  {
  }

  /** Below the overflow the written arithmetic and the exact one agree. */
  lemma ListOffsetAgreesWithoutOverflow(pageId: Int32, pageSize: Int32)
    requires 1 <= pageId && 5 <= pageSize <= 10
    requires (pageId - 1) * pageSize <= MaxInt32
    ensures ListOffsetAsWritten(pageId, pageSize) == ListOffset(pageId, pageSize)
  {
  }

  /** listAccounts' query binding: both parameters are int32 values with
      page_id >= 1 and 5 <= page_size <= 10. */
  predicate ListRequestBinds(pageId: int, pageSize: int)
  {
    MinInt32 <= pageId <= MaxInt32 && MinInt32 <= pageSize <= MaxInt32
    && pageId >= 1 && 5 <= pageSize <= 10
  }

  /** listAccounts' reply for the subject's page at a given offset: 500
      when the store call fails, otherwise 200 with the rows. */
  function ListPage(db: Db, subject: string, pageSize: int, offset: int, fault: Option<Error>)
    : (r: HandlerResult<seq<Account>>)
    ensures r.db == db
    ensures var q := AQ.ListAccountsByOwner(db, AQ.ListAccountsByOwnerParams(subject, pageSize, offset), fault);
            && (r.status == Http.StatusOK <==> q.err.None?)
            && (q.err.None? ==> r.body == Some(q.value))
            && (q.err.Some? ==> r.status == Http.StatusInternalServerError && r.body.None?)
    ensures r.status == Http.StatusOK <==> fault.None? && pageSize >= 0 && offset >= 0
    ensures r.body.Some? ==> |r.body.value| <= pageSize
    ensures r.body.Some? && Valid(db) ==> forall i | 0 <= i < |r.body.value| :: r.body.value[i].owner == subject
  {
    var q := AQ.ListAccountsByOwner(db, AQ.ListAccountsByOwnerParams(subject, pageSize, offset), fault);
    if q.err.Some? then HandlerResult(db, Http.StatusInternalServerError, None)
    else HandlerResult(db, Http.StatusOK, Some(q.value))
  }

  /** listAccounts as written: binding, then the query at the int32 offset.
      Below the overflow that offset is the exact one, so the page starts
      after the earlier pages; beyond it the reply is whatever the wrapped
      offset gives (see ListOffsetOverflows). */
  function ListAccountsHandler(db: Db, subject: string, pageId: int, pageSize: int, fault: Option<Error>)
    : (r: HandlerResult<seq<Account>>)
    ensures r.db == db
    ensures !ListRequestBinds(pageId, pageSize) ==> r.status == Http.StatusBadRequest && r.body.None?
    ensures ListRequestBinds(pageId, pageSize) ==>
              r == ListPage(db, subject, pageSize, ListOffsetAsWritten(pageId, pageSize), fault)
    ensures ListRequestBinds(pageId, pageSize) && (pageId - 1) * pageSize <= MaxInt32 ==>
              && (r.status == Http.StatusOK <==> fault.None?)
              && (fault.None? ==> r.body == Some(AQ.ListAccountsByOwner(db,
                    AQ.ListAccountsByOwnerParams(subject, pageSize, ListOffset(pageId, pageSize)), None).value))
    ensures r.body.Some? ==> |r.body.value| <= pageSize
    ensures r.body.Some? && Valid(db) ==> forall i | 0 <= i < |r.body.value| :: r.body.value[i].owner == subject
  {
    if !ListRequestBinds(pageId, pageSize) then HandlerResult(db, Http.StatusBadRequest, None)
    else
      assert (pageId - 1) * pageSize <= MaxInt32 ==> ListOffsetAsWritten(pageId, pageSize) == ListOffset(pageId, pageSize) by {
        if (pageId - 1) * pageSize <= MaxInt32 { ListOffsetAgreesWithoutOverflow(pageId, pageSize); }
      }
      ListPage(db, subject, pageSize, ListOffsetAsWritten(pageId, pageSize), fault)
  }

  /** listAccounts with the offset computed exactly: every request that
      binds gets the page after the earlier pages, and fails only when the
      store call does. */
  function ListAccountsHandlerCorrected(db: Db, subject: string, pageId: int, pageSize: int, fault: Option<Error>)
    : (r: HandlerResult<seq<Account>>)
    ensures r.db == db
    ensures !ListRequestBinds(pageId, pageSize) ==> r.status == Http.StatusBadRequest && r.body.None?
    ensures ListRequestBinds(pageId, pageSize) ==>
              && (r.status == Http.StatusOK <==> fault.None?)
              && (fault.None? ==> r.body == Some(AQ.ListAccountsByOwner(db,
                    AQ.ListAccountsByOwnerParams(subject, pageSize, ListOffset(pageId, pageSize)), None).value))
    ensures r.body.Some? ==> |r.body.value| <= pageSize
    ensures r.body.Some? && Valid(db) ==> forall i | 0 <= i < |r.body.value| :: r.body.value[i].owner == subject
  {
    if !ListRequestBinds(pageId, pageSize) then HandlerResult(db, Http.StatusBadRequest, None)
    else ListPage(db, subject, pageSize, ListOffset(pageId, pageSize), fault)
  }
}
