/** The account statements CreateAccount, GetAccount, UpdateAccount,
    DeleteAccount and ListAccountsByOwner, with the behaviour
    db/sqlc/accounts_test.go asserts of them. */
module AccountsQueries {
  import opened Wrappers
  import opened DbErrors
  import opened Schema

  datatype CreateAccountParams = CreateAccountParams(owner: string, balance: int, currency: string)
  datatype UpdateAccountParams = UpdateAccountParams(id: int, balance: int)
  datatype ListAccountsByOwnerParams = ListAccountsByOwnerParams(owner: string, limit: int, offset: int)

  /** SQLSTATEs Postgres raises for a negative LIMIT or OFFSET. */
  const NegativeLimitCode: string := "2201W"
  const NegativeOffsetCode: string := "2201X"

  /** INSERT ... RETURNING: the new account carries the given owner, balance
      and currency, a fresh positive id from the sequence and the creation
      time. */
  function CreateAccount(db: Db, arg: CreateAccountParams, now: Time, fault: Option<Error>): (r: Step<Account>)
    ensures r.err == fault
    ensures r.err.Some? ==> r.db == db && r.value == EmptyAccount
    ensures r.err.None? ==>
              && r.value.owner == arg.owner
              && r.value.balance == arg.balance
              && r.value.currency == arg.currency
              && r.value.createdAt == now
              && r.db.accounts == db.accounts[r.value.id := r.value]
              && r.db.users == db.users && r.db.verifyEmails == db.verifyEmails
    ensures Valid(db) && r.err.None? ==> r.value.id > 0 && r.value.id !in db.accounts
    ensures Valid(db) ==> Valid(r.db)
  {
    if fault.Some? then Step(db, EmptyAccount, fault)
    else
      var id := db.nextAccountId;
      var a := Account(id, arg.owner, arg.balance, arg.currency, now);
      assert Valid(db) ==> id !in db.accounts;
      Step(db.(accounts := db.accounts[id := a], nextAccountId := id + 1), a, None)
  }

  /** SELECT ... WHERE id = $1: the stored account, or the empty account and
      ErrNoRows. */
  function GetAccount(db: Db, id: int, fault: Option<Error>): (r: Reply<Account>)
    ensures r.err.None? <==> fault.None? && id in db.accounts
    ensures r.err.None? ==> r.value == db.accounts[id]
    ensures Valid(db) && r.err.None? ==> r.value.id == id
    ensures fault.None? && id !in db.accounts ==> r == Reply(EmptyAccount, Some(ErrNoRows))
    ensures fault.Some? ==> r == Reply(EmptyAccount, fault)
  {
    if fault.Some? then Reply(EmptyAccount, fault)
    else if id in db.accounts then Reply(db.accounts[id], None)
    else Reply(EmptyAccount, Some(ErrNoRows))
  }

  /** UPDATE ... SET balance = $2 WHERE id = $1 RETURNING: the balance is
      the argument; id, owner, currency and created_at are kept. */
  function UpdateAccount(db: Db, arg: UpdateAccountParams, fault: Option<Error>): (r: Step<Account>)
    ensures r.err.None? <==> fault.None? && arg.id in db.accounts
    ensures r.err.None? ==>
              && r.value.balance == arg.balance
              && r.value.id == db.accounts[arg.id].id
              && r.value.owner == db.accounts[arg.id].owner
              && r.value.currency == db.accounts[arg.id].currency
              && r.value.createdAt == db.accounts[arg.id].createdAt
              && r.db == db.(accounts := db.accounts[arg.id := r.value])
    ensures r.err.Some? ==> r.db == db && r.value == EmptyAccount
    ensures fault.None? && arg.id !in db.accounts ==> r.err == Some(ErrNoRows)
    ensures Valid(db) ==> Valid(r.db)
  {
    if fault.Some? then Step(db, EmptyAccount, fault)
    else if arg.id !in db.accounts then Step(db, EmptyAccount, Some(ErrNoRows))
    else
      var a := db.accounts[arg.id].(balance := arg.balance);
      Step(db.(accounts := db.accounts[arg.id := a]), a, None)
  }

  /** DELETE ... WHERE id = $1 (an :exec statement): the row is gone
      afterwards; deleting a missing row is not an error. */
  function DeleteAccount(db: Db, id: int, fault: Option<Error>): (r: Step<()>)
    ensures r.err == fault
    ensures r.err.None? ==> r.db == db.(accounts := db.accounts - {id}) && id !in r.db.accounts
    ensures r.err.Some? ==> r.db == db
    ensures Valid(db) ==> Valid(r.db)
  {
    if fault.Some? then Step(db, (), fault)
    else Step(db.(accounts := db.accounts - {id}), (), None)
  }

  /** The accounts of `owner` with id below `n`, in ascending id order. */
  function OwnedBelow(accounts: map<int, Account>, owner: string, n: int): seq<Account>
    decreases n
  {
    if n <= 1 then []
    else OwnedBelow(accounts, owner, n - 1)
         + (if n - 1 in accounts && accounts[n - 1].owner == owner then [accounts[n - 1]] else [])
  }

  /** OwnedBelow holds exactly the owner's accounts with id in [1, n), each
      once, with strictly increasing ids. */
  lemma {:induction false} OwnedBelowSpec(accounts: map<int, Account>, owner: string, n: int)
    requires forall id | id in accounts :: accounts[id].id == id
    ensures forall i | 0 <= i < |OwnedBelow(accounts, owner, n)| ::
              var a := OwnedBelow(accounts, owner, n)[i];
              a.owner == owner && a.id in accounts && accounts[a.id] == a && 1 <= a.id < n
    ensures forall i, j | 0 <= i < j < |OwnedBelow(accounts, owner, n)| ::
              OwnedBelow(accounts, owner, n)[i].id < OwnedBelow(accounts, owner, n)[j].id
    ensures forall id | id in accounts && 1 <= id < n && accounts[id].owner == owner ::
              accounts[id] in OwnedBelow(accounts, owner, n)
  {
    if n > 1 {
      OwnedBelowSpec(accounts, owner, n - 1);
    }
  }

  /** LIMIT limit OFFSET offset over an ordered result. */
  function Page<T>(s: seq<T>, offset: nat, limit: nat): (r: seq<T>)
    ensures |r| <= limit
    ensures offset <= |s| ==> r == s[offset..if offset + limit <= |s| then offset + limit else |s|]
    ensures offset >= |s| ==> r == []
  {
    var lo := if offset <= |s| then offset else |s|;
    var hi := if offset + limit <= |s| then offset + limit else |s|;
    s[lo..hi]
  }

  /** SELECT ... WHERE owner = $1 ORDER BY id LIMIT $2 OFFSET $3. */
  function ListAccountsByOwner(db: Db, arg: ListAccountsByOwnerParams, fault: Option<Error>): (r: Reply<seq<Account>>)
    ensures fault.Some? ==> r == Reply([], fault)
    ensures fault.None? && arg.limit < 0 ==> r == Reply([], Some(PgError(NegativeLimitCode, "")))
    ensures fault.None? && arg.limit >= 0 && arg.offset < 0 ==> r == Reply([], Some(PgError(NegativeOffsetCode, "")))
    ensures r.err.None? <==> fault.None? && arg.limit >= 0 && arg.offset >= 0
    ensures r.err.None? ==> |r.value| <= arg.limit
    ensures Valid(db) ==> forall i | 0 <= i < |r.value| ::
              r.value[i].owner == arg.owner && r.value[i].id in db.accounts && db.accounts[r.value[i].id] == r.value[i]
    ensures Valid(db) ==> forall i, j | 0 <= i < j < |r.value| :: r.value[i].id < r.value[j].id
  {
    if fault.Some? then Reply([], fault)
    else if arg.limit < 0 then Reply([], Some(PgError(NegativeLimitCode, "")))
    else if arg.offset < 0 then Reply([], Some(PgError(NegativeOffsetCode, "")))
    else
      var page := Page(OwnedBelow(db.accounts, arg.owner, db.nextAccountId), arg.offset, arg.limit);
      PageOfOwned(db, arg.owner, arg.offset, arg.limit, page);
      Reply(page, None)
  }

  lemma PageOfOwned(db: Db, owner: string, offset: nat, limit: nat, page: seq<Account>)
    requires page == Page(OwnedBelow(db.accounts, owner, db.nextAccountId), offset, limit)
    ensures Valid(db) ==>
              && (forall i | 0 <= i < |page| ::
                    page[i].owner == owner && page[i].id in db.accounts && db.accounts[page[i].id] == page[i])
              && (forall i, j | 0 <= i < j < |page| :: page[i].id < page[j].id)
  {
    if Valid(db) {
      var all := OwnedBelow(db.accounts, owner, db.nextAccountId);
      OwnedBelowSpec(db.accounts, owner, db.nextAccountId);
      if offset <= |all| {
        var hi := if offset + limit <= |all| then offset + limit else |all|;
        assert page == all[offset..hi];
        forall i | 0 <= i < |page|
          ensures page[i] == all[offset + i]
        {
        }
      }
    }
  }

  /** What TestListAccounts asserts: for an owner holding an account, the
      first page of five is non-empty and holds no empty account. */
  lemma ListFirstPageNonEmpty(db: Db, owner: string, id: int)
    requires Valid(db) && id in db.accounts && db.accounts[id].owner == owner
    ensures var r := ListAccountsByOwner(db, ListAccountsByOwnerParams(owner, 5, 0), None);
            r.err.None? && |r.value| > 0
            && forall i | 0 <= i < |r.value| :: r.value[i] != EmptyAccount
  {
    OwnedBelowSpec(db.accounts, owner, db.nextAccountId);
    assert db.accounts[id] in OwnedBelow(db.accounts, owner, db.nextAccountId);
  }
}
