/** The scenarios of db/sqlc/accounts_test.go, driven against the store
    object: random users and accounts are created through the pool and
    what each scenario requires of the results is stated as
    postconditions. The password hash is a parameter, and no statement
    driver fault is injected, so an insert fails only on a constraint. */
module AccountsScenarios {
  import opened Wrappers
  import opened DbErrors
  import opened Schema
  import UQ = UsersQueries
  import AQ = AccountsQueries
  import Store
  import Random

  /** createRandomUser: a six-letter username doubling as the full name,
      with a gmail address. Only a username or email clash can fail it. */
  method CreateRandomUser(store: Store.SQLStore, hashedPassword: string, now: Time)
    returns (user: User, err: Option<Error>)
    requires Valid(store.State())
    modifies store
    ensures Valid(store.State())
    ensures err.None? ==>
              && |user.username| == 6
              && user.hashedPassword == hashedPassword
              && user.fullName == user.username
              && user.email == user.username + "@gmail.com"
              && user.createdAt == now
              && store.users == old(store.users)[user.username := user]
              && store.accounts == old(store.accounts)
    ensures err.Some? ==> store.State() == old(store.State()) && IsUniqueViolation(err.value)
  {
    var username := Random.RandomOwner();
    var arg := UQ.CreateUserParams(username, hashedPassword, username, username + "@gmail.com");
    user, err := store.CreateUser(arg, now, None);
  }

  /** createRandomAccount: a fresh user, then an account for them with a
      random balance and currency. */
  method CreateRandomAccount(store: Store.SQLStore, hashedPassword: string, now: Time)
    returns (account: Account, err: Option<Error>)
    requires Valid(store.State())
    modifies store
    ensures Valid(store.State())
    ensures err.None? ==>
              && account.id > 0
              && account.id in store.accounts && store.accounts[account.id] == account
              && account.owner in store.users && |account.owner| == 6
              && 0 <= account.balance <= 1000
              && account.currency in Random.Currencies
              && account.createdAt == now
    ensures err.Some? ==> account == EmptyAccount
  {
    var user;
    user, err := CreateRandomUser(store, hashedPassword, now);
    if err.Some? {
      account := EmptyAccount;
      return;
    }
    var balance := Random.RandomMoney();
    var currency := Random.RandomCurrency();
    account, err := store.CreateAccount(AQ.CreateAccountParams(user.username, balance, currency), now, None);
  }

  /** TestGetAccount: reading a created account back gives the same row. */
  method GetAccountScenario(store: Store.SQLStore, hashedPassword: string, now: Time)
    returns (account1: Account, account2: Account, err: Option<Error>)
    requires Valid(store.State())
    modifies store
    ensures err.None? ==> account2 == account1 && account1.id > 0
  {
    account1, err := CreateRandomAccount(store, hashedPassword, now);
    if err.Some? {
      account2 := EmptyAccount;
      return;
    }
    account2, err := store.GetAccount(account1.id, None);
  }

  /** TestUpdateAccount: the balance takes the new amount, everything else
      is kept. */
  method UpdateAccountScenario(store: Store.SQLStore, hashedPassword: string, now: Time)
    returns (account1: Account, account2: Account, err: Option<Error>)
    requires Valid(store.State())
    modifies store
    ensures err.None? ==>
              && account2 == account1.(balance := account2.balance)
              && 0 <= account2.balance <= 1000
  {
    account1, err := CreateRandomAccount(store, hashedPassword, now);
    if err.Some? {
      account2 := EmptyAccount;
      return;
    }
    var balance := Random.RandomMoney();
    account2, err := store.UpdateAccount(AQ.UpdateAccountParams(account1.id, balance), None);
  }

  /** TestDeleteAccount: after the delete the account is not found and the
      read returns the empty account. */
  method DeleteAccountScenario(store: Store.SQLStore, hashedPassword: string, now: Time)
    returns (account1: Account, account2: Account, err: Option<Error>)
    requires Valid(store.State())
    modifies store
    ensures account2 == EmptyAccount && err.Some?
    ensures account1 != EmptyAccount ==> err == Some(ErrRecordNotFound) && account1.id !in store.accounts
  {
    account1, err := CreateRandomAccount(store, hashedPassword, now);
    if err.Some? {
      account2 := EmptyAccount;
      return;
    }
    err := store.DeleteAccount(account1.id, None);
    account2, err := store.GetAccount(account1.id, None);
    assert err == Some(ErrRecordNotFound);
  }

  /** TestListAccounts: ten random accounts, then the first page of five
      of the last one's owner is non-empty and holds only that owner's
      stored, non-empty accounts. */
  method ListAccountsScenario(store: Store.SQLStore, hashedPassword: string, now: Time)
    returns (accounts: seq<Account>, err: Option<Error>)
    requires Valid(store.State())
    modifies store
    ensures err.None? ==>
              && |accounts| > 0
              && forall i | 0 <= i < |accounts| ::
                   && accounts[i] != EmptyAccount
                   && accounts[i].id in store.accounts && store.accounts[accounts[i].id] == accounts[i]
  {
    var lastAccount := EmptyAccount;
    var i := 0;
    while i < 10
      invariant 0 <= i <= 10
      invariant Valid(store.State())
      invariant i > 0 ==> lastAccount.id in store.accounts && store.accounts[lastAccount.id] == lastAccount
    {
      lastAccount, err := CreateRandomAccount(store, hashedPassword, now);
      if err.Some? {
        accounts := [];
        return;
      }
      i := i + 1;
    }
    accounts, err := store.ListAccountsByOwner(AQ.ListAccountsByOwnerParams(lastAccount.owner, 5, 0), None);
    AQ.ListFirstPageNonEmpty(store.State(), lastAccount.owner, lastAccount.id);
  }
}
