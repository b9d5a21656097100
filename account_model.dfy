/**
 * The account record (models/accountModel.js): its defaults, its status enum,
 * the "active only" filter every find query carries, and the owner predicate.
 * Balances and caps are integers in minor units.
 */
module AccountModel {
  import opened Common

  datatype AccountStatus = Active | Suspended | Deactivated

  /** The product an account is opened under, as populated on every find; only its cap matters here. */
  datatype Product = Product(name: string, maximumAmount: int)

  datatype Account = Account(
    accountNumber: string,
    balance: int,
    product: Product,
    status: AccountStatus,
    owner: UserId,
    createdOn: int,
    lastModifiedBy: Option<UserId>,
    lastModifiedOn: int)

  /** The ledger invariant for one account: never overdrawn, never above its product's cap. */
  predicate Solvent(a: Account) {
    0 <= a.balance <= a.product.maximumAmount
  }

  /**
   * A freshly created account with the schema's defaults: balance 0, status
   * active. The account number and the timestamps are supplied.
   */
  function NewAccount(accountNumber: string, owner: UserId, product: Product, now: int): (a: Account)
    ensures a.balance == 0 && a.status == Active
    ensures a.accountNumber == accountNumber && a.owner == owner && a.product == product
    ensures Solvent(a) <==> product.maximumAmount >= 0
  {
    Account(accountNumber, 0, product, Active, owner, now, None, now)
  }

  /** The query filter `{ status: "active" }` the pre-find hook adds to every account lookup. */
  predicate IsActive(a: Account) {
    a.status == Active
  }

  /** What `Account.findOne({ accountNumber: number })` matches once the hook's filter is added. */
  predicate Selects(a: Account, accountNumber: string) {
    a.accountNumber == accountNumber && IsActive(a)
  }

  /**
   * `findOne` by account number over the collection in natural order: the
   * index of the first active account with that number, or none.
   */
  function FindActive(accounts: seq<Account>, accountNumber: string): (r: Option<nat>)
    ensures r.Some? ==> r.value < |accounts| && Selects(accounts[r.value], accountNumber)
    ensures r.Some? ==> forall k :: 0 <= k < r.value ==> !Selects(accounts[k], accountNumber)
    ensures r.None? ==> forall k :: 0 <= k < |accounts| ==> !Selects(accounts[k], accountNumber)
  {
    if accounts == [] then None
    else if Selects(accounts[0], accountNumber) then Some(0)
    else match FindActive(accounts[1..], accountNumber)
         case None => None
         case Some(i) => Some(i + 1)
  }

  /** Lookups never hand out a suspended or deactivated account. */
  lemma InactiveIsNotFound(accounts: seq<Account>, accountNumber: string, k: nat)
    requires k < |accounts| && accounts[k].accountNumber == accountNumber && !IsActive(accounts[k])
    ensures FindActive(accounts, accountNumber) != Some(k)
  {
  }

  /** `isUsersAccount(user)`, as evidently intended: a synchronous test that the account's owner is `user`. */
  function IsUsersAccount(a: Account, user: UserId): (b: bool)
    ensures b <==> IsUsersAccountAsWritten(a, Some(user)).resolvesTo
  {
    a.owner == user
  }

  /** Just enough of JavaScript's values to evaluate the source's owner test. */
  datatype JsValue = JsUndefined | JsBool(b: bool) | JsPromise(resolvesTo: bool)

  /** JavaScript truthiness: every Promise object is truthy, whatever it resolves to. */
  predicate Truthy(v: JsValue) {
    match v
    case JsUndefined => false
    case JsBool(b) => b
    case JsPromise(_) => true
  }

  /**
   * `isUsersAccount` as written: the method is declared `async`, so the call
   * yields a Promise, and the callers pass `res.user`, which is undefined.
   */
  function IsUsersAccountAsWritten(a: Account, user: Option<UserId>): (v: JsValue)
    ensures v.JsPromise?
  {
    JsPromise(Some(a.owner) == user)
  }

  /** The owner test as written is truthy for everybody, owner or not. */
  lemma AsWrittenOwnerTestAdmitsStranger()
    ensures var a := NewAccount("000000000000", 1, Product("savings", 1000), 0);
            !IsUsersAccount(a, 2) && Truthy(IsUsersAccountAsWritten(a, Some(2)))
  {
  }

  /**
   * The update both deactivation handlers send, as evidently intended: status
   * `deactivated`, who changed it and when; nothing else, the balance included.
   */
  function Deactivate(a: Account, actor: UserId, now: int): (r: Account)
    ensures r.status == Deactivated && !IsActive(r)
    ensures r.lastModifiedBy == Some(actor) && r.lastModifiedOn == now
    ensures r.balance == a.balance && r.product == a.product && r.owner == a.owner
    ensures r.accountNumber == a.accountNumber && r.createdOn == a.createdOn
  {
    a.(status := Deactivated, lastModifiedBy := Some(actor), lastModifiedOn := now)
  }

  /**
   * The update as written: the timestamp is sent under the misspelt key
   * `lastMofiedAt`, which the strict schema drops, so `lastModifiedOn` keeps
   * its old value.
   */
  function DeactivateAsWritten(a: Account, actor: UserId, now: int): (r: Account)
    ensures r.status == Deactivated && r.lastModifiedBy == Some(actor)
    ensures r.lastModifiedOn == a.lastModifiedOn
    ensures r.balance == a.balance && r.product == a.product && r.owner == a.owner
    ensures r.accountNumber == a.accountNumber && r.createdOn == a.createdOn
  {
    a.(status := Deactivated, lastModifiedBy := Some(actor))
  }

  /** The handlers as written leave a stale modification time behind. */
  lemma AsWrittenDeactivateKeepsStaleTimestamp()
    ensures var a := NewAccount("000000000000", 1, Product("savings", 1000), 0);
            DeactivateAsWritten(a, 1, 5).lastModifiedOn == 0 != Deactivate(a, 1, 5).lastModifiedOn
  {
  }
}
