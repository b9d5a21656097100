/**
 * The transaction record (models/transactionModel.js): its type and status
 * enums, the `Pending` default, lookup by short id, and the populate hook that
 * resolves the sender and receiver references whenever a transaction is read.
 * Account references are indices into the account collection.
 */
module TransactionModel {
  import opened Common
  import opened AccountModel

  datatype TxType = Saving | Withdrawal | Transfer

  datatype Status = Pending | Completed | Failed

  datatype Transaction = Transaction(
    id: string,
    kind: TxType,
    sender: nat,
    receiver: Option<nat>,
    amount: int,
    createdBy: UserId,
    lastModifiedBy: UserId,
    status: Status)

  /** `Completed` and `Failed` are terminal. */
  predicate Terminal(s: Status) {
    s != Pending
  }

  /** The allowed status changes: none, or out of `Pending` into a terminal status. */
  predicate IsStep(before: Status, after: Status) {
    before == after || (before == Pending && Terminal(after))
  }

  /**
   * A record as `Transaction.create` stores it from a request handler: created
   * and last modified by the actor, status `Pending`.
   */
  function Requested(id: string, kind: TxType, sender: nat, receiver: Option<nat>, amount: int, actor: UserId): (t: Transaction)
    ensures t.status == Pending && !Terminal(t.status)
    ensures t.kind == kind && t.sender == sender && t.receiver == receiver && t.amount == amount
    ensures t.createdBy == actor && t.lastModifiedBy == actor
  {
    Transaction(id, kind, sender, receiver, amount, actor, actor, Pending)
  }

  /**
   * What the request handlers guarantee of every stored record: its references
   * exist, its amount is positive, and only a transfer names a receiver.
   */
  predicate WellFormedTx(t: Transaction, accountCount: nat) {
    t.sender < accountCount &&
    (t.receiver.Some? ==> t.receiver.value < accountCount) &&
    (t.receiver.Some? <==> t.kind == Transfer) &&
    t.amount > 0
  }

  /** `Transaction.findOne({ id })` in natural order: the first record with that short id. */
  function FindTransaction(txs: seq<Transaction>, id: string): (r: Option<nat>)
    ensures r.Some? ==> r.value < |txs| && txs[r.value].id == id
    ensures r.Some? ==> forall k :: 0 <= k < r.value ==> txs[k].id != id
    ensures r.None? ==> forall k :: 0 <= k < |txs| ==> txs[k].id != id
  {
    if txs == [] then None
    else if txs[0].id == id then Some(0)
    else match FindTransaction(txs[1..], id)
         case None => None
         case Some(i) => Some(i + 1)
  }

  /**
   * Populating one reference at read time: the populate query runs the
   * account schema's find hooks, so it yields the account's current record
   * when that account is active and null otherwise.
   */
  function Resolve(accounts: seq<Account>, ref: nat): (r: Option<Account>)
    ensures r.Some? <==> ref < |accounts| && IsActive(accounts[ref])
    ensures r.Some? ==> r.value == accounts[ref]
  {
    if ref < |accounts| && IsActive(accounts[ref]) then Some(accounts[ref]) else None
  }

  /** Populating the optional receiver reference. */
  function ResolveReceiver(accounts: seq<Account>, t: Transaction): (r: Option<Account>)
    ensures r.Some? <==> t.receiver.Some? && Resolve(accounts, t.receiver.value).Some?
    ensures r.Some? ==> r.value == accounts[t.receiver.value]
  {
    match t.receiver
    case None => None
    case Some(ref) => Resolve(accounts, ref)
  }
}
