/**
 * The money-movement engine of controllers/accountController.js.
 *
 * Request phase: `save`, `withdraw` and `transfer` check a proposed movement
 * against the fetched account and record a `Pending` transaction; no balance
 * moves. Settlement phase: `confirmTransaction` takes a `Pending` transaction
 * to `Completed` (applying it) or `Failed` (applying nothing), re-checking the
 * rule for its type against the accounts as populated at that moment.
 *
 * The pure part of this module states the rules and the settlement as
 * functions over the two collections; the class `Bank` holds the collections
 * and performs each handler step by step, proved equal to those functions.
 */
module AccountController {
  import opened Common
  import opened AccountModel
  import opened TransactionModel

  /** The client-visible error responses of the handlers. */
  datatype Error =
    | AccountNotFound                        // 404 "Account not found!"
    | Forbidden                              // 403
    | CapExceeded(maximumAmount: int)        // 400 "account balance cannot exceed <cap>"
    | InsufficientFunds                      // 400 "Insufficient funds!"
    | ReceiverNotFound(accountNumber: string) // 404 on a transfer request
    | NoPendingTransaction(id: string)       // 404 from confirmTransaction
    | AccountUnavailable                     // a referenced account is no longer active: the handler
                                             // dereferences the null populate result and fails with a server error

  // ---------------------------------------------------------------------------
  // Access guard (fetchAccount)
  // ---------------------------------------------------------------------------

  /** Owner or admin. The source compares `role === "admin"`, so a super-admin is not admitted. */
  function CanAccess(p: Principal, a: Account): (b: bool)
    ensures IsUsersAccount(a, p.id) ==> b
    ensures p.role == Admin ==> b
    ensures p.role == SuperAdmin ==> (b <==> IsUsersAccount(a, p.id))
    ensures p.role == Customer ==> (b <==> IsUsersAccount(a, p.id))
  {
    IsUsersAccount(a, p.id) || p.role == Admin
  }

  /**
   * `fetchAccount`, as evidently intended: find the active account with that
   * number, then admit only its owner or an admin. Success hands on the
   * account (its index) unchanged.
   */
  function Fetch(accounts: seq<Account>, accountNumber: string, p: Principal): (r: Result<nat, Error>)
    ensures r.Ok? || r == Err(AccountNotFound) || r == Err(Forbidden)
    ensures r == Err(AccountNotFound) <==> forall k :: 0 <= k < |accounts| ==> !Selects(accounts[k], accountNumber)
    ensures r.Ok? ==> r.value < |accounts| && Selects(accounts[r.value], accountNumber) && CanAccess(p, accounts[r.value])
    ensures r.Ok? ==> forall k :: 0 <= k < r.value ==> !Selects(accounts[k], accountNumber)
    ensures forall k :: 0 <= k < |accounts| && Selects(accounts[k], accountNumber) && !CanAccess(p, accounts[k]) ==>
              (forall j :: 0 <= j < k ==> !Selects(accounts[j], accountNumber)) ==> r == Err(Forbidden)
    ensures forall k :: 0 <= k < |accounts| && Selects(accounts[k], accountNumber) && CanAccess(p, accounts[k]) ==>
              (forall j :: 0 <= j < k ==> !Selects(accounts[j], accountNumber)) ==> r == Ok(k)
  {
    match FindActive(accounts, accountNumber)
    case None => Err(AccountNotFound)
    case Some(k) => if CanAccess(p, accounts[k]) then Ok(k) else Err(Forbidden)
  }

  /**
   * `fetchAccount` as written: the owner test passes `res.user` (undefined) to
   * an `async` method, and the resulting Promise is truthy, so the `||` never
   * reaches the role test and nobody is forbidden.
   */
  function FetchAsWritten(accounts: seq<Account>, accountNumber: string): (r: Result<nat, Error>)
    ensures r.Ok? <==> FindActive(accounts, accountNumber).Some?
    ensures r.Ok? ==> r.value < |accounts| && Selects(accounts[r.value], accountNumber) &&
                      forall k :: 0 <= k < r.value ==> !Selects(accounts[k], accountNumber)
    ensures r.Err? ==> r.error == AccountNotFound
  {
    match FindActive(accounts, accountNumber)
    case None => Err(AccountNotFound)
    case Some(k) =>
      if Truthy(IsUsersAccountAsWritten(accounts[k], None)) then Ok(k)
      else Err(Forbidden)
  }

  /** Everybody the intended guard forbids is let through by the guard as written. */
  lemma AsWrittenFetchAdmitsStrangers(accounts: seq<Account>, accountNumber: string, p: Principal)
    ensures Fetch(accounts, accountNumber, p) == Err(Forbidden) ==>
            FetchAsWritten(accounts, accountNumber) == Ok(FindActive(accounts, accountNumber).value)
    ensures FetchAsWritten(accounts, accountNumber) != Err(Forbidden)
  {
  }

  /** A concrete stranger: customer 2 fetching customer 1's account. */
  lemma AsWrittenFetchStrangerExample()
    ensures var accounts := [NewAccount("000000000001", 1, Product("savings", 1000), 0)];
            Fetch(accounts, "000000000001", Principal(2, Customer)) == Err(Forbidden) &&
            FetchAsWritten(accounts, "000000000001") == Ok(0)
  {
  }

  // ---------------------------------------------------------------------------
  // The per-type rules, shared by the request and the settlement phase
  // ---------------------------------------------------------------------------

  /** The saving rule: the credit keeps the balance at or below the product's cap (reaching it is allowed). */
  function Fits(a: Account, amount: int): (b: bool)
    ensures !b <==> a.balance + amount > a.product.maximumAmount
    ensures b && Solvent(a) && amount >= 0 ==> Solvent(a.(balance := a.balance + amount))
    ensures !b ==> !Solvent(a.(balance := a.balance + amount))
  {
    a.balance + amount <= a.product.maximumAmount
  }

  /**
   * The funds rule: the debit leaves a non-negative balance (withdrawing
   * everything is allowed). `balance - amount < 0` and `balance < amount`,
   * both of which the source uses, reject the same amounts.
   */
  function Covers(a: Account, amount: int): (b: bool)
    ensures !b <==> a.balance - amount < 0
    ensures !b <==> a.balance < amount
    ensures b && Solvent(a) && amount >= 0 ==> Solvent(a.(balance := a.balance - amount))
    ensures !b ==> !Solvent(a.(balance := a.balance - amount))
  {
    amount <= a.balance
  }

  /** The outcome of re-checking a transaction against the populated accounts. */
  datatype Verdict = Proceed | Decline(reason: Error) | Unavailable

  /**
   * The checks of `confirmTransaction`, in the source's order: a missing
   * (non-active) sender fails first; a transfer checks the sender's funds,
   * then needs its receiver, then checks the receiver's cap.
   */
  function Check(t: Transaction, sender: Option<Account>, receiver: Option<Account>): (v: Verdict)
    ensures v.Proceed? <==>
            sender.Some? &&
            match t.kind
            case Saving => Fits(sender.value, t.amount)
            case Withdrawal => Covers(sender.value, t.amount)
            case Transfer => Covers(sender.value, t.amount) && receiver.Some? && Fits(receiver.value, t.amount)
    ensures v.Unavailable? <==>
            sender.None? || (t.kind == Transfer && Covers(sender.value, t.amount) && receiver.None?)
    ensures v == Decline(InsufficientFunds) <==>
            sender.Some? && t.kind != Saving && !Covers(sender.value, t.amount)
    ensures v.Decline? ==> sender.Some? && (v.reason == InsufficientFunds || v.reason.CapExceeded?)
    ensures v.Decline? && v.reason.CapExceeded? && t.kind == Saving ==>
            v.reason.maximumAmount == sender.value.product.maximumAmount
    ensures v.Decline? && v.reason.CapExceeded? && t.kind == Transfer ==>
            receiver.Some? && v.reason.maximumAmount == receiver.value.product.maximumAmount
  {
    if sender.None? then Unavailable
    else
      var s := sender.value;
      match t.kind
      case Saving =>
        if Fits(s, t.amount) then Proceed else Decline(CapExceeded(s.product.maximumAmount))
      case Withdrawal =>
        if Covers(s, t.amount) then Proceed else Decline(InsufficientFunds)
      case Transfer =>
        if !Covers(s, t.amount) then Decline(InsufficientFunds)
        else if receiver.None? then Unavailable
        else if Fits(receiver.value, t.amount) then Proceed
        else Decline(CapExceeded(receiver.value.product.maximumAmount))
  }

  // ---------------------------------------------------------------------------
  // Balances
  // ---------------------------------------------------------------------------

  /** The sum of all balances in the ledger. */
  function Total(accounts: seq<Account>): int {
    if accounts == [] then 0 else accounts[0].balance + Total(accounts[1..])
  }

  lemma {:induction false} TotalUpdate(accounts: seq<Account>, k: nat, a: Account)
    requires k < |accounts|
    ensures Total(accounts[k := a]) == Total(accounts) - accounts[k].balance + a.balance
  {
    if k == 0 {
      assert accounts[k := a][1..] == accounts[1..];
    } else {
      TotalUpdate(accounts[1..], k - 1, a);
      assert accounts[k := a][1..] == accounts[1..][k - 1 := a];
    }
  }

  lemma TotalOfTwo(accounts: seq<Account>)
    requires |accounts| == 2
    ensures Total(accounts) == accounts[0].balance + accounts[1].balance
  {
    assert accounts[1..][1..] == [];
    assert Total(accounts[1..]) == accounts[1].balance + Total(accounts[1..][1..]);
  }

  /** Every account within its bounds. */
  predicate AllSolvent(accounts: seq<Account>) {
    forall k :: 0 <= k < |accounts| ==> Solvent(accounts[k])
  }

  /** `Account.findByIdAndUpdate(k, { balance: balance + amount })`: one balance moves, nothing else does. */
  function Credit(accounts: seq<Account>, k: nat, amount: int): (r: seq<Account>)
    requires k < |accounts|
    ensures |r| == |accounts|
    ensures Total(r) == Total(accounts) + amount
    ensures r[k].balance == accounts[k].balance + amount
    ensures forall j :: 0 <= j < |r| ==> r[j] == accounts[j].(balance := r[j].balance)
    ensures forall j :: 0 <= j < |r| && j != k ==> r[j] == accounts[j]
  {
    var r := accounts[k := accounts[k].(balance := accounts[k].balance + amount)];
    TotalUpdate(accounts, k, r[k]);
    r
  }

  /** By how much a completed transaction changes the ledger's total. */
  function NetEffect(t: Transaction): int {
    match t.kind
    case Saving => t.amount
    case Withdrawal => -t.amount
    case Transfer => 0
  }

  /**
   * The balance updates of a settled transaction, corrected: the receiver of a
   * transfer is credited on its own balance (the source writes the sender's
   * balance plus the amount there). Updates are applied one after the other,
   * so a transfer to oneself nets to zero.
   */
  function Post(accounts: seq<Account>, t: Transaction): (r: seq<Account>)
    requires WellFormedTx(t, |accounts|)
    ensures |r| == |accounts|
    ensures Total(r) == Total(accounts) + NetEffect(t)
    ensures forall j :: 0 <= j < |r| ==> r[j] == accounts[j].(balance := r[j].balance)
    ensures forall j :: 0 <= j < |r| && j != t.sender && t.receiver != Some(j) ==> r[j] == accounts[j]
  {
    match t.kind
    case Saving => Credit(accounts, t.sender, t.amount)
    case Withdrawal => Credit(accounts, t.sender, -t.amount)
    case Transfer => Credit(Credit(accounts, t.sender, -t.amount), t.receiver.value, t.amount)
  }

  // ---------------------------------------------------------------------------
  // Settlement
  // ---------------------------------------------------------------------------

  /** What every state of the store satisfies: each transaction is well formed. */
  predicate WellFormed(accounts: seq<Account>, txs: seq<Transaction>) {
    forall k :: 0 <= k < |txs| ==> WellFormedTx(txs[k], |accounts|)
  }

  /** The store after one `confirmTransaction`, and its response. */
  datatype Settlement = Settlement(accounts: seq<Account>, transactions: seq<Transaction>, response: Result<(), Error>)

  /**
   * `confirmTransaction(id)` as one atomic step: find the first transaction
   * with that short id; refuse it unless it is `Pending`; populate its
   * accounts afresh; then either leave everything as it is (an account is no
   * longer active), mark it `Failed` (a rule says no), or post it and mark it
   * `Completed`. Only the status of the one transaction found can change.
   */
  function Settle(accounts: seq<Account>, txs: seq<Transaction>, id: string): (o: Settlement)
    requires WellFormed(accounts, txs)
    ensures |o.accounts| == |accounts| && |o.transactions| == |txs|
    ensures WellFormed(o.accounts, o.transactions)
    ensures forall k :: 0 <= k < |txs| ==> o.transactions[k] == txs[k].(status := o.transactions[k].status)
  {
    match FindTransaction(txs, id)
    case None => Settlement(accounts, txs, Err(NoPendingTransaction(id)))
    case Some(i) =>
      if txs[i].status != Pending then Settlement(accounts, txs, Err(NoPendingTransaction(id)))
      else Conclude(accounts, txs, i)
  }

  /**
   * The decision on the `Pending` transaction at index `i`, against its
   * accounts as populated now: nothing changes when a party is no longer
   * active; a rule that says no marks it `Failed`; otherwise it is posted and
   * marked `Completed`.
   */
  function Conclude(accounts: seq<Account>, txs: seq<Transaction>, i: nat): (o: Settlement)
    requires WellFormed(accounts, txs) && i < |txs| && txs[i].status == Pending
    ensures |o.accounts| == |accounts| && |o.transactions| == |txs|
    ensures WellFormed(o.accounts, o.transactions)
    ensures forall k :: 0 <= k < |txs| && k != i ==> o.transactions[k] == txs[k]
    ensures o.transactions[i] == txs[i].(status := o.transactions[i].status)
    ensures o.response.Ok? <==> o.transactions[i].status == Completed
    ensures o.response.Ok? || o.accounts == accounts
  {
    var t := txs[i];
    match Check(t, Resolve(accounts, t.sender), ResolveReceiver(accounts, t))
    case Unavailable => Settlement(accounts, txs, Err(AccountUnavailable))
    case Decline(e) => Settlement(accounts, txs[i := t.(status := Failed)], Err(e))
    case Proceed => Settlement(Post(accounts, t), txs[i := t.(status := Completed)], Ok(()))
  }

  /** A missing, `Failed` or `Completed` transaction is refused, and nothing changes. */
  lemma SettleRefusesNonPending(accounts: seq<Account>, txs: seq<Transaction>, id: string)
    requires WellFormed(accounts, txs)
    requires FindTransaction(txs, id).None? || Terminal(txs[FindTransaction(txs, id).value].status)
    ensures Settle(accounts, txs, id) == Settlement(accounts, txs, Err(NoPendingTransaction(id)))
  {
  }

  /**
   * The state machine: every status either stays or leaves `Pending` for a
   * terminal status, and the only record that changes is the `Pending` one
   * the lookup found.
   */
  lemma SettleIsStep(accounts: seq<Account>, txs: seq<Transaction>, id: string)
    requires WellFormed(accounts, txs)
    ensures var o := Settle(accounts, txs, id);
            forall k :: 0 <= k < |txs| ==> IsStep(txs[k].status, o.transactions[k].status)
    ensures var o := Settle(accounts, txs, id);
            forall k :: 0 <= k < |txs| && o.transactions[k] != txs[k] ==>
              FindTransaction(txs, id) == Some(k) && txs[k].status == Pending
  {
  }

  /** Changing only statuses does not change which record a short id finds. */
  lemma FindTransactionByIds(a: seq<Transaction>, b: seq<Transaction>, id: string)
    requires |a| == |b| && forall k :: 0 <= k < |a| ==> a[k].id == b[k].id
    ensures FindTransaction(a, id) == FindTransaction(b, id)
  {
  }

  /**
   * Idempotence: once a confirmation has decided (anything but an unavailable
   * account, which leaves the transaction `Pending`), confirming again is
   * refused and changes nothing, so balances move at most once.
   */
  lemma SettleAtMostOnce(accounts: seq<Account>, txs: seq<Transaction>, id: string)
    requires WellFormed(accounts, txs)
    requires Settle(accounts, txs, id).response != Err(AccountUnavailable)
    ensures var o := Settle(accounts, txs, id);
            Settle(o.accounts, o.transactions, id) == Settlement(o.accounts, o.transactions, Err(NoPendingTransaction(id)))
  {
    var o := Settle(accounts, txs, id);
    FindTransactionByIds(txs, o.transactions, id);
  }

  /**
   * Rejected confirmations leave every balance alone; a completed one changes
   * the ledger's total by exactly its net effect (zero for a transfer).
   */
  lemma SettleConservesTotal(accounts: seq<Account>, txs: seq<Transaction>, id: string)
    requires WellFormed(accounts, txs)
    ensures var o := Settle(accounts, txs, id);
            o.response.Err? ==> o.accounts == accounts
    ensures var o := Settle(accounts, txs, id);
            o.response.Ok? ==>
              FindTransaction(txs, id).Some? &&
              Total(o.accounts) == Total(accounts) + NetEffect(txs[FindTransaction(txs, id).value])
  {
  }

  /**
   * Settlement touches only active accounts, never changes an account's
   * status, and changes only the transaction's own parties.
   */
  lemma SettleTouchesOnlyItsParties(accounts: seq<Account>, txs: seq<Transaction>, id: string)
    requires WellFormed(accounts, txs)
    ensures var o := Settle(accounts, txs, id);
            forall k :: 0 <= k < |accounts| ==> o.accounts[k].status == accounts[k].status
    ensures var o := Settle(accounts, txs, id);
            forall k :: 0 <= k < |accounts| && o.accounts[k] != accounts[k] ==>
              IsActive(accounts[k]) && FindTransaction(txs, id).Some? &&
              (k == txs[FindTransaction(txs, id).value].sender || txs[FindTransaction(txs, id).value].receiver == Some(k))
  {
  }

  /** Moving one balance to a value within that account's bounds keeps the ledger solvent. */
  lemma CreditKeepsSolvent(accounts: seq<Account>, k: nat, amount: int)
    requires k < |accounts| && AllSolvent(accounts)
    requires 0 <= accounts[k].balance + amount <= accounts[k].product.maximumAmount
    ensures AllSolvent(Credit(accounts, k, amount))
  {
    var r := Credit(accounts, k, amount);
    forall j | 0 <= j < |r| ensures Solvent(r[j]) {
      if j != k {
        assert r[j] == accounts[j];
      }
    }
  }

  /** No overdraft and no cap breach: settlement keeps every account within its bounds. */
  lemma SettlePreservesSolvency(accounts: seq<Account>, txs: seq<Transaction>, id: string)
    requires WellFormed(accounts, txs) && AllSolvent(accounts)
    ensures AllSolvent(Settle(accounts, txs, id).accounts)
  {
    var o := Settle(accounts, txs, id);
    if o.response.Ok? {
      var i := FindTransaction(txs, id).value;
      var t := txs[i];
      assert WellFormedTx(t, |accounts|);
      var v := Check(t, Resolve(accounts, t.sender), ResolveReceiver(accounts, t));
      assert v.Proceed?;
      assert o.accounts == Post(accounts, t);
      var s := t.sender;
      assert Solvent(accounts[s]);
      match t.kind {
        case Saving =>
          CreditKeepsSolvent(accounts, s, t.amount);
        case Withdrawal =>
          CreditKeepsSolvent(accounts, s, -t.amount);
        case Transfer =>
          var r := t.receiver.value;
          assert Solvent(accounts[r]);
          CreditKeepsSolvent(accounts, s, -t.amount);
          var debited := Credit(accounts, s, -t.amount);
          assert r != s ==> debited[r] == accounts[r];
          assert r == s ==> debited[r].balance + t.amount == accounts[r].balance;
          CreditKeepsSolvent(debited, r, t.amount);
      }
    }
  }

  /** Settling a `Pending` saving whose account is active. */
  lemma SettleSaving(accounts: seq<Account>, txs: seq<Transaction>, id: string, i: nat)
    requires WellFormed(accounts, txs)
    requires FindTransaction(txs, id) == Some(i) && txs[i].status == Pending && txs[i].kind == Saving
    requires IsActive(accounts[txs[i].sender])
    ensures var o := Settle(accounts, txs, id); var t := txs[i]; var a := accounts[t.sender];
            if a.balance + t.amount > a.product.maximumAmount then
              o == Settlement(accounts, txs[i := t.(status := Failed)], Err(CapExceeded(a.product.maximumAmount)))
            else
              o.response == Ok(()) && o.transactions == txs[i := t.(status := Completed)] &&
              o.accounts[t.sender].balance == a.balance + t.amount &&
              o.accounts[t.sender].balance <= a.product.maximumAmount &&
              forall k :: 0 <= k < |accounts| && k != t.sender ==> o.accounts[k] == accounts[k]
  {
  }

  /** Settling a `Pending` withdrawal whose account is active. */
  lemma SettleWithdrawal(accounts: seq<Account>, txs: seq<Transaction>, id: string, i: nat)
    requires WellFormed(accounts, txs)
    requires FindTransaction(txs, id) == Some(i) && txs[i].status == Pending && txs[i].kind == Withdrawal
    requires IsActive(accounts[txs[i].sender])
    ensures var o := Settle(accounts, txs, id); var t := txs[i]; var a := accounts[t.sender];
            if a.balance - t.amount < 0 then
              o == Settlement(accounts, txs[i := t.(status := Failed)], Err(InsufficientFunds))
            else
              o.response == Ok(()) && o.transactions == txs[i := t.(status := Completed)] &&
              o.accounts[t.sender].balance == a.balance - t.amount >= 0 &&
              forall k :: 0 <= k < |accounts| && k != t.sender ==> o.accounts[k] == accounts[k]
  {
  }

  /**
   * Settling a `Pending` transfer between two active accounts: it fails, with
   * no balance moving, when the sender is short or the receiver would pass its
   * cap (reported with the receiver's cap); otherwise the amount moves from
   * one to the other and their sum is preserved.
   */
  lemma SettleTransfer(accounts: seq<Account>, txs: seq<Transaction>, id: string, i: nat)
    requires WellFormed(accounts, txs)
    requires FindTransaction(txs, id) == Some(i) && txs[i].status == Pending && txs[i].kind == Transfer
    requires IsActive(accounts[txs[i].sender]) && IsActive(accounts[txs[i].receiver.value])
    ensures var o := Settle(accounts, txs, id); var t := txs[i];
            var s := accounts[t.sender]; var r := accounts[t.receiver.value];
            if s.balance - t.amount < 0 then
              o == Settlement(accounts, txs[i := t.(status := Failed)], Err(InsufficientFunds))
            else if r.balance + t.amount > r.product.maximumAmount then
              o == Settlement(accounts, txs[i := t.(status := Failed)], Err(CapExceeded(r.product.maximumAmount)))
            else
              o.response == Ok(()) && o.transactions == txs[i := t.(status := Completed)] &&
              (t.sender != t.receiver.value ==>
                 o.accounts[t.sender].balance == s.balance - t.amount &&
                 o.accounts[t.receiver.value].balance == r.balance + t.amount &&
                 o.accounts[t.sender].balance + o.accounts[t.receiver.value].balance == s.balance + r.balance) &&
              (t.sender == t.receiver.value ==> o.accounts == accounts) &&
              forall k :: 0 <= k < |accounts| && k != t.sender && k != t.receiver.value ==> o.accounts[k] == accounts[k]
  {
    var t := txs[i];
    var sa, ra := accounts[t.sender], accounts[t.receiver.value];
    assert Resolve(accounts, t.sender) == Some(sa);
    assert ResolveReceiver(accounts, t) == Some(ra);
    var v := Check(t, Some(sa), Some(ra));
    if sa.balance - t.amount < 0 {
      assert v == Decline(InsufficientFunds);
    } else if ra.balance + t.amount > ra.product.maximumAmount {
      assert v == Decline(CapExceeded(ra.product.maximumAmount));
    } else {
      assert v == Proceed;
      PostTransfer(accounts, t);
    }
  }

  /** The balance effect of posting a transfer. */
  lemma PostTransfer(accounts: seq<Account>, t: Transaction)
    requires WellFormedTx(t, |accounts|) && t.kind == Transfer
    ensures var r := Post(accounts, t); var s, q := t.sender, t.receiver.value;
            (s != q ==> r[s].balance == accounts[s].balance - t.amount &&
                        r[q].balance == accounts[q].balance + t.amount) &&
            (s == q ==> r == accounts)
  {
    var s, q := t.sender, t.receiver.value;
    var debited := Credit(accounts, s, -t.amount);
    assert Post(accounts, t) == Credit(debited, q, t.amount);
    if s == q {
      assert Post(accounts, t)[s] == accounts[s];
      assert Post(accounts, t) == accounts;
    } else {
      assert debited[q] == accounts[q];
    }
  }

  /**
   * A transaction whose sender, or whose transfer receiver, is no longer
   * active is left `Pending` and nothing changes (the source's handler dies on
   * the null account before it writes anything, except at line 275; see
   * SettleTransferAsWritten).
   */
  lemma SettleNeedsActiveParties(accounts: seq<Account>, txs: seq<Transaction>, id: string, i: nat)
    requires WellFormed(accounts, txs)
    requires FindTransaction(txs, id) == Some(i) && txs[i].status == Pending
    requires !IsActive(accounts[txs[i].sender]) ||
             (txs[i].kind == Transfer && Covers(accounts[txs[i].sender], txs[i].amount) &&
              !IsActive(accounts[txs[i].receiver.value]))
    ensures Settle(accounts, txs, id) == Settlement(accounts, txs, Err(AccountUnavailable))
    ensures Settle(accounts, txs, id).transactions[i].status == Pending
  {
  }

  /** Confirmations applied one after another, as the serialised order of concurrent calls. */
  function SettleAll(accounts: seq<Account>, txs: seq<Transaction>, ids: seq<string>): (o: Settlement)
    requires WellFormed(accounts, txs)
    ensures |o.accounts| == |accounts| && WellFormed(o.accounts, o.transactions)
    decreases |ids|
  {
    if ids == [] then Settlement(accounts, txs, Ok(()))
    else
      var first := Settle(accounts, txs, ids[0]);
      SettleAll(first.accounts, first.transactions, ids[1..])
  }

  /**
   * However many confirmations run, in whatever order, no account is ever
   * overdrawn or above its cap: those that do not fit are declined.
   */
  lemma {:induction false} SettleAllPreservesSolvency(accounts: seq<Account>, txs: seq<Transaction>, ids: seq<string>)
    requires WellFormed(accounts, txs) && AllSolvent(accounts)
    ensures AllSolvent(SettleAll(accounts, txs, ids).accounts)
    decreases |ids|
  {
    if ids != [] {
      var first := Settle(accounts, txs, ids[0]);
      SettlePreservesSolvency(accounts, txs, ids[0]);
      SettleAllPreservesSolvency(first.accounts, first.transactions, ids[1..]);
    }
  }

  /** Scenario: balance 100, cap 500; a saving of 50 settles once to 150, and a second confirmation is refused. */
  lemma ScenarioSaveThenConfirmTwice()
    ensures var accounts := [NewAccount("000000000001", 1, Product("savings", 500), 0).(balance := 100)];
            var txs := [Requested("a1b2c3d", Saving, 0, None, 50, 1)];
            var first := Settle(accounts, txs, "a1b2c3d");
            var second := Settle(first.accounts, first.transactions, "a1b2c3d");
            first.response == Ok(()) && first.accounts[0].balance == 150 &&
            second.response == Err(NoPendingTransaction("a1b2c3d")) && second.accounts[0].balance == 150
  {
  }

  /**
   * Scenario: sender 200, receiver 480 with cap 500; a transfer of 30 passes
   * the request check but fails at settlement on the receiver's cap, and the
   * sender keeps 200.
   */
  lemma ScenarioTransferFailsOnReceiverCap()
    ensures var accounts := [NewAccount("000000000001", 1, Product("savings", 1000), 0).(balance := 200),
                             NewAccount("000000000002", 2, Product("junior", 500), 0).(balance := 480)];
            var txs := [Requested("a1b2c3d", Transfer, 0, Some(1), 30, 1)];
            var o := Settle(accounts, txs, "a1b2c3d");
            Covers(accounts[0], 30) &&
            o.response == Err(CapExceeded(500)) && o.transactions[0].status == Failed &&
            o.accounts == accounts
  {
  }

  // ---------------------------------------------------------------------------
  // The transfer branch of confirmTransaction as written (lines 274-304)
  // ---------------------------------------------------------------------------

  /** The store's accounts and the transaction's final status after the source's transfer branch. */
  datatype TransferAsWritten = TransferAsWritten(accounts: seq<Account>, status: Status, response: Result<(), Error>)

  /**
   * As written: the status is set to `Failed` before any check (275-277); a
   * null sender or receiver then throws after that write; the cap error quotes
   * the sender's cap (294); and the receiver's new balance is the sender's
   * balance as populated, plus the amount (302).
   */
  function SettleTransferAsWritten(accounts: seq<Account>, t: Transaction): (o: TransferAsWritten)
    requires WellFormedTx(t, |accounts|) && t.kind == Transfer && t.status == Pending
    ensures |o.accounts| == |accounts|
    ensures o.status != Pending
  {
    var sender := Resolve(accounts, t.sender);
    var receiver := ResolveReceiver(accounts, t);
    if sender.None? then TransferAsWritten(accounts, Failed, Err(AccountUnavailable))
    else if sender.value.balance - t.amount < 0 then TransferAsWritten(accounts, Failed, Err(InsufficientFunds))
    else if receiver.None? then TransferAsWritten(accounts, Failed, Err(AccountUnavailable))
    else if receiver.value.balance + t.amount > receiver.value.product.maximumAmount then
      TransferAsWritten(accounts, Failed, Err(CapExceeded(sender.value.product.maximumAmount)))
    else
      var s := sender.value;
      var debited := accounts[t.sender := s.(balance := s.balance - t.amount)];
      var ref := t.receiver.value;
      var credited := debited[ref := debited[ref].(balance := s.balance + t.amount)];
      TransferAsWritten(credited, Completed, Ok(()))
  }

  /** Line 302: a transfer of 30 from 200 to 0 leaves 170 and 230, creating 200 out of nothing. */
  lemma AsWrittenTransferCreatesMoney()
    ensures var accounts := [NewAccount("000000000001", 1, Product("savings", 1000), 0).(balance := 200),
                             NewAccount("000000000002", 2, Product("savings", 1000), 0)];
            var t := Requested("a1b2c3d", Transfer, 0, Some(1), 30, 1);
            var asWritten := SettleTransferAsWritten(accounts, t);
            var corrected := Settle(accounts, [t], "a1b2c3d");
            asWritten.accounts[1].balance == 230 && Total(asWritten.accounts) == 400 != Total(accounts) &&
            corrected.accounts[1].balance == 30 && Total(corrected.accounts) == Total(accounts)
  {
    var accounts := [NewAccount("000000000001", 1, Product("savings", 1000), 0).(balance := 200),
                     NewAccount("000000000002", 2, Product("savings", 1000), 0)];
    var t := Requested("a1b2c3d", Transfer, 0, Some(1), 30, 1);
    TotalOfTwo(accounts);
    TotalOfTwo(SettleTransferAsWritten(accounts, t).accounts);
    TotalOfTwo(Settle(accounts, [t], "a1b2c3d").accounts);
  }

  /** Line 294: the receiver's cap of 500 is exceeded, and the message quotes the sender's 1000. */
  lemma AsWrittenCapMessageQuotesSender()
    ensures var accounts := [NewAccount("000000000001", 1, Product("savings", 1000), 0).(balance := 200),
                             NewAccount("000000000002", 2, Product("junior", 500), 0).(balance := 480)];
            var t := Requested("a1b2c3d", Transfer, 0, Some(1), 30, 1);
            SettleTransferAsWritten(accounts, t).response == Err(CapExceeded(1000)) &&
            Settle(accounts, [t], "a1b2c3d").response == Err(CapExceeded(500))
  {
  }

  /**
   * Lines 275-277: when the receiver has been deactivated since the request,
   * the source has already marked the transfer `Failed` before it dies on the
   * null receiver; the corrected settlement leaves it `Pending`.
   */
  lemma AsWrittenUnavailableReceiverFailsTransfer()
    ensures var accounts := [NewAccount("000000000001", 1, Product("savings", 1000), 0).(balance := 200),
                             Deactivate(NewAccount("000000000002", 2, Product("savings", 1000), 0), 2, 0)];
            var t := Requested("a1b2c3d", Transfer, 0, Some(1), 30, 1);
            SettleTransferAsWritten(accounts, t).status == Failed &&
            Settle(accounts, [t], "a1b2c3d") == Settlement(accounts, [t], Err(AccountUnavailable))
  {
  }

  // ---------------------------------------------------------------------------
  // The store
  // ---------------------------------------------------------------------------

  /**
   * The two collections the handlers read and update. An index is a record's
   * internal id; both collections are in natural (insertion) order.
   */
  class Bank {
    var accounts: seq<Account>
    var transactions: seq<Transaction>

    ghost predicate Valid()
      reads this
    {
      WellFormed(accounts, transactions)
    }

    constructor ()
      ensures Valid() && accounts == [] && transactions == []
    {
      accounts := [];
      transactions := [];
    }

    /** `Account.create` with the schema defaults (balance 0, active); the number and the time are supplied. */
    method Open(accountNumber: string, owner: UserId, product: Product, now: int) returns (ref: nat)
      requires Valid()
      modifies this
      ensures Valid() && transactions == old(transactions)
      ensures ref == |old(accounts)| && accounts == old(accounts) + [NewAccount(accountNumber, owner, product, now)]
      ensures old(AllSolvent(accounts)) && product.maximumAmount >= 0 ==> AllSolvent(accounts)
    {
      ref := |accounts|;
      accounts := accounts + [NewAccount(accountNumber, owner, product, now)];
    }

    /**
     * `save` on the fetched account: refused with the cap when the saving
     * would take the balance above it; otherwise one `Pending` saving is
     * appended. No balance changes.
     */
    method Save(account: nat, actor: UserId, amount: int, id: string) returns (r: Result<Transaction, Error>)
      requires Valid() && account < |accounts| && amount > 0
      modifies this
      ensures Valid() && accounts == old(accounts)
      ensures var a := old(accounts[account]);
              if a.balance + amount > a.product.maximumAmount then
                r == Err(CapExceeded(a.product.maximumAmount)) && transactions == old(transactions)
              else
                r == Ok(Requested(id, Saving, account, None, amount, actor)) &&
                transactions == old(transactions) + [r.value]
    {
      var a := accounts[account];
      if a.balance + amount > a.product.maximumAmount {
        return Err(CapExceeded(a.product.maximumAmount));
      }
      var t := Requested(id, Saving, account, None, amount, actor);
      transactions := transactions + [t];
      r := Ok(t);
    }

    /**
     * `withdraw` on the fetched account: refused with "Insufficient funds"
     * exactly when the balance would go negative; otherwise one `Pending`
     * withdrawal is appended. No balance changes.
     */
    method Withdraw(account: nat, actor: UserId, amount: int, id: string) returns (r: Result<Transaction, Error>)
      requires Valid() && account < |accounts| && amount > 0
      modifies this
      ensures Valid() && accounts == old(accounts)
      ensures var a := old(accounts[account]);
              if a.balance - amount < 0 then
                r == Err(InsufficientFunds) && transactions == old(transactions)
              else
                r == Ok(Requested(id, Withdrawal, account, None, amount, actor)) &&
                transactions == old(transactions) + [r.value]
    {
      var a := accounts[account];
      if a.balance - amount < 0 {
        return Err(InsufficientFunds);
      }
      var t := Requested(id, Withdrawal, account, None, amount, actor);
      transactions := transactions + [t];
      r := Ok(t);
    }

    /**
     * `transfer` from the fetched account: refused when the balance is below
     * the amount, then when no active account has the receiver's number;
     * otherwise one `Pending` transfer naming both is appended. The receiver's
     * cap is not looked at here. No balance changes.
     */
    method Transfer(account: nat, actor: UserId, receiversAccountNumber: string, amount: int, id: string)
      returns (r: Result<Transaction, Error>)
      requires Valid() && account < |accounts| && amount > 0
      modifies this
      ensures Valid() && accounts == old(accounts)
      ensures var a := old(accounts[account]);
              var receiver := FindActive(old(accounts), receiversAccountNumber);
              if a.balance < amount then
                r == Err(InsufficientFunds) && transactions == old(transactions)
              else if receiver.None? then
                r == Err(ReceiverNotFound(receiversAccountNumber)) && transactions == old(transactions)
              else
                r == Ok(Requested(id, TxType.Transfer, account, receiver, amount, actor)) &&
                transactions == old(transactions) + [r.value]
    {
      var a := accounts[account];
      if a.balance < amount {
        return Err(InsufficientFunds);
      }
      var receiver := FindActive(accounts, receiversAccountNumber);
      if receiver.None? {
        return Err(ReceiverNotFound(receiversAccountNumber));
      }
      var t := Requested(id, TxType.Transfer, account, receiver, amount, actor);
      transactions := transactions + [t];
      r := Ok(t);
    }

    /**
     * `confirmTransaction(id)`, performed atomically. The accounts are
     * populated when the transaction is found, so the checks see the current
     * balances, not those of the request.
     */
    method Confirm(id: string) returns (r: Result<(), Error>)
      requires Valid()
      modifies this
      ensures Valid()
      ensures var o := Settle(old(accounts), old(transactions), id);
              accounts == o.accounts && transactions == o.transactions && r == o.response
      ensures old(AllSolvent(accounts)) ==> AllSolvent(accounts)
    {
      ghost var solvent := AllSolvent(accounts);
      if solvent {
        SettlePreservesSolvency(accounts, transactions, id);
      }

      var found := FindTransaction(transactions, id);
      if found.None? {
        return Err(NoPendingTransaction(id));
      }
      var i := found.value;
      var t := transactions[i];
      if t.status == Failed {
        return Err(NoPendingTransaction(id));
      }
      if t.status == Completed {
        return Err(NoPendingTransaction(id));
      }

      r := Finish(i);
    }

    /**
     * The type-specific part of `confirmTransaction` for the `Pending`
     * transaction at index `i`: re-check its rule against the populated
     * accounts, then mark it `Failed` or post it and mark it `Completed`.
     */
    method Finish(i: nat) returns (r: Result<(), Error>)
      requires Valid() && i < |transactions| && transactions[i].status == Pending
      modifies this
      ensures Valid()
      ensures var o := Conclude(old(accounts), old(transactions), i);
              accounts == o.accounts && transactions == o.transactions && r == o.response
    {
      ghost var accounts0 := accounts;
      var t := transactions[i];
      var sender := Resolve(accounts, t.sender);
      var receiver := ResolveReceiver(accounts, t);
      ghost var v := Check(t, sender, receiver);
      assert WellFormedTx(t, |accounts|);
      if sender.None? {
        assert v == Unavailable;
        return Err(AccountUnavailable);
      }
      var s := sender.value;
      match t.kind {
        case Saving =>
          if s.balance + t.amount > s.product.maximumAmount {
            assert v == Decline(CapExceeded(s.product.maximumAmount));
            transactions := transactions[i := t.(status := Failed)];
            return Err(CapExceeded(s.product.maximumAmount));
          }
          assert v == Proceed;
          accounts := accounts[t.sender := s.(balance := s.balance + t.amount)];
          assert accounts == Post(accounts0, t);
        case Withdrawal =>
          if s.balance - t.amount < 0 {
            assert v == Decline(InsufficientFunds);
            transactions := transactions[i := t.(status := Failed)];
            return Err(InsufficientFunds);
          }
          assert v == Proceed;
          accounts := accounts[t.sender := s.(balance := s.balance - t.amount)];
          assert accounts == Post(accounts0, t);
        case Transfer =>
          if s.balance - t.amount < 0 {
            assert v == Decline(InsufficientFunds);
            transactions := transactions[i := t.(status := Failed)];
            return Err(InsufficientFunds);
          }
          if receiver.None? {
            assert v == Unavailable;
            return Err(AccountUnavailable);
          }
          var rcv := receiver.value;
          if rcv.balance + t.amount > rcv.product.maximumAmount {
            assert v == Decline(CapExceeded(rcv.product.maximumAmount));
            transactions := transactions[i := t.(status := Failed)];
            return Err(CapExceeded(rcv.product.maximumAmount));
          }
          assert v == Proceed;
          accounts := accounts[t.sender := s.(balance := s.balance - t.amount)];
          assert accounts == Credit(accounts0, t.sender, -t.amount);
          // the receiver is credited on its own balance as it now stands
          var current := accounts[t.receiver.value];
          accounts := accounts[t.receiver.value := current.(balance := current.balance + t.amount)];
          assert accounts == Post(accounts0, t);
      }
      transactions := transactions[i := t.(status := Completed)];
      r := Ok(());
    }

    /**
     * `userDeactivateAccount`, as evidently intended: only the owner may
     * deactivate; the update sets the status and the audit fields and nothing
     * else. An account that is no longer active is not found by the handler's
     * `findById`, whose null result the source then dereferences.
     */
    method UserDeactivateAccount(account: nat, p: Principal, now: int) returns (r: Result<(), Error>)
      requires Valid() && account < |accounts|
      modifies this
      ensures Valid() && transactions == old(transactions)
      ensures var a := old(accounts[account]);
              if !IsActive(a) then
                r == Err(AccountUnavailable) && accounts == old(accounts)
              else if !IsUsersAccount(a, p.id) then
                r == Err(Forbidden) && accounts == old(accounts)
              else
                r == Ok(()) && accounts == old(accounts)[account := Deactivate(a, p.id, now)]
      ensures old(AllSolvent(accounts)) ==> AllSolvent(accounts)
    {
      var found := Resolve(accounts, account);
      if found.None? {
        return Err(AccountUnavailable);
      }
      if !IsUsersAccount(found.value, p.id) {
        return Err(Forbidden);
      }
      accounts := accounts[account := Deactivate(found.value, p.id, now)];
      r := Ok(());
    }

    /**
     * `deactivateAccount` (the admin route, which only fetchAccount guards):
     * the update's filter matches only an active account; the response is
     * success either way.
     */
    method DeactivateAccount(account: nat, p: Principal, now: int) returns (r: Result<(), Error>)
      requires Valid() && account < |accounts|
      modifies this
      ensures Valid() && transactions == old(transactions) && r == Ok(())
      ensures var a := old(accounts[account]);
              accounts == if IsActive(a) then old(accounts)[account := Deactivate(a, p.id, now)] else old(accounts)
      ensures old(AllSolvent(accounts)) ==> AllSolvent(accounts)
    {
      if IsActive(accounts[account]) {
        accounts := accounts[account := Deactivate(accounts[account], p.id, now)];
      }
      r := Ok(());
    }
  }
}
