# Bank ledger: two-phase money movement

A Dafny model of the money-movement engine of a small banking back end
(`controllers/accountController.js` with the account and transaction models).
Accounts hold a balance in minor units under a product's `maximumAmount` cap.
Money moves in two phases:

- **Request.** `save`, `withdraw` and `transfer` check the proposed movement
  against the fetched account. On success they append a `Pending`
  transaction. No balance changes in this phase.
- **Settlement.** `confirmTransaction` re-loads the transaction's accounts and
  re-checks the rule for its type. It then marks the transaction `Failed`, or
  applies it and marks it `Completed`. A transaction that is not `Pending` is
  refused.

Around these sit the access guard `fetchAccount`, the two deactivation
handlers, the "active accounts only" filter that every account query carries,
and the default identifiers of both schemas.

Files, one module each:

- `common.dfy` (`Common`): `Option`, `Result`, the principal `{id, role}`.
- `identifiers.dfy` (`Identifiers`): `uuid().replace("-", "").slice(0, n)`,
  which gives the 12-character account number and the 7-character short
  transaction id.
- `account_model.dfy` (`AccountModel`): the account record and its defaults,
  the active filter, `findOne` by number, `isUsersAccount`, and the
  deactivation update.
- `transaction_model.dfy` (`TransactionModel`): the transaction record, its
  enums, the `Pending` default, `findOne` by short id, and populate-at-read.
- `account_controller.dfy` (`AccountController`), which has three parts:
  - the rules, as pure functions;
  - the settlement specification `Settle`, with the lemmas about it;
  - the store class `Bank`, whose methods perform the handlers step by step.
    Each method is proved to leave exactly the state its contract states.
    `Bank.Confirm` is proved equal to `Settle`.

Modelling choices:

- **Collections.** Each store collection is a sequence in natural (insertion)
  order, and a record's index is its internal id. `findOne` is "the first
  match".
- **Populate.** Populating a reference runs the account schema's find hooks, so
  a referenced account that is not active comes back null.
- **Null accounts at settlement.** In the source, settling against a null
  account dies on `null.balance` with a server error. The model reports this
  as `AccountUnavailable`. In the corrected model the store is left untouched
  in that case.
- **Amounts.** The source never checks that `amount > 0`. The request
  methods therefore require it, and `Bank.Valid` records it for every stored
  transaction.
- **Identifiers and times.** Ids and timestamps are supplied as parameters.

Error cases and roles:

- Settling a transaction that is not `Pending` answers 404 "No pending
  transaction" (`NoPendingTransaction`), whether the id is unknown or the
  transaction is already `Completed` or `Failed`.
- No handler checks the sign of an amount; see **Amounts** above.
- The access guard admits role `admin` only, not `super-admin`.

## Model

| member | source | states |
|---|---|---|
| `Identifiers.Slice` | models/accountModel.js:8 | `slice(0, n)` keeps a prefix of the string, of length n, or the whole string when it is shorter |
| `Identifiers.DerivedId` | models/accountModel.js:8 | over a string without a dash the default is its prefix; with a dash, it has one character fewer than the string, up to the width; over a canonical uuid its length is the width, capped at 35 |
| `Identifiers.SchemaDefaultsAsWritten` | models/transactionModel.js:7 | as written, every record receives the same default id, however many records there are |
| `Identifiers.PerRecordDefaults` | models/transactionModel.js:7 | with a fresh uuid per record, each record's id is derived from its own uuid and, for a canonical uuid, has exactly the schema's width |
| `Identifiers.DerivedIdLayout` | models/accountModel.js:8 | for a canonical uuid and a width of at most 12, the derived id is the uuid without its first dash, cut to exactly that many hex digits |
| `Identifiers.AccountNumberLayout` | models/accountModel.js:6-9 | the default account number is exactly 12 characters: the uuid's first 8 hex digits and the next 4 |
| `Identifiers.ShortIdLayout` | models/transactionModel.js:5-8 | the default short id is exactly 7 characters: the uuid's first 7 hex digits |
| `Identifiers.ReplaceFirst` | models/accountModel.js:8 | `replace("-", "")` removes exactly one character when a dash is present and none otherwise |
| `Identifiers.ReplaceFirstAt` | models/accountModel.js:8 | when the first dash is at position i, `replace` yields the string with position i cut out |
| `Identifiers.AsWrittenDefaultsCollide` | models/accountModel.js:8 | as written, the default is computed once per schema, so two records get the same id even when their own uuids differ |
| `Identifiers.PerRecordAccountNumbersDistinct` | models/accountModel.js:8 | with a fresh uuid per record, two records whose uuids differ in a character the number keeps get different numbers |
| `AccountModel.NewAccount` | models/accountModel.js:10-25 | a new account has balance 0 and status active, and it is within bounds exactly when its product's cap is non-negative |
| `AccountModel.FindActive` | models/accountModel.js:44-47 | an account lookup by number returns the first account with that number whose status is active, and returns none if no active account has it |
| `AccountModel.InactiveIsNotFound` | models/accountModel.js:44-47 | a suspended or deactivated account is never returned by a lookup |
| `AccountModel.IsUsersAccount` | models/accountModel.js:49-51 | the intended owner test holds exactly when the Promise of the method as written would resolve to true |
| `AccountModel.IsUsersAccountAsWritten` | models/accountModel.js:49-51 | because the method is `async`, the owner test yields a Promise, never a boolean |
| `AccountModel.AsWrittenOwnerTestAdmitsStranger` | models/accountModel.js:49-51 | the owner test as written is truthy for a user who does not own the account |
| `AccountModel.Deactivate` | controllers/accountController.js:41-45 | deactivation sets the status to deactivated and records who changed it and when; the balance, product, owner and number are kept |
| `AccountModel.DeactivateAsWritten` | controllers/accountController.js:59-63 | the update as written sets the status and lastModifiedBy only: lastModifiedOn keeps its old value, and the balance, product, owner, number and creation time are kept |
| `AccountModel.AsWrittenDeactivateKeepsStaleTimestamp` | controllers/accountController.js:44 | the misspelt `lastMofiedAt` key leaves lastModifiedOn at its old value |
| `TransactionModel.Requested` | models/transactionModel.js:38-42 | a recorded request is `Pending`, with the given type, parties and amount, created and last modified by the actor |
| `TransactionModel.FindTransaction` | controllers/accountController.js:218 | a lookup by short id returns the first transaction with that id, and returns none if no transaction has it |
| `TransactionModel.Resolve` | models/transactionModel.js:45-49 | populating a reference at read time yields the account's current record exactly when that account is active |
| `TransactionModel.ResolveReceiver` | models/transactionModel.js:17-20 | the optional receiver resolves only when it is present and active, to its current record |
| `AccountController.CanAccess` | controllers/accountController.js:85 | the owner and any admin are admitted; a customer or a super-admin is admitted only to an account they own |
| `AccountController.Fetch` | controllers/accountController.js:74-94 | not found exactly when no active account has the number; forbidden exactly when the first such account is neither owned by the principal nor is the principal an admin; otherwise that account, unchanged, whenever the principal may access it |
| `AccountController.FetchAsWritten` | controllers/accountController.js:85-90 | the guard as written succeeds exactly when an active account with the number exists, handing on the first such account; its only error is not-found |
| `AccountController.AsWrittenFetchAdmitsStrangers` | controllers/accountController.js:85 | every principal the intended guard forbids is admitted by the guard as written |
| `AccountController.AsWrittenFetchStrangerExample` | controllers/accountController.js:85 | customer 2 is forbidden customer 1's account by the corrected guard and admitted by the guard as written |
| `AccountController.Fits` | controllers/accountController.js:120 | the cap rule (also at lines 247 and 286) fails exactly when balance + amount exceeds the cap; a passing non-negative credit keeps an in-bounds account in bounds, and a failing one would not |
| `AccountController.Covers` | controllers/accountController.js:148 | the funds rule fails exactly when balance - amount < 0, and equally when balance < amount (the form at line 179; the first form recurs at lines 262 and 278); a passing non-negative debit keeps an in-bounds account in bounds, and a failing one would overdraw it |
| `AccountController.Check` | controllers/accountController.js:245-296 | the settlement re-check passes exactly when the rule for the type holds: a saving fits under the cap, a withdrawal is covered, a transfer is covered and fits the receiver's cap. An insufficient-funds verdict comes exactly from an uncovered withdrawal or transfer; a cap verdict quotes the capped account's cap (the receiver's for a transfer); a missing party yields unavailable |
| `AccountController.Credit` | controllers/accountController.js:258-260 | one balance moves by the amount, the ledger total moves by the same amount, and no other field or account changes |
| `AccountController.TotalUpdate` | controllers/accountController.js:258-260 | replacing one account changes the ledger total by the difference of the two balances |
| `AccountController.Post` | controllers/accountController.js:258-303 | posting changes only balances, and only those of the transaction's parties; the total changes by +amount for a saving, by -amount for a withdrawal, and not at all for a transfer |
| `AccountController.Settle` | controllers/accountController.js:217-316 | settlement keeps the store well formed and changes no transaction field other than a status |
| `AccountController.Conclude` | controllers/accountController.js:242-308 | deciding a Pending transaction changes only that record, and only in its status; the response is success exactly when the status becomes Completed, and any other outcome leaves every balance as it was |
| `AccountController.SettleRefusesNonPending` | controllers/accountController.js:219-239 | a missing, Failed or Completed transaction is refused with "no pending transaction", and nothing changes |
| `AccountController.SettleIsStep` | controllers/accountController.js:217-308 | every status either stays the same or goes from Pending to a terminal status, and only the Pending record that was found can change |
| `AccountController.FindTransactionByIds` | controllers/accountController.js:218 | changing only statuses does not change which record a short id finds |
| `AccountController.SettleAtMostOnce` | controllers/accountController.js:227-239 | once a confirmation has decided, confirming the same id again is refused and changes nothing, so balances move at most once |
| `AccountController.SettleConservesTotal` | controllers/accountController.js:298-303 | a rejected confirmation changes no balance; a completed one changes the ledger total by exactly the transaction's net effect |
| `AccountController.SettleTouchesOnlyItsParties` | controllers/accountController.js:258-303 | settlement never changes an account's status and changes only active accounts that are parties to the transaction |
| `AccountController.CreditKeepsSolvent` | controllers/accountController.js:258-260 | moving one balance to a value within that account's bounds keeps every account within its bounds |
| `AccountController.SettlePreservesSolvency` | controllers/accountController.js:245-303 | if every account was within 0 and its cap before settlement, every account still is afterwards |
| `AccountController.SettleSaving` | controllers/accountController.js:245-260 | a Pending saving fails with the cap and no balance change exactly when balance + amount exceeds the cap; otherwise the balance becomes balance + amount, still within the cap, and the transaction is Completed |
| `AccountController.SettleWithdrawal` | controllers/accountController.js:261-273 | a Pending withdrawal fails with insufficient funds and no balance change exactly when balance - amount < 0; otherwise the balance becomes balance - amount, still at least 0, and the transaction is Completed |
| `AccountController.SettleTransfer` | controllers/accountController.js:274-308 | a Pending transfer fails with no balance change when the sender is short, or when the receiver would exceed its cap (the error quotes the receiver's cap); otherwise the sender loses the amount, the receiver gains it, their sum is kept, and the transaction is Completed |
| `AccountController.SettleNeedsActiveParties` | models/transactionModel.js:45-49 | when the sender, or a funded transfer's receiver, is no longer active, the transaction stays Pending and nothing changes |
| `AccountController.SettleAll` | controllers/accountController.js:217-316 | confirmations applied one after another keep the store well formed |
| `AccountController.SettleAllPreservesSolvency` | controllers/accountController.js:217-316 | however many confirmations run, in any order, no account is ever overdrawn or above its cap |
| `AccountController.ScenarioSaveThenConfirmTwice` | controllers/accountController.js:245-260 | balance 100, cap 500: a saving of 50 settles once to 150, and a second confirmation is refused with the balance still 150 |
| `AccountController.ScenarioTransferFailsOnReceiverCap` | controllers/accountController.js:285-296 | a transfer of 30 from 200 to a receiver at 480 with cap 500 passes the request check, then fails at settlement with the receiver's cap, and no balance changes |
| `AccountController.SettleTransferAsWritten` | controllers/accountController.js:274-304 | the transfer branch as written always leaves the transaction out of Pending |
| `AccountController.AsWrittenTransferCreatesMoney` | controllers/accountController.js:302 | as written, a transfer of 30 from 200 to 0 leaves 170 and 230, so the total grows by 200; the corrected settlement leaves 170 and 30 |
| `AccountController.AsWrittenCapMessageQuotesSender` | controllers/accountController.js:294 | as written, the cap error for a receiver with cap 500 quotes the sender's cap of 1000 |
| `AccountController.AsWrittenUnavailableReceiverFailsTransfer` | controllers/accountController.js:275-277 | as written, a transfer whose receiver was deactivated ends Failed; the corrected settlement leaves it Pending and changes nothing |
| `AccountController.Bank.Open` | models/accountModel.js:5-42 | appends one account with the schema defaults and keeps the ledger solvent when the product cap is non-negative |
| `AccountController.Bank.Save` | controllers/accountController.js:117-134 | refused with the cap, and nothing changes, exactly when balance + amount exceeds the cap; otherwise exactly one Pending saving is appended; no balance changes either way |
| `AccountController.Bank.Withdraw` | controllers/accountController.js:145-162 | refused with insufficient funds, and nothing changes, exactly when balance - amount < 0; otherwise exactly one Pending withdrawal is appended; no balance changes |
| `AccountController.Bank.Transfer` | controllers/accountController.js:174-206 | refused when balance < amount, then refused with not-found when no active account has the receiver's number; otherwise exactly one Pending transfer naming both accounts is appended. The receiver's cap is not checked, and no balance changes |
| `AccountController.Bank.Confirm` | controllers/accountController.js:217-316 | the new accounts, the new transactions and the response are exactly those of `Settle` on the old state, and solvency is preserved |
| `AccountController.Bank.Finish` | controllers/accountController.js:242-308 | the type-specific re-check and update of a Pending transaction leave exactly the accounts, transactions and response of `Conclude` |
| `AccountController.Bank.UserDeactivateAccount` | controllers/accountController.js:31-53 | an owner deactivates their own active account, changing only its status and audit fields; anyone else is forbidden and nothing changes |
| `AccountController.Bank.DeactivateAccount` | controllers/accountController.js:56-71 | an active account is deactivated, changing only its status and audit fields; an inactive one is left alone; the response is success either way |

## Left out

- Account creation (`createAccount`): the product lookup goes through the `slugify` library and the expiry date through `moment` month arithmetic. The product is given on each account, and `Bank.Open` takes the new account's number and time as parameters.
- `getAccount` and `getAllTransaction`: response formatting, and a handler factory that is not part of this model.
- Authentication, password reset, uploads, account linking, email, routing, startup and product CRUD: these are foreign calls or wiring. The principal `{id, role}` is an input.
- The admin-only restriction on the confirmation route (routes/transactionsRoutes.js:13-17) belongs to routing. `Bank.Confirm` takes no principal.
- The `PATCH /:id` route reaches `userDeactivateAccount` without `fetchAccount`. There `req.account` is undefined and the handler crashes; this is not modelled.
- Concurrency: every handler is one atomic, sequential step. In the source the populate and the updates of `confirmTransaction` are separate awaits, so two confirmations can interleave; such interleavings are not modelled. `SettleAll` covers confirmations run one after another.
- Floating point: balances and amounts are unbounded integers in minor units, not JavaScript numbers. A string amount from the request body would be concatenated by `+`; request parsing is not modelled.
- Uuid generation and all audit timestamps are supplied values. Transaction timestamps and the account's `expiration` are not modelled.
- `Bank.Confirm`: the response carries no transaction. The source answers with the document as it was before its last update, because `findByIdAndUpdate` returns the original by default.
- `AccountModel.IsUsersAccount`: tests owner id equality. The source's `===` compares the populated owner document with the request's user object, which compares object identity.
- `Bank.Transfer` lets an account transfer to itself, as the source does. The corrected credit applies the two updates in turn, so a self-transfer nets to zero. The source writes both balances from the populated snapshot.
- The `suspended` status exists in the enum, but no handler sets it.

## Findings

| source | as written | input that shows it | evidently intended | confidence | as-written member | corrected member |
|---|---|---|---|---|---|---|
| controllers/accountController.js:302 | the receiver's new balance is the sender's populated balance plus the amount | sender 200, receiver 0, transfer 30: balances become 170 and 230 | the receiver's own balance plus the amount | high, not executed | `AccountController.AsWrittenTransferCreatesMoney` | `AccountController.SettleTransfer` |
| controllers/accountController.js:294 | the receiver-cap error quotes the sender's cap | sender cap 1000, receiver 480 with cap 500, transfer 30: the message says 1000 | quote the receiver's cap | high, not executed | `AccountController.AsWrittenCapMessageQuotesSender` | `AccountController.Check` |
| controllers/accountController.js:275 | the transfer is marked Failed before any check; when the receiver has become inactive, the handler then dies on the null receiver | receiver deactivated between request and confirmation: the transaction ends Failed with a server error | write the status only once the outcome is decided, as the saving and withdrawal branches do | medium, not executed | `AccountController.AsWrittenUnavailableReceiverFailsTransfer` | `AccountController.SettleNeedsActiveParties` |
| controllers/accountController.js:85 | the `async` `isUsersAccount(res.user)` yields a Promise, which is truthy, so nobody is forbidden | customer 2 fetches customer 1's account and is admitted | owner or admin only, with `req.user` | high, not executed | `AccountController.AsWrittenFetchAdmitsStrangers` | `AccountController.Fetch` |
| controllers/accountController.js:34 | the same truthy Promise makes the 403 branch of `userDeactivateAccount` unreachable | customer 2 deactivates customer 1's account | only the owner may deactivate | high, not executed | `AccountModel.AsWrittenOwnerTestAdmitsStranger` | `AccountController.Bank.UserDeactivateAccount` |
| models/accountModel.js:8 | the `uuid()` default is evaluated once, when the schema is defined | two accounts created in one process get the same account number | a fresh uuid per record | high, not executed | `Identifiers.AsWrittenDefaultsCollide` | `Identifiers.PerRecordAccountNumbersDistinct` |
| controllers/accountController.js:44 | the timestamp goes under the misspelt key `lastMofiedAt`, which the schema drops | an account created at time 0 and deactivated at time 5 still shows time 0 | update `lastModifiedOn` | high, not executed | `AccountModel.AsWrittenDeactivateKeepsStaleTimestamp` | `AccountModel.Deactivate` |
