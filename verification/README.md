# Verified model of the EVM contract

The repository is an Antelope contract that hosts an Ethereum virtual machine. It keeps the EVM
state in native tables, moves the native token in and out of the EVM, charges and distributes gas,
passes bridge messages to registered receivers and schedules configuration changes on EVM block
boundaries. This project models that logic in Dafny and proves what it guarantees over every run.

Every operation exists once as a function on values, where `None` is a failed `eosio::check` (the
host then undoes the whole transaction). Where the contract works in place, a class with the same
fields and loops is proved to compute that function: `StateObject.State`, `Contract.EvmContract`,
`Config.ConfigWrapper`, `Promoter.ValuePromoter`, `BridgeMessage.DataStream` and
`DustBalance.BalanceWithDust`. The theorems are about the functions.

| file | content |
|---|---|
| `Common.dfy` | optional values, sums over maps |
| `DustBalance.dfy` | the split (units, dust) balance row, in 64-bit arithmetic |
| `StateTables.dfy`, `StateInvariants.dfy`, `StateRefinement.dfy`, `StateRuns.dfy`, `StateGc.dfy`, `StateObject.dfy` | the EVM state tables, their invariants, the map they stand for, whole runs and caches, collection, the `state` object |
| `BridgeMessage.dfy` | the calldata decoder and the encoder it undoes |
| `LedgerTypes.dfy`, `Egress.dfy`, `EgressTheorems.dfy`, `Actions.dfy` | the token ledger, the egress phase of a transaction, the money-moving actions |
| `Delivery.dfy`, `Transactions.dfy` | bridge messages and whole transactions in closed form: exactly when they go through and what every row ends up with |
| `Solvency.dfy`, `Settlement.dfy`, `Outcomes.dfy`, `Nonces.dfy`, `Contract.dfy` | conservation over all runs, who pays what, when each action goes through, nonces, the contract object and its host |
| `Promoter.dfy`, `PriceQueue.dfy`, `Config.dfy` | block mapping and value promotion, the price queues, versions and fees |

## Main results

- The state tables refine a plain map from address to nonce, balance, code and storage, over every
  run from a fresh deployment (`StateRuns.FreshRunRefines`); reference counts are exact, ids never
  come back, a re-created account starts empty while its old storage still waits for collection.
- `gc(max)` deletes exactly min(max, W) rows and reports completion exactly when W <= max
  (`StateGc.GcRows`, `StateGc.GcReport`, `StateGc.GcFinishes`).
- The tokens held equal the open balances plus the EVM total to the wei, after every sequence of
  actions, aborted ones included (`Solvency.AlwaysSolvent`).
- The egress phase does not depend on the order of the reserved accounts, pays every non-open
  account exactly what it received, and has an exact success condition
  (`EgressTheorems.EgressPhaseOrderIndependent`, `EgressTheorems.EgressPaysExactly`,
  `EgressTheorems.EgressPhaseSucceeds`).
- For a solvent contract and an EVM run that conserves balances, a transaction goes through if and only
  if a written-out condition on the ledger before it holds, and leaves a written-out ledger
  (`Transactions.TransactionMeaning`); from it follow when `call`, `callotherpay` and bridging in go
  through (`Outcomes.CallSucceeds`, `Outcomes.BridgeInSucceeds`) and what a miner is paid
  (`Outcomes.MinerIsPaid`).
- An encoded bridge message moves its value to the account it names, exactly under the source's checks
  (`Delivery.EncodedMessageMoves`, and `Delivery.MessagesMeaning` for any messages).
- `callotherpay` charges the payer the gas used and the sender the value
  (`Settlement.CallOtherPaySettles`); a bridge-in keeps exactly the fee (`Settlement.BridgeInIsExact`);
  a withdrawal the owner's row covers is never refused and goes to the named receiver
  (`Solvency.WithdrawMeaning`).
- Over every run of the configuration, a transaction runs the last version set in an earlier block
  and pays the price announced for its block, however lazily the queues are processed
  (`Config.PricesFromInit`, on `PriceQueue.Timeline` and `Promoter.RunRepresents`): a price set in second
  s counts from second s + 181 on (`Config.ScalarTakesEffect`, `Config.PairTakesEffect`).

Six expectations do not hold of the code as written. Each has its exact condition, which a caller
can check beforehand, and a concrete case:

- `StateInvariants.RedeployLeaksReference`, `StateInvariants.RedeployWitness`: setting code on an
  account that has code leaves a reference count too high.
- `StateRuns.StorageReadAfterErasure`, `StateRuns.CodeReadAfterErasure`, `StateRuns.StaleReadWitness`:
  after an account is deleted or re-created through a `state` object, that object still answers from
  its caches: with the old slots if it had cached the id, with the old code if nobody else holds it.
- `BridgeMessage.DecodeUndoesEncode`, `BridgeMessage.LongAccountWitness`,
  `BridgeMessage.WrappedPayloadWitness`: accounts that do not fit in one word are rejected, and a
  payload of 2^32 - 31 bytes or more decodes to zeros because the padded length wraps.
- `Settlement.CallOtherPayBySender`, `Settlement.NoRefundWitness`: paying for one's own call aborts,
  unlike `call`, when no gas is left to refund.
- `PriceQueue.PairEnqueue`, `PriceQueue.OverwriteLosesField`: a second partial price pair for the same
  block drops the fields that only the first one set.
- `Config.PendingRegimeBreaks`, `Config.SetVersionAndPrice`, `Config.PendingRegimeWitness`: between
  `setversion(3)` and the next block a scalar price can still be enqueued and then leaves a front block
  that belongs to no pair, and the scalar price in force is zeroed at once. The left-over front is
  early, never late: `Config.PaidAsAnnounced` holds all the same.

## Model

| member | source | states |
|---|---|---|
| `DustBalance.Pow10Const` | src/utils.cpp:64-69 | the wrapping multiply loop gives the exact power of ten for every exponent up to 18 and aborts exactly for negative ones |
| `DustBalance.SplitUnique` | include/evm_runtime/tables.hpp:115-182 | a wei number has only one split into whole units and dust below one unit |
| `DustBalance.SplitAdd` | include/evm_runtime/tables.hpp:129-160 | adding in split form, with a carry out of the dust, adds the wei numbers and fits exactly when the sum is below the cap |
| `DustBalance.SplitSub` | include/evm_runtime/tables.hpp:162-182 | subtracting in split form, with a borrow into the dust, subtracts the wei numbers and stays non-negative exactly when the difference does |
| `DustBalance.BorrowBit` | include/evm_runtime/tables.hpp:172-179 | for units up to 10^18, bit 63 of the wrapped dust difference is set exactly when a borrow is due, and adding the unit back gives the true dust |
| `DustBalance.AddSplit` | include/evm_runtime/tables.hpp:129-160 | the 64-bit steps of the addition succeed exactly when the wei sum fits, with that sum as result and normalised dust |
| `DustBalance.SubSplit` | include/evm_runtime/tables.hpp:162-182 | the 64-bit steps of the subtraction succeed exactly when enough wei is there, with the difference as result and normalised dust |
| `DustBalance.BalanceWithDust.IsZero` | include/evm_runtime/tables.hpp:119-121 | true exactly when the row is worth 0 wei |
| `DustBalance.BalanceWithDust.Equals` | include/evm_runtime/tables.hpp:122-124 | comparing the two parts of rows of one symbol compares their worth |
| `DustBalance.BalanceWithDust.AddAssign` | include/evm_runtime/tables.hpp:129-160 | the row's wei number grows by exactly the amount; it aborts exactly on an empty symbol, a precision above 18 or an overflow of the whole part |
| `DustBalance.BalanceWithDust.SubAssign` | include/evm_runtime/tables.hpp:162-182 | the row's wei number shrinks by exactly the amount; it aborts exactly on an unusable symbol or too little wei |
| `DustBalance.BalanceWithDust.AddAsset` | src/actions.cpp:758-760 | a deposit of whole units is a credit of their wei worth |
| `DustBalance.BalanceWithDust.SubAsset` | src/actions.cpp:853-857 | comparing whole units only, as `withdraw` does, accepts exactly the withdrawals the wei number covers, and debits their wei worth |
| `StateInvariants.CanAlwaysRelease` | src/state.cpp:132-134 | the "code not found" abort of a removal cannot happen |
| `StateInvariants.EmplaceStartsEmpty` | src/state.cpp:107-115 | a new account gets an id whose storage scope is empty, whatever garbage still waits for collection |
| `StateInvariants.EmplaceKeepsInv` | src/state.cpp:334-347 | the id handed out is unused, and creating a row keeps all table invariants |
| `StateInvariants.ReleaseSparesOthers` | src/state.cpp:131-142 | a code some other account holds is not erased |
| `StateInvariants.ReleaseKeepsCodes` | src/state.cpp:131-142 | after dropping an account's code reference every count again equals the number of accounts holding the code, no held code is gone and hashes stay unique |
| `StateInvariants.RemoveKeepsInv` | src/state.cpp:123-144 | removing an account keeps all table invariants and leaves no row for its address |
| `StateInvariants.UpdateAccountKeepsInv` | src/state.cpp:96-166 | every branch of the account update keeps unique addresses, fresh ids, exact code counts and reachable storage |
| `StateInvariants.UpdateAccountCodeKeepsInv` | src/state.cpp:186-226 | deploying to an account without code keeps all invariants |
| `StateInvariants.RedeployLeaksReference` | src/state.cpp:200-216 | after setting code the reference counts are exact if and only if the account had no code before |
| `StateInvariants.RedeployWitness` | src/state.cpp:200-216 | code set twice on one account of a fresh deployment: the counts are wrong |
| `StateInvariants.UpdateStorageKeepsInv` | src/state.cpp:228-279 | storage writes keep all invariants: one row per key and never a stored zero |
| `StateInvariants.GcKeepsInv` | src/state.cpp:168-184 | collection with any budget keeps all invariants: no row becomes unreachable from both its account and the queue |
| `StateInvariants.ReopenKeepsInv` | src/state.cpp:334-353 | closing an object and opening the next continues the same id sequence |
| `StateRefinement.OneRowRefines` | src/state.cpp:96-279 | a table change confined to one row is a map change confined to one address |
| `StateRefinement.UpdateAccountRefines` | src/state.cpp:96-166 | the account update on the tables is the map update: delete, replace with empty code and storage on a new incarnation, or set nonce and balance only |
| `StateRefinement.UpdateAccountCodeRefines` | src/state.cpp:186-226 | setting code on the tables, shared code rows included, sets the code of one address in the map and of no other |
| `StateRefinement.UpdateStorageRefines` | src/state.cpp:228-279 | writing or clearing a slot changes exactly that slot of that address, creating the account only for a non-zero value |
| `StateRefinement.GcRefines` | src/state.cpp:168-184 | collection is invisible in the map |
| `StateRuns.StepKeepsInv` | src/state.cpp:96-353 | every operation, `rmaccount` and reopening included, keeps the invariants and never hits "code not found" |
| `StateRuns.StepRefines` | src/state.cpp:10-279 | every operation on the tables matches its effect on the map; reads and collection have none |
| `StateRuns.RunRefines` | src/state.cpp:10-353 | from any sound state, every run of operations keeps the invariants and ends in the tables of the map the same run produces |
| `StateRuns.FreshRunRefines` | src/state.cpp:10-353 | the same for every run from a fresh deployment |
| `StateRuns.StepIds` | src/state.cpp:334-347 | the next id never goes back and every new row gets an id from it on |
| `StateRuns.DeadIdsStayDead` | src/state.cpp:334-353 | an id whose account is gone is not used again by any later run, across reopening |
| `StateRuns.CoherentReads` | src/state.cpp:10-88 | with coherent caches every read returns what it would return without caches |
| `StateRuns.StorageReadsTheMap` | src/state.cpp:62-88 | an uncached storage read returns the map's value, zero for a missing slot or account |
| `StateRuns.AccountReadsTheMap` | src/state.cpp:10-40 | a permitted account read returns the map's nonce, balance and code hash, and nothing exactly when the map has no account |
| `StateRuns.ReadAborts` | src/state.cpp:19 | an account read aborts exactly on a frozen row that may not be seen |
| `StateRuns.ReadsSucceed` | src/state.cpp:10-353 | none of the operations freezes an account, so no account read aborts in any run from unfrozen tables |
| `StateRuns.CodeReadsTheMap` | src/state.cpp:42-60 | an uncached code read by an account's code hash returns the map's code |
| `StateRuns.StepKeepsCoherent` | src/state.cpp:10-279 | every operation but an account removal through the same object keeps both caches coherent |
| `StateRuns.CachesAgreeUntilRemoval` | src/state.cpp:10-353 | caches stay coherent over every run without such a removal, with closing and reopening in between |
| `StateRuns.ObjectReadsTheMap` | src/state.cpp:10-353 | an object opened after any history and used in any way that erases no account through it answers every storage, code and account read with the map's value |
| `StateRuns.StorageReadAfterErasure` | src/state.cpp:62-88 | after an account is deleted or re-created through an object, its storage reads are right for every other address, and for that account if and only if its id was not cached or the slot held 0; otherwise they repeat the old value |
| `StateRuns.CodeReadAfterErasure` | src/state.cpp:42-60 | code reads through that object are right if and only if the code was not cached, is empty, or has another holder |
| `StateRuns.WriteReadDelete` | src/state.cpp:62-166 | from any sound state, writing a slot, reading it and deleting the account leaves the object reading the old value where the map has none |
| `StateRuns.StaleReadWitness` | src/state.cpp:62-166 | the same three calls on a fresh deployment read 9 instead of 0 |
| `StateGc.WorkPerEntry` | src/state.cpp:168-184 | W is the sum over queue entries of one plus the size of their scope |
| `StateGc.GcStepCounts` | src/state.cpp:171-181 | each unit of budget spent deletes exactly one row and reduces W by one |
| `StateGc.GcWork` | src/state.cpp:168-184 | `gc(max)` leaves W - min(max, W) work |
| `StateGc.GcRows` | src/state.cpp:168-184 | `gc(max)` deletes exactly min(max, W) rows |
| `StateGc.GcReport` | src/state.cpp:183 | the queue is empty afterwards, which is what `gc` returns, if and only if max covers W |
| `StateGc.GcSparesTheLiving` | src/state.cpp:168-184 | no storage row of an account that is not queued is touched |
| `StateGc.GcInOrder` | src/state.cpp:170-180 | the queue is served in order: an entry goes only after all earlier ones |
| `StateGc.GcFinishes` | src/state.cpp:168-184 | n calls with the same positive budget finish the collection if and only if W <= n * max |
| `StateObject.AvailablePrimaryKey` | src/state.cpp:128 | one past the largest key in use, 0 for an empty table |
| `StateObject.State.constructor` | include/evm_runtime/state.hpp:30-37 | a new object has no counter and empty caches over the given tables |
| `StateObject.State.Destroy` | src/state.cpp:349-353 | writes the id counter back so that the next object is sound |
| `StateObject.State.GetNextAccountId` | src/state.cpp:334-347 | returns the next id and advances the counter only |
| `StateObject.State.RemoveAccount` | src/state.cpp:123-144 | queue the scope, release the code, erase the row, and nothing else |
| `StateObject.State.RmAccount` | src/admin_actions.cpp:40-65 | the action succeeds exactly for an existing id, is then a row removal, and keeps the invariants |
| `StateObject.State.UpdateAccount` | src/state.cpp:96-166 | the in-place update is the table function whose meaning on the map is proved, aborts exactly when read-only, and keeps the invariants |
| `StateObject.State.RetainCode` | src/state.cpp:188-206 | finds or adds the code row of a hash with one more reference |
| `StateObject.State.UpdateAccountCode` | src/state.cpp:186-226 | likewise for setting code, on any account; the invariants survive if and only if the account had no code |
| `StateObject.State.UpdateStorage` | src/state.cpp:228-279 | likewise for writing a slot |
| `StateObject.State.GcScope` | src/state.cpp:172-178 | the inner loop stops out of budget or with the scope empty, having done that much of the collection |
| `StateObject.State.GcScopes` | src/state.cpp:171-181 | the outer loop, entry by entry, is a sequence of single deletions up to the budget |
| `StateObject.State.Gc` | src/state.cpp:168-184 | keeps the invariants, and the result says whether the queue is empty |
| `StateObject.State.ReadAccount` | src/state.cpp:10-40 | aborts exactly on a frozen account that may not be seen; otherwise changes caches only and returns the row |
| `StateObject.State.ReadCode` | src/state.cpp:42-60 | changes the code cache only and returns the code of a hash, cache first |
| `StateObject.State.ReadStorage` | src/state.cpp:62-88 | changes the id cache only and returns the slot, through the cached id first |
| `BridgeMessage.BlobRoundTrip` | include/evm_runtime/bridge.hpp:43-60 | reading back an encoded blob succeeds exactly below 2^32 - 1 bytes, returns the bytes exactly if they are readable, and ends behind the blob |
| `BridgeMessage.DecodeMeaning` | include/evm_runtime/bridge.hpp:27-73 | what any calldata decodes to, canonical or not, in absolute positions: abort, unknown, or the account, flag and payload bytes found there whatever the padding holds |
| `BridgeMessage.DecodesWhen` | include/evm_runtime/bridge.hpp:27-73 | an encoding is accepted exactly for an account of 1 to 32 bytes and a payload below 2^32 - 1 bytes, and account and flag then come back |
| `BridgeMessage.PayloadOffset` | include/evm_runtime/bridge.hpp:37-38 | the fixed payload offset is met exactly by accounts of 1 to 32 bytes |
| `BridgeMessage.DecodeUndoesEncode` | include/evm_runtime/bridge.hpp:27-73 | decoding the ABI encoding of a message, with any bytes behind it, gives the message back if and only if the account has 1 to 32 bytes and the payload is readable |
| `BridgeMessage.LongAccountWitness` | include/evm_runtime/bridge.hpp:37-38 | every message with a 33-byte account aborts |
| `BridgeMessage.WrappedPayloadWitness` | include/evm_runtime/bridge.hpp:56-60 | the shortest payload of ones whose padded length wraps does not come back |
| `BridgeMessage.DataStream.ReadWord` | include/evm_runtime/types.hpp:118-124 | the big-endian word at the cursor, which moves by 32, or an abort past the end |
| `BridgeMessage.DataStream.ReadBlob` | include/evm_runtime/bridge.hpp:43-60 | a length and its padded bytes cut to length, with the cursor behind the padding |
| `BridgeMessage.DecodeMessageV0` | include/evm_runtime/bridge.hpp:27-63 | the cursor-based decoder is the positional one |
| `BridgeMessage.DecodeMessage` | include/evm_runtime/bridge.hpp:65-73 | dispatch on the selector: abort below four bytes, unknown for other selectors |
| `Egress.MarkUpToMeaning` | src/actions.cpp:354-370 | matching messages to a non-open account succeeds exactly with at most five, dust-free messages whose sum is covered, and marks exactly those |
| `Egress.EgressUpToMeaning` | src/actions.cpp:324-373 | the loop over reserved accounts succeeds if and only if each passes its checks against the initial rows, and then gives every row, the total, the marks and the miner flag in closed form |
| `EgressTheorems.LeavingPermutation` | src/actions.cpp:324-373 | what leaves the EVM, in total and for each account, does not depend on the order of the reserved accounts |
| `EgressTheorems.EgressOrderIndependent` | src/actions.cpp:324-373 | two orders of the same reserved accounts give the same rows, total, marks and flag, or both abort |
| `EgressTheorems.EgressPhaseOrderIndependent` | src/actions.cpp:315-390 | the whole phase, transfers included, does not depend on that order |
| `EgressTheorems.EgressUpToAccounted` | src/actions.cpp:324-373 | rows plus marked messages grow by exactly what left the EVM, less the miner's portion |
| `EgressTheorems.SendUpToMeaning` | src/actions.cpp:375-386 | exactly the marked messages become transfers, in message order and in whole units, and the tokens held shrink by their value |
| `EgressTheorems.SentAccountOk` | src/actions.cpp:346-372 | an account whose messages are sent on received exactly their sum in at most five dust-free messages, exists and is not the contract |
| `EgressTheorems.EgressPhaseMeaning` | src/actions.cpp:315-390 | a successful phase gives every row, the EVM total, the transfers and the tokens held in closed form, and conserves value |
| `EgressTheorems.EgressPhaseSucceeds` | src/actions.cpp:315-390 | if the tokens held cover the EVM total, the phase succeeds if and only if every reserved account passes its checks, no more leaves than the EVM total, and no message to be sent on is worth 0 |
| `EgressTheorems.EgressPaysExactly` | src/actions.cpp:346-386 | a non-open account that received value is sent exactly that value, in at most five transfers |
| `Delivery.TargetMeaning` | src/actions.cpp:514-532 | a message is accepted exactly if its data names an existing registered account whose atomicity flag and minimum fee it respects, and is for that account |
| `Delivery.MessagesMeaning` | src/actions.cpp:506-562 | the phase goes through if and only if every message is acceptable, its receiver is open and has room for all it receives, and the contract's row covers the total; each row then gains exactly the messages that name it |
| `Delivery.EncodedMessageMoves` | src/actions.cpp:506-562 | one message built by the encoder goes through if and only if each check of the source holds, and moves its value from the contract's row to the named account's and nothing else |
| `Delivery.MessagesRow` | src/actions.cpp:547-559 | each row gains the value of the bridge messages that name it and the contract's row pays their total |
| `Solvency.SettleGasBalanced` | src/actions.cpp:392-439 | paying the miner what was taken for it, refunding the payer and booking the income create and destroy nothing |
| `Solvency.ExecuteTxBalanced` | src/actions.cpp:183-443 | whatever the EVM returns, a transaction keeps tokens held = rows + EVM total and moves that total by ingress less egress |
| `Solvency.MessagesBalanced` | src/actions.cpp:506-562 | bridge messages move value between rows only |
| `Solvency.ProcessTxSolvent` | src/actions.cpp:564-650 | for an EVM run that conserves balances, the EVM total is the sum of the persisted balances after the transaction as well |
| `Solvency.WithdrawMeaning` | src/actions.cpp:845-861 | in a solvent contract a withdrawal succeeds if and only if the row is open and covers it, the amount is positive and representable, and the receiver is not the contract; it then sends exactly that amount to the named receiver, takes its worth off the owner's row and the tokens held, and changes nothing else |
| `Solvency.StepGood` | src/actions.cpp:183-986 | every action, whoever calls it with whatever arguments, keeps the contract solvent and every open account with a nonce row |
| `Solvency.RunGood` | src/actions.cpp:183-986 | so does every sequence of actions under changing configuration, aborts included |
| `Solvency.InitGood` | src/actions.cpp:55-84 | the initial ledger is solvent |
| `Solvency.AlwaysSolvent` | tests/basic_evm_tester.cpp:895-921 | the two equalities the balance check of the tests compares hold after every run from initialisation, to the wei |
| `Transactions.IngressMeaning` | src/actions.cpp:222-255 | money enters the EVM if and only if the payer's row covers the gas and the sender's the value, together if they are one, and the sums fit; exactly these rows and the EVM total change |
| `Transactions.EgressMeaning` | src/actions.cpp:315-390 | the egress phase as an equation: its exact success condition and the whole ledger after it |
| `Transactions.PortionMeaning` | src/actions.cpp:270-289 | the miner's due is the inclusion fee, the tip on the gas used, or the cut of the gas fee, by version |
| `Transactions.GasMeaning` | src/actions.cpp:392-439 | paying the miner, refunding the payer and booking the income: exact success condition, rows and income |
| `Transactions.ExecuteMeaning` | src/actions.cpp:183-443 | for a solvent contract and a conserving run, `execute_tx` as an equation on the ledger before it |
| `Transactions.TransactionMeaning` | src/actions.cpp:564-650 | likewise for the whole transaction, price checks and messages included |
| `Transactions.TransactionRow` | src/actions.cpp:183-650 | every row changes by what it paid in, what left the EVM for it, the miner's due, the refund and the messages, and by nothing else |
| `Outcomes.MinerIsPaid` | src/actions.cpp:270-398 | a miner other than the contract gets the inclusion fee (version 3), gas used times the smaller of priority fee and fee above base (versions 1 and 2), or its cut of the gas fee (version 0), on top of what the EVM and messages send it; the contract's row pays it |
| `Outcomes.InternalTxSucceeds` | src/actions.cpp:183-650 | a transaction on behalf of a reserved account goes through if and only if the rows cover value and gas, the totals fit, every reserved account passes its checks on the debited rows, a payer has gas left to get back, and the messages can be delivered |
| `Outcomes.InternalTxBooks` | src/actions.cpp:420-439 | it books the gas used as income unless it is the contract's own |
| `Outcomes.CallSucceeds` | src/actions.cpp:871-946 | when `call` and `callotherpay` go through, in terms of the ledger before them |
| `Outcomes.CallMeaning` | src/actions.cpp:871-946 | both as equations, whatever the run did: one nonce, then the transaction under the contract's own rules, failed runs aborting |
| `Outcomes.PushMeaning` | src/actions.cpp:652-689 | `pushtx` as an equation: relaxed rules exactly when the contract pushes, a minimum inclusion price only from version 1 on |
| `Outcomes.AdminCallMeaning` | src/actions.cpp:948-986 | `admincall` as an equation: `call` for a reserved sender, otherwise the sender has to exist in the EVM |
| `Outcomes.DepositMeaning` | src/actions.cpp:751-761 | a deposit goes through exactly for a positive amount that fits an open row, and raises that row and the tokens held only |
| `Outcomes.BridgeInSucceeds` | src/actions.cpp:763-821 | when bridging in goes through: the quantity exceeds the fee and fits, and the contract's own transaction for the rest goes through |
| `Outcomes.BridgeInMeaning` | src/actions.cpp:763-821 | bridging in as an equation, whatever the run did |
| `Outcomes.FeeIsBooked` | src/actions.cpp:776-779 | a bridge-in that goes through books exactly the ingress fee |
| `Settlement.ExecuteTxRow` | src/actions.cpp:222-418 | the exact change of every row across ingress, egress and gas refund |
| `Settlement.InternalTxRow` | src/actions.cpp:183-562 | if the EVM charges gas to the sender and pays it to the contract, the payer is down the gas used, the sender the value, and the contract up the gas |
| `Settlement.CallOtherPaySettles` | src/actions.cpp:926-946 | the same of `callotherpay`, for every row and any overlap of payer, sender and contract |
| `Settlement.CallSettlesAll` | src/actions.cpp:871-946 | the same of `call`, where the sender pays, and of all rows at once |
| `Settlement.CallOtherPayDistinct` | src/actions.cpp:400-418 | with three distinct accounts the payer loses exactly the gas used and the sender exactly the value, up to what the EVM and bridge messages send them |
| `Settlement.CallOtherPayBySender` | src/actions.cpp:400-418 | paying for one's own call is `call` if gas is left to refund, and aborts otherwise |
| `Settlement.NoRefundWitness` | src/actions.cpp:400-418 | a call at gas price 0 by an account just opened: `call` succeeds, `callotherpay` by the sender aborts |
| `Settlement.BridgeInIsExact` | src/actions.cpp:763-821 | bridging to a plain address: the contract keeps exactly the ingress fee, the destination and the EVM total grow by exactly the rest, no other row moves, whatever the gas price |
| `Nonces.ProcessTxKeepsNonces` | src/actions.cpp:564-650 | a transaction leaves the nonce table alone |
| `Nonces.ApplyNonces` | src/actions.cpp:697-740 | a successful action advances its issuer's next nonce by one and no other; closing and reopening changes none |
| `Nonces.IssuedAreConsecutive` | src/actions.cpp:731-740 | the nonces any run issues to an account are consecutive from its next nonce |
| `Nonces.NoncesHaveNoGaps` | src/actions.cpp:697-740 | from initialisation they are 0, 1, 2, ... up to what `assertnonce` compares with, without gap or repeat |
| `Contract.EvmContract.constructor` | src/actions.cpp:55-84 | initialisation opens the contract's own row and nonce |
| `Contract.EvmContract.DoIngress` | src/actions.cpp:222-255 | goes through exactly if the rows cover value and gas and the sums fit; what leaves the rows enters the EVM total |
| `Contract.EvmContract.MarkMessages` | src/actions.cpp:354-370 | the inner loop with its early aborts computes the marks exactly when they match the balance |
| `Contract.EvmContract.VisitReserved` | src/actions.cpp:324-373 | one pass of the outer loop |
| `Contract.EvmContract.DoEgress` | src/actions.cpp:315-390 | the nested loops and the transfer loop are the egress phase, with the same aborts |
| `Contract.EvmContract.DoTransfers` | src/actions.cpp:375-386 | transfers go out in message order, stopping at the first that fails |
| `Contract.EvmContract.DoAfterRun` | src/actions.cpp:315-439 | egress, miner, refund and statistics together take exactly what left the EVM off its total and keep the ledger balanced |
| `Contract.EvmContract.DoExecuteTx` | src/actions.cpp:183-443 | whatever the EVM returned, tokens held stay equal to rows plus EVM total; for a conserving run it goes through exactly under the written-out condition and leaves the written-out ledger, miner's due included |
| `Contract.EvmContract.DoMessages` | src/actions.cpp:506-562 | goes through exactly if every message can be delivered and paid for; every row gains exactly the messages that name it and the contract's row pays their total |
| `Contract.EvmContract.DoMessageLoop` | src/actions.cpp:508-560 | the loop with its early aborts and the final debit |
| `Contract.EvmContract.DoOneMessage` | src/actions.cpp:509-552 | one pass of that loop |
| `Contract.EvmContract.CheckMessage` | src/actions.cpp:514-535 | the receiver of a message that decodes, names an existing registered account, meets its atomicity flag and covers its minimum fee |
| `Contract.EvmContract.DoProcessTx` | src/actions.cpp:564-650 | for a conserving run it goes through exactly under the written-out condition, leaves exactly the written-out ledger and the contract solvent; no transaction touches the nonces |
| `Contract.EvmContract.DoOpen` | src/actions.cpp:691-710 | adds missing rows only: the contract stays solvent and no next nonce changes |
| `Contract.EvmContract.DoClose` | src/actions.cpp:712-729 | succeeds exactly for an empty row that is not the contract's; the contract stays solvent and the next nonce is remembered |
| `Contract.EvmContract.GetAndIncrementNonce` | src/actions.cpp:731-740 | returns the next nonce and advances that one; aborts exactly for an account without a row |
| `Contract.EvmContract.HandleAccountTransfer` | src/actions.cpp:751-761 | goes through exactly for a positive amount that fits an open row; raises it and the tokens held by the same amount and keeps the contract solvent |
| `Contract.EvmContract.HandleEvmTransfer` | src/actions.cpp:763-821 | its exact success condition; the fee is booked, and bridging to any plain address leaves the contract exactly the fee and the destination and the EVM total the rest |
| `Contract.EvmContract.DoWithdraw` | src/actions.cpp:845-861 | in a solvent contract exactly the withdrawals the owner's row covers succeed, and send the amount to the named receiver, off the owner's row and the tokens held |
| `Contract.EvmContract.DoCall` | src/actions.cpp:871-946 | `call` and `callotherpay` go through exactly under the written-out condition and settle every row: the payer is down the gas, the sender the value, the contract up the gas |
| `Contract.EvmContract.DoAdminCall` | src/actions.cpp:948-986 | a reserved sender uses a nonce; an address must exist in the EVM, uses none, and goes through exactly under the written-out condition |
| `Contract.EvmContract.DoPushTx` | src/actions.cpp:652-689 | a miner other than the contract is paid its due, by the contract |
| `Contract.EvmContract.Execute` | src/actions.cpp:183-986 | with the host undoing aborts, an action takes effect as a whole or not at all, the object stays solvent, and exactly a successful issuer's next nonce moves, by one |
| `BlockMapping.NoWrap` | tests/external/eosevm/block_mapping.hpp:31-41 | no block number wraps for any representable block time plus an hour |
| `BlockMapping.BlockNumMonotone` | tests/external/eosevm/block_mapping.hpp:31-41 | block numbers never go down over time |
| `Promoter.RepresentsShows` | include/evm_runtime/value_promoter.hpp:19-33 | a promoter that stands for an update log shows the log's value at every later time, promoted or not |
| `Promoter.RunRepresents` | include/evm_runtime/value_promoter.hpp:18-47 | for every interleaving of reads, promotions and updates at nondecreasing times, the value seen is the last update made in a strictly earlier block |
| `Promoter.PromoteTwice` | include/evm_runtime/value_promoter.hpp:26-33 | promoting on the way changes nothing later |
| `Promoter.StableWithinBlock` | include/evm_runtime/value_promoter.hpp:18-47 | the value seen never changes within a block |
| `Promoter.ValuePromoter.GetValueAndMaybePromote` | include/evm_runtime/value_promoter.hpp:26-33 | returns what a plain read returns and reports a promotion exactly when one was due |
| `Promoter.ValuePromoter.UpdateWith` | include/evm_runtime/value_promoter.hpp:34-43 | promotes first, then replaces any pending value |
| `Promoter.ValuePromoter.PromotePending` | include/evm_runtime/value_promoter.hpp:44-48 | aborts exactly without a pending value |
| `PriceQueue.DrainMeaning` | src/config_wrapper.cpp:184-190 | the loop takes off exactly the due rows, applies them in order and leaves the front at the first remaining one |
| `PriceQueue.ProcessIsDrain` | src/config_wrapper.cpp:175-191 | as long as the cached front is not late, the shortcut through it never skips a due row, and no due row remains |
| `PriceQueue.LazyIsEager` | src/config_wrapper.cpp:162-191 | processing at any earlier blocks and then at b is processing once at b |
| `PriceQueue.EnqueueKeepsOk` | src/config_wrapper.cpp:112-146 | with activation blocks in order an enqueue never reports the internal error and keeps rows strictly ordered with a front that is not late, exact if it was |
| `PriceQueue.SameMeansNoChange` | include/evm_runtime/config_wrapper.hpp:85-93 | the comparison with the current pair holds exactly when merging would change nothing |
| `PriceQueue.KindsAreLawful` | src/config_wrapper.cpp:102-110 | setting a scalar price or a pair twice is setting it once, and what the shortcut takes for no change is none |
| `PriceQueue.EnqueueMeaning` | src/config_wrapper.cpp:112-154 | a value enqueued for block a changes nothing before a, and from a on the price is the one in force just before a with the value applied, whichever shortcut is taken |
| `PriceQueue.PairEnqueue` | src/config_wrapper.cpp:112-154 | the fields of a pair are merged into the price announced before it if and only if it does not replace a same-block row that set a field it leaves open |
| `PriceQueue.OverwriteLosesField` | src/config_wrapper.cpp:130-135 | two partial pairs in one block: the first is lost |
| `PriceQueue.QueueRunOk` | src/config_wrapper.cpp:112-191 | over every run at nondecreasing times the front is right and the internal error never occurs |
| `PriceQueue.ActivationIs` | src/config_wrapper.cpp:120-123 | a value enqueued in second s counts from the block of second s + 181 on |
| `PriceQueue.Timeline` | src/config_wrapper.cpp:112-191 | over every run of enqueues and lazy processing the price in any block from now on is the one announced for it |
| `PriceQueue.ScalarTimeline` | src/config_wrapper.cpp:112-191 | for scalar prices that is the last one enqueued to be active by then |
| `PriceQueue.PairTimeline` | src/config_wrapper.cpp:102-191 | for pairs it is each pair merged into what was announced for the block before it, same-block overwrites included |
| `PriceQueue.EnqueueRow` | src/config_wrapper.cpp:112-146 | the enqueue template with its shortcuts and the internal error |
| `PriceQueue.ProcessRows` | src/config_wrapper.cpp:174-191 | the erase loop that moves the front along |
| `Config.TimePasses` | src/config_wrapper.cpp:212-216 | the invariants survive the passing of time and the active version only goes up |
| `Config.PromoteOk` | src/config_wrapper.cpp:218-229 | promotion keeps the invariants and does not change the version reads report |
| `Config.RunVersions` | src/config_wrapper.cpp:193-279 | over every run the active version never goes down and stays supported, the miner cut stays within 90% and is 0 for good once a version of at least 1 has been promoted |
| `Config.VersionTimeline` | src/config_wrapper.cpp:212-242 | over every run the version in force is the last one accepted in a strictly earlier block |
| `Config.SetVersionSound` | src/config_wrapper.cpp:231-242 | a new version keeps both queues sound, and the front exact if it was |
| `Config.SetFeeSound` | src/config_wrapper.cpp:244-279 | so do fee changes, in any version and at any time |
| `Config.SetGasPricesSound` | src/actions.cpp:1061-1071 | so does setting or enqueueing a price pair |
| `Config.SetStoragePriceSound` | src/config_wrapper.cpp:315-321 | so does the price part of a consensus parameter update |
| `Config.TransactSound` | src/config_wrapper.cpp:162-229 | so does what a transaction does to the configuration |
| `Config.RunSound` | src/config_wrapper.cpp:102-321 | over every run the queue in use stays ordered and its front is never late |
| `Config.PendingRegimeBreaks` | src/config_wrapper.cpp:143-145 | enqueueing a scalar price keeps the shared front exact if and only if no switch to version 3 is pending or the price is the current one |
| `Config.ApplyOk` | src/config_wrapper.cpp:112-321 | an accepted operation keeps the front exact if and only if it is not such an enqueue |
| `Config.RunOk` | src/config_wrapper.cpp:112-321 | over every run without such an enqueue the front is exact |
| `Config.InitOk` | src/actions.cpp:63-73 | the initial configuration satisfies the invariants |
| `Config.PaidAsAnnounced` | src/actions.cpp:1077-1083 | over every run from a sound configuration a transaction pays the price announced for its block, in the regime of the version in force |
| `Config.PricesFromInit` | src/actions.cpp:1038-1083 | from initialisation on, the version and the price of every transaction follow from the accepted calls and their blocks alone |
| `Config.ScalarTakesEffect` | src/config_wrapper.cpp:112-150 | a scalar price set in second s is paid from second s + 181 on and changes no price before |
| `Config.PairTakesEffect` | src/config_wrapper.cpp:112-154 | from second s + 181 on a pair is merged into the price of second s + 180; nothing changes before |
| `Config.EnqueueingOps` | src/config_wrapper.cpp:244-321 | which calls enqueue which price, by version |
| `Config.AcceptedWhen` | src/config_wrapper.cpp:231-321 | exactly which calls are accepted: a higher supported version, with an empty queue and a storage price for version 3; a scalar price below version 3; a cut up to 90% in version 0 |
| `Config.CutTimeline` | src/config_wrapper.cpp:218-265 | over every run a transaction uses the last miner cut accepted in version 0, and none from version 1 on |
| `Config.SetVersionAndPrice` | src/config_wrapper.cpp:237-240 | setting a version leaves the price in force alone if and only if it is not version 3 or the price was 0 already |
| `Config.PendingRegimeWitness` | src/config_wrapper.cpp:231-242 | version 1, then in the next second version 3 and a scalar price: the price goes from 10 to 0 with version 1 still active, and the front is no longer exact |
| `Config.ConfigWrapper.EnqueuePrice` | src/config_wrapper.cpp:148-150 | the enqueue on the scalar table, internal error included: the price is paid from 181 seconds later on and not before |
| `Config.ConfigWrapper.EnqueuePrices` | src/config_wrapper.cpp:152-154 | the enqueue on the pair table: the pair is merged in from 181 seconds later on and not before |
| `Config.ConfigWrapper.ProcessQueues` | src/config_wrapper.cpp:162-172 | the queue of the active version is processed, on the shared front |
| `Config.ConfigWrapper.GetEvmVersionAndMaybePromote` | src/config_wrapper.cpp:218-229 | returns the version a plain read returns; a promotion to 1 or more clears the miner cut |
| `Config.ConfigWrapper.SetEvmVersion` | src/config_wrapper.cpp:231-242 | succeeds exactly for a supported higher version, with version 3 needing an empty queue and a storage price |
| `Config.ConfigWrapper.SetFees` | src/config_wrapper.cpp:244-265 | sets or enqueues the price by version and accepts a miner cut up to 90% in version 0 only |
| `Config.ConfigWrapper.SetOrEnqueuePrices` | src/actions.cpp:1061-1071 | `setgasprices` with its two input checks |
| `Config.ConfigWrapper.BeginTransaction` | src/actions.cpp:652-688 | due prices are applied before the version is promoted |

## Left out

- The EVM itself (silkworm, evmone), transaction validation, signatures, RLP and the order of `write_to_db`: an EVM run is a parameter. The solvency results assume only that it conserves balances, the settlement results also that it charges gas to the sender and pays it to the contract. With a base fee, validation rejects a fee below it, which is part of the price check here.
- Settlement.BridgeInIsExact: assumes a destination without code, because with code the run can do anything the solvency results allow.
- Nonces.NoncesHaveNoGaps: nonces are unbounded naturals, because the 64-bit counter cannot be exhausted.
- StateInvariants.EmplaceKeepsInv: ids are unbounded naturals and reference counts too, so 64-bit and 32-bit wrap-around is not modelled.
- StateRuns.FreshRunRefines: takes from the EVM that code is set once per account and that a hash names one code; deployments older than the `config2` row, where the first id comes from the account table, are not modelled.
- Config.RunVersions: the largest supported version is taken to be 3; its definition is not part of the repository.
- BlockMapping.NoWrap: the source divides microseconds as a double, which is exact in this range; the model divides integers, and times are the 32-bit half-second slots of Antelope.
- BridgeMessage.DecodeUndoesEncode: memory limits on very long payloads are not modelled.
- Ledger rows are wei numbers; `DustBalance` shows that the split rows implement exactly these credits and debits. Sums of 256-bit values are unbounded.
- The gas limit of a bridge-in, which the source computes from the configuration and the destination, is a parameter.
- In version 0 internal transactions go through an inline `pushtx`; the model runs them at once.
- Host, token contract and table library: an abort undoes the action, the token moves exactly the amount, tables are maps with unique primary keys; the contract holds no tokens at initialisation.
- The name parser, the bridge registry, the egress list, existing accounts and the configuration in force are parameters of an action.
- `exec` and its callback, gas parameters and the floating-point arithmetic of `update_consensus_parameters`, `swapgastoken`, `migratebal`, token transfers with an empty memo, the administrative balance and storage edits, freezing of the contract, authorisation, events, RAM payers and statistics of the state tables.
- `consensus_parameter` promotion uses the same promoter as the version and would only repeat its lemmas.
