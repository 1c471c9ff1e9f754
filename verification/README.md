# Arseeding: verified model

Arseeding is an Arweave light node and an ANS-104 bundler. This project models its state-changing core in Dafny and
proves what that core keeps over whole runs: when no byte of one transaction can be read as another's, that no paid
item is lost on its way to the chain, that no receipt pays twice or is refunded twice, and when an accepted task can
be forgotten.

`dafny verify dfyconfig.toml` checks everything.

## How the model is built

Each part is a state machine on values (`Action`, `Enabled`, `Next`, and `Exec` over a `Run` of actions) together with
imperative code in the form of the source. The lemmas about runs speak of every interleaving of the actions, with any
write failing and a crash after any write. The classes carry the fields of the source's objects; their methods state
which actions they performed, so that whatever is proved about runs holds of their state (`Valid()` says that the
fields are where the recorded run leads).

| file | contents |
|---|---|
| `Weave.dfy`, `WeaveStore.dfy` | the offset line shared by all transactions, its three writers and the reader |
| `ItemStore.dfy` | item binaries and metas with their write order and rollback |
| `Tables.dfy` | orders, receipts, balances, items and on-chain records, and the 26 actions of jobs and requests |
| `Receipts.dfy`, `Payments.dfy`, `ApiKeys.dfy` | refunds, payment coverage and the deposit ledger over all runs |
| `Retention.dfy`, `ChainStatus.dfy` | item retention and the way of orders to the chain over all runs |
| `Loops.dfy`, `Bundling.dfy`, `JobSteps.dfy`, `Jobs.dfy` | the jobs themselves, as methods of one class, and the bundle selection |
| `Client.dfy` | how the SDK batches payments, and that the bundler accepts them |
| `TaskPool.dfy`, `TaskManager.dfy` | the pending pool across crashes, the task map and the broadcast loops |
| `Codec.dfy`, `Fees.dfy`, `Basics.dfy` | store keys and task ids, fee arithmetic, shared vocabulary |

A write fails according to a schedule (`fault`), numbered by the `tick` field, so a contract can say what happens when
the writes of one call succeed (`Quiet`). Reads are faithful and a failed write changes nothing.

## What turned out to need a condition

* `storeChunk` puts any bytes at the address their offset gives, so what is read of a transaction depends on what is
  stored for it. `Weave.InsideExact` says exactly which pieces stay in their own interval, `Weave.ChunksInsideExact`
  that data does so exactly if it is not longer than its stated size. While all pieces are inside, no transaction
  disturbs another (`Weave.OthersDoNotDisturb`) and every read ends (`Weave.ReadEnds`); a transaction of which only
  true chunks are stored is then read all or nothing (`Weave.ReadExact`), whatever the others hold. The code does not
  see to it that pieces are inside: without that a reader can be given bytes stored for another transaction, as
  `Weave.OutsidePieceSpoils` shows.
* The reader compares positions with a strict `<` against the inclusive end offset, so a last chunk of one byte is
  never read. `Weave.RoundTripExact` gives the round trip exactly for a last chunk of two bytes or more.
* The counter must stay below 2^64 - 1, one less than a uint64 could hold, because the reader computes one past the
  end. `Weave.RoomExact` shows that this bound is exact.
* With an expiry run as one step an item can be lost in two ways. The job deletes an item that an open order still
  needs when the update of that order fails (`Retention.FailedUpdateLosesItem`). And a submission that finds its item
  already saved inserts its order after an expiry run has deleted the item (`Retention.LateOrderLosesItem`).
  `Retention.RetentionExact` says exactly which runs of such steps are safe, `Retention.UndisturbedIsCareful` what is
  enough to see to.
* The bundle job records its items as pending without looking at their orders again, so an order that succeeded since
  the bundle was sent goes back to pending (`ChainStatus.LateRecordStepsBack`). `ChainStatus.PaidOrdersMoveOn` says
  that this is the only way back.
* The speed factor is the quotient it is meant to be exactly as long as the int64 product fits, or the price is one
  and the result fits (`Fees.FactorBoundsExact`).
* Two overlapping registrations of one task id share one entry of the pending pool; the first to finish removes it.
  `TaskPool.OverlapLosesTask` shows the loss, `TaskPool.PooledThroughoutExact` when it happens.
* A deposit whose receipt cannot be marked spent is credited again by the next run. `ApiKeys.FailedMarkCreditsTwice`
  shows it, `ApiKeys.LedgerExact` says exactly when the ledger balances.
* `processPayItems` returns the error of its last assignment, so nil may mean that the receipt was queued for a
  refund, or that the commit failed silently; its contract is on orders and receipts.
* `onChainBundleTx` overwrites the error of `getOnChainBundle`, so a bundle without data is still built and sent.

## Model

| member | source | states |
|---|---|---|
| Weave.InvHolds | submit.go:185-276 | over every run of the three writers, whatever they store, intervals stay below the counter and disjoint |
| Weave.AllocationSafety | store.go:62-99 | no offset belongs to two transactions and all lie between 1 and the counter, with any write failing and a crash after any |
| Weave.AssignedOnce | store.go:101-158 | an end offset is assigned at most once, a stored meta stays, and an address that holds a chunk goes on holding one |
| Weave.NamesApart | store.go:221-224 | root and size put together, which is what is hashed, tell keys apart whose roots have one length |
| Weave.NamesMeet | store.go:221-224 | two keys with roots of different lengths that have one name |
| Weave.ParseUintExact | submit.go:194 | nothing but nonempty digit texts parses, up to the largest uint64 |
| Weave.DecimalValue | submit.go:194 | a digit text has its value by digits in base ten, the most significant first |
| Weave.Hundreds | submit.go:194 | a text of three digits is hundreds, tens and ones |
| Weave.InsideExact | submit.go:258-269 | in uint64 arithmetic the bytes of a chunk land in its own interval exactly if 1 <= length <= offset + 1 <= size |
| Weave.ChunksInsideExact | submit.go:205-225 | all chunks cut from some data land inside exactly if the data is not longer than the stated size |
| Weave.OwnedHolds | submit.go:247-276 | while all stored pieces are inside, every stored chunk lies within the interval of one transaction |
| Weave.InPlaceHolds | submit.go:247-276 | where a chunk of a transaction belongs only that chunk is ever stored, whatever bytes other transactions store |
| Weave.NewKeyClean | submit.go:67-84 | a transaction allocated later and given the chunks of data of its stated size has only true chunks |
| Weave.PutStays | submit.go:247-276 | a chunk put at any point of a run is present in place at every later point, with its bytes if only true chunks are stored for it |
| Weave.ReadExact | api.go:360-389 | in every reachable store the read gives all needed data of this transaction or an error, never a part or other bytes |
| Weave.ReadEnds | api.go:375-387 | while all stored pieces are inside, the loop ends on every transaction, whatever its bytes |
| Weave.OthersDoNotDisturb | submit.go:247-276 | while all stored pieces are inside, no step but a put for the transaction itself changes what is read of it |
| Weave.OutsidePieceSpoils | submit.go:278-298 | a run in which a piece too long for its own transaction replaces the bytes read of another one |
| Weave.RoundTripExact | api.go:374-388 | with all chunks stored the whole data comes back, exactly when the last chunk has two bytes or more |
| Weave.RoomExact | submit.go:199-202 | a reservation is readable exactly when it leaves the counter below 2^64 - 1 |
| WeaveStore.GeneratedPiece | submit.go:229-245 | the texts of a generated chunk parse back to its offset and its bytes |
| WeaveStore.PieceParses | submit.go:260-268 | a submitted chunk gives offset and bytes exactly if both texts parse |
| WeaveStore.PutAllPresent | submit.go:214-225 | storing the generated chunks one by one makes data of at most the stated size present in full |
| WeaveStore.Store.AtomicSyncDataEndOffset | store.go:62-88 | both offsets are written or the key is not; a failed rollback only leaves a gap |
| WeaveStore.Store.SaveTxMeta | store.go:101-109 | the id is added to the stored metas, or a failed write changes nothing |
| WeaveStore.Store.SyncAddTxDataEndOffset | submit.go:185-203 | a new key gets the next interval, a known key and a malformed size change nothing |
| WeaveStore.Store.StoreChunk | submit.go:247-276 | any chunk goes where its offset says, counted from the start of its transaction; an unknown key, malformed text and a failed write change nothing |
| WeaveStore.Store.SetTxDataChunks | submit.go:205-227 | success means that all chunks cut from the data are stored, and an error that a first part of them is; empty data, a foreign root and an unknown key store none |
| WeaveStore.Store.SaveSubmitChunk | submit.go:14-41 | a chunk with a valid path is stored whatever its bytes, on a new interval if it needs one; otherwise no chunk changes |
| WeaveStore.Store.SaveSubmitTx | submit.go:43-91 | an id saved at any earlier point is refused and no other meta is lost; a new key gets all chunks of its data, and is complete with only true chunks if the data has the stated size; a known key is left as it is |
| WeaveStore.Store.GetArTxData | api.go:360-389 | the loop returns the data up to the last needed chunk if all are present and an error otherwise; a size that cannot be allocated panics |
| WeaveStore.Store.SyncData | submit.go:130-160 | readable data is kept as it is, otherwise all fetched chunks are stored or there is an error |
| WeaveStore.Store.FetchAndStoreTx | submit.go:93-183 | after success a reader finds all needed chunks, local or fetched, and only true ones if the key is new and the data has the stated size; only its own key and meta are concerned |
| ItemStore.MetaImpliesBinary | store.go:267-283 | a stored meta implies a stored binary between all writes, after failures and after crashes |
| ItemStore.Store.AtomicSaveItem | store.go:267-275 | both records or an error; a failure never removes a binary that a meta refers to |
| ItemStore.Store.AtomicDelItem | store.go:277-283 | the meta goes first, so a failure leaves a binary without meta and never the reverse |
| ItemStore.Store.SaveItem | bundle.go:164-169 | success means the binary is stored; an item already there is not touched |
| ItemStore.Store.DelItem | bundle.go:171-177 | success exactly when the binary is gone; an absent item is no error |
| Receipts.StepMoves | wdb.go:215-228 | one step moves a status from unspent to spent or unrefund, to refunded, to refundErr, and changes nothing else |
| Receipts.TransfersAreRight | jobs.go:556-593 | over every interleaving with crashes, each receipt has at most one transfer, for its amount and to its sender, and is marked refunded |
| Receipts.StatusOnlyMovesOn | jobs.go:381-424 | over any stretch of a run a status never goes back, and spent and refunded exclude each other |
| Receipts.SpentNeverRefunded | jobs.go:556-593 | a spent receipt never gets a refund transfer |
| Payments.CarriedPayAll | jobs.go:284-298 | what a payment's hash carries is at most the sum checked, and equal to it for distinct orders |
| Payments.SpentReceiptCovers | jobs.go:252-301 | the distinct orders carrying a spent receipt's hash cost at most its amount, match its symbol and are among its items |
| Payments.PaidOrderHasItsReceipt | jobs.go:284-298 | an order with a payment id is paid and points at exactly one receipt, spent on items |
| Payments.PaidOnce | wdb.go:110-119 | a payment id once set never changes: no order is paid by a second receipt |
| ApiKeys.BalanceStep | jobs.go:352-372 | only a deposit and a spend change a balance, by their amount and only of their account |
| ApiKeys.CreditCases | jobs.go:352-366 | a new account or token starts with the amount as it is, otherwise both are added as numbers and a malformed one counts as zero |
| ApiKeys.DepositsGrow | jobs.go:303-379 | the deposits spent between two states are those of the receipts that were unspent before and are spent after |
| ApiKeys.LedgerExact | jobs.go:303-379 | a balance is never negative and equals spent deposits minus fees exactly when every credited deposit could be marked |
| ApiKeys.FailedMarkCreditsTwice | jobs.go:368-377 | a mark that fails lets a deposit of 5 be credited twice |
| Retention.ExpireRetainsExact | jobs.go:954-985 | one expiry run keeps every needed item exactly when it is harmless |
| Retention.RetentionExact | jobs.go:954-985 | every unpaid or paid order's item is stored throughout a run exactly when each expiry run in it is harmless and each order is inserted while its item is stored |
| Retention.UndisturbedIsCareful | bundle.go:26-67 | nothing is lost while expiry runs write all their updates and none falls between a submission's item and its order |
| Retention.LateOrderLosesItem | bundle.go:164-169 | an expiry run between finding the item and inserting the order leaves the order without its item |
| Retention.DeletesOnlyOrphans | jobs.go:965-978 | what a harmless run deletes belongs to no paid and no open order |
| Retention.FailedUpdateLosesItem | jobs.go:960-964 | an order whose update fails may outlive its item |
| ChainStatus.PaidMovesOn | wdb.go:133-139 | no step unpays a paid order, and one takes its on-chain status back exactly when it records as pending what has succeeded |
| ChainStatus.RetryComplete | jobs.go:740-763 | a failed record is sent again with its full item set |
| ChainStatus.InvHolds | jobs.go:615-763 | over every run: uniform statuses, truthful records with distinct ids, pending orders backed and successes earned |
| ChainStatus.PaidOrdersAccountedFor | jobs.go:615-689 | a paid order is waiting, or pending with its item in a live record, or successful with its item in a confirmed bundle |
| ChainStatus.SuccessNeedsConfirmation | jobs.go:711-736 | success is only set for items of a bundle that has its confirmations |
| ChainStatus.RetriesAreComplete | jobs.go:740-763 | every retry of a run sends the whole bundle again |
| ChainStatus.PaidOrdersMoveOn | wdb.go:133-139 | over any stretch of a run a paid order never waits again and never fails, and moves on from waiting to pending to success exactly if no late recording overtakes it |
| ChainStatus.UnmixedMovesOn | jobs.go:595-638 | while no item succeeds between the sending and the recording of its bundle, no status goes back |
| ChainStatus.LateRecordStepsBack | jobs.go:595-638 | a run of the two bundle jobs in which a successful order becomes pending again |
| ChainStatus.CopyIsSound | jobs.go:648-654 | the first processed order's status is that of all processed orders of the item |
| Bundling.NeedRows | wdb.go:121-131 | the selected rows are the first ones, in order, that are paid, waiting and of the asked kind, up to the limit |
| Bundling.ChosenFits | jobs.go:640-657 | a bundle has at most 2 GiB, and a row is passed over only if resolved or too large for the rest |
| Bundling.FirstGetsThrough | jobs.go:644-657 | the first waiting order is always chosen or resolved |
| Bundling.BundleFitsAndServes | schema/db.go:27 | both hold in every reachable state, since submissions are at most 1 GiB |
| Bundling.CopyingKeeps | wdb.go:167-173 | copying statuses changes neither which items are processed nor with which status |
| Bundling.MovingPermutes | jobs.go:916-923 | moving the first data-bearing item to the end is a permutation with data last |
| Bundling.GetOnChainBundle | jobs.go:885-925 | the loaded items, the others in order, ending in one with data; an error exactly if none has data |
| Bundling.BundledIs | jobs.go:829-832 | the ids in a bundle are those asked for that are stored and decode |
| Bundling.LoadedConcat | jobs.go:885-903 | items are loaded id by id, in order |
| Bundling.ChosenUnprocessed | jobs.go:648-656 | a chosen item is that of a listed order and in no processed order |
| Jobs.Arseeding.GetUnPaidOrdersByItemIds | jobs.go:507-518 | an unpaid order of every item that no later unpaid one follows, or some item has none |
| Jobs.Arseeding.CheckOrdersCurrency | jobs.go:472-479 | accepts exactly if all orders name the symbol, ignoring case |
| Jobs.Arseeding.CheckOrdersAmount | jobs.go:453-470 | accepts exactly if all numbers parse and the fees sum to at most the amount |
| Jobs.Arseeding.CommitPayment | jobs.go:283-300 | all orders and the receipt are updated in one transaction, or none |
| Jobs.Arseeding.ProcessPayItems | jobs.go:252-301 | one of three actions: paid, queued for refund exactly if not payable, or untouched after a failed write |
| Jobs.Arseeding.CreditDeposit | jobs.go:311-372 | the deposit is added to the sender's upper-case symbol, on a new key if there was none |
| Jobs.Arseeding.ProcessPayApikey | jobs.go:303-379 | a zero amount is refunded whatever fails, any other is credited and then marked, with an error unless both succeed |
| Jobs.Arseeding.MergeReceipt | jobs.go:387-423 | each receipt is paid, deposited or queued for refund as its data, token and amount say, and left alone only after a failure |
| Jobs.Arseeding.MergeReceiptEverTxs | jobs.go:381-424 | if nothing fails, of the last day's unspent receipts a deposit is spent exactly if its token has a fee and its amount is not zero, everything unusable is queued for refund, and each balance grows by exactly the deposits spent; no other receipt changes |
| Jobs.Arseeding.RefundOne | jobs.go:563-592 | marked first, sent once, a refusal noted; exactly one transfer for a marked receipt with a proper amount |
| Jobs.Arseeding.RefundReceipt | jobs.go:556-593 | the new transfers are exactly those of the last day's receipts marked, in table order, each with the receipt's token, amount and sender; no other receipt changes |
| Jobs.Arseeding.ProcessSubmitItem | bundle.go:16-69 | a new order with the right fee and status for a stored item, or an error without an order; what was retained still is |
| Jobs.Arseeding.InsertReceiptTx | wdb.go:195-197 | a receipt delivered again is not inserted again |
| Jobs.Arseeding.ProcessApikeySpendBal | api.go:509-546 | the fee is taken from this balance exactly if it covers it; a rejected spend changes nothing |
| JobSteps.ExpireOneMore | jobs.go:960-973 | expiring one more order makes only its own item deletable, and only if no later unpaid order is left |
| JobSteps.LastExpiredIsDeletable | wdb.go:91-101 | the checks made one by one amount to: no paid order, and an expired one that no remaining order outlives |
| Jobs.Arseeding.ExpireOne | jobs.go:960-984 | the order is expired, and its item deleted exactly if the two checks pass and the store lets it |
| Jobs.Arseeding.ProcessExpiredOrd | jobs.go:954-985 | an order that is not unpaid or not due is as it was and its item stays; if nothing fails every due order expires and the items go that no paid or open order needs |
| Jobs.Arseeding.SelectItems | jobs.go:640-657 | the items of the chosen orders; processed items pass their status on to all their orders |
| Jobs.Arseeding.OnChainBundleTx | jobs.go:765-883 | a bundle of exactly the items that are stored and decode, if it could be sent |
| Jobs.Arseeding.UpdateOnChainInfo | jobs.go:663-689 | the record first, then the statuses; without a record nothing is marked |
| Jobs.Arseeding.RecordBundle | jobs.go:611 | the record half of the bundle job: everything marked pending if no write fails |
| Jobs.Arseeding.OnChainBundleItems | jobs.go:595-613 | one bundle of the chosen items is sent and then recorded, all marked pending if no write fails |
| Jobs.Arseeding.SendBySeq | jobs.go:615-631 | the sequential bundle is sent and not recorded yet |
| Jobs.Arseeding.RecordBySeq | jobs.go:630-638 | a confirmed bundle is recorded and its items marked success; otherwise nothing changes |
| Jobs.Arseeding.MarkSucceeded | jobs.go:711-736 | the record and all orders of its items succeed in one transaction, or nothing does |
| Jobs.Arseeding.WatchArTx | jobs.go:691-738 | every pending record is settled as the network says, a success with all its orders; other records and orders are untouched |
| Bundling.RecordedDecodes | jobs.go:829-832 | whatever is in a record has been in a bundle, so all of it decodes when the record is sent again |
| Jobs.Arseeding.RetryOne | jobs.go:749-762 | the whole record is sent under a new id and pending again if that can be written |
| Jobs.Arseeding.RetryOnChainArTx | jobs.go:740-763 | only failed records are touched, and all of them if each can be sent and written |
| Jobs.Arseeding.Consistent | jobs.go:39-85 | after any sequence of jobs with any failures all invariants of receipts, payments, balances and chain status hold |
| Client.PayOrders | sdk/sdk.go:126-216 | one transfer for exactly these orders, or the first reason why there is none; it succeeds exactly when nothing stands in the way |
| Client.BatchesPartition | sdk/sdk.go:103-122 | any nonempty list is cut into nonempty batches of at most 500 whose concatenation is the list |
| Client.BatchPayOrders | sdk/sdk.go:94-124 | one transfer for each batch, in order, exactly if every batch can be paid; on an error the transfers sent are those of the batches before the first that cannot, and the error is that one's |
| Client.TransferAccepted | jobs.go:252-282 | a transfer for matching orders is payable and picks exactly these orders |
| Client.PayingKeepsOthers | wdb.go:79-83 | paying one list leaves the orders of other items open and matching |
| Client.PaidBatchByBatch | jobs.go:381-402 | the payments of the batches are a run of the merge job, each accepted in turn |
| Client.WholeListPaid | sdk/sdk.go:94-124 | when all transfers are handled exactly the listed orders are paid, each by the receipt of its batch |
| TaskPool.PooledHasToken | task.go:18-41 | under every interleaving with restarts a pooled id has a token, or its cleanup has failed |
| TaskPool.DrainedPoolIsEmpty | task.go:138-153 | once the work has drained and the cleanups succeeded the pool is empty |
| TaskPool.PooledThroughoutExact | task.go:138-153 | tasks under way are pooled throughout exactly if no id is finished while another token of it is out |
| TaskPool.AcceptedTasksPooled | api.go:493-503 | without overlapping registrations every accepted unfinished task is pooled, with one token |
| TaskPool.CrashKeepsAccepted | taskmanager.go:28-45 | so each has its token again after a crash |
| TaskPool.OverlapLosesTask | api.go:493-503 | with overlap a task can be lost |
| TaskManager.Manager.RegisterTask | api.go:493-503 | an accepted task is mapped, pooled and sent; a refused one leaves no trace |
| TaskManager.Manager.SetProcessedTask | task.go:138-153 | saved, unmapped and unpooled, or an error that leaves the pool as it was |
| TaskManager.Manager.InitTaskMg | taskmanager.go:28-45 | every pooled id is back in the map, as a fresh task whose id and type make up the pooled id, and sent once, also after a failed cleanup |
| TaskManager.Manager.SyncTask | task.go:43-59 | a closed task is left alone; a begun one is counted and closed only by success |
| TaskManager.Manager.BroadcastTxMeta | taskmanager.go:187-222 | every contacted peer counts once, the run ends closed, at most one peer is started after a close |
| TaskManager.Manager.BroadcastData | taskmanager.go:224-267 | the same counting; a peer without uploader fails and skips the check |
| TaskManager.Manager.BroadcastTxMetaTask | task.go:117-136 | an uninterrupted broadcast ends closed, with a success for each peer that took it and a failure for each other |
| TaskManager.CountsAddUp | taskmanager.go:71-87 | successes and failures together are the contacted peers |
| TaskManager.CountsFollow | taskmanager.go:71-87 | one more true answer raises the successes and one more false answer the failures |
| TaskManager.AllSucceed | taskmanager.go:71-87 | true answers alone give only successes |
| Codec.Base64RoundTrip | store.go:206-219 | base64url decoding inverts encoding for byte strings of every length |
| Codec.SextetExact | store.go:206-219 | the 64 characters decode to the values they encode, and no other character decodes |
| Codec.DecodesExact | submit.go:265 | a text decodes exactly if all its characters are of the alphabet and some bytes have a text of its length |
| Codec.ByteOrder | store.go:207-211 | itob puts the most significant byte first |
| Codec.KnownEncodings | store.go:206-219 | base64url agrees with vectors of section 10 of RFC 4648 and has its two special characters |
| Codec.OffsetKeyRoundTrip | store.go:206-219 | btoi inverts itob for every uint64, through a key of 86 characters |
| Codec.OffsetKeysDistinct | store.go:150-168 | distinct offsets have distinct chunk keys |
| Codec.TaskIdRoundTripExact | taskmanager.go:277-289 | splitting recovers id and type exactly for dash-free lower-case types |
| Codec.AcceptedTypesRoundTrip | api.go:423-427 | every accepted task type survives the round trip, whatever the id contains |
| Codec.NamesAccepted | api.go:423-427 | the four task types are accepted under their names |
| Codec.AssembledIsTaskId | taskmanager.go:34-41 | a pooled id taken apart and put together again is the same id |
| Fees.ChunkCountIsCeiling | api.go:405-408 | the chunk count is the exact ceiling |
| Fees.FeeSteps | bundle.go:77-83 | an empty item costs the base fee and every further chunk one chunk fee more |
| Fees.NoChunks | api.go:405-408 | no data and a negative size count no chunk |
| Fees.FeeMonotoneSubadditive | bundle.go:71-90 | fees grow with size and splitting an item never saves money |
| Fees.PriceExact | api.go:404-412 | the int64 price is the exact one if and only if that fits |
| Fees.FactorBoundsExact | jobs.go:1092-1101 | the factor is the quotient of 100 times the speed fee by the price, raised to 1 when that is 0, exactly when the hundredfold sum fits int64, or the price is 1 and the hundredfold speed fee fits |
| Fees.FactorOverflows | jobs.go:1096-1099 | one pair of inputs past that limit, with a negative factor |
| Fees.NoSpeedFee | jobs.go:1092-1095 | without a speed fee the factor is zero for every price |
| Fees.TruncDivIs | jobs.go:1096 | int64 division truncates toward zero |
| Basics.CasesAgree | jobs.go:472-479 | the two cases of every letter become one, for letters only |
| Basics.CaseLaws | jobs.go:472-479 | case conversion keeps the length, is idempotent and ignores the case before |
| Tables.CrashForgets | jobs.go:39-85 | a crash can come at any time, ends every job and leaves what is written |

## Left out

- HTTP handlers, proxying, CORS, rate limiting, the manifest gateway and ArNS: routing and network calls.
- Range responses and the reference counts of temporary files: self-contained and easier than the rest.
- Peers, gateways, GraphQL, Kafka, everPay and metrics: their answers are parameters of the methods that use them.
- Merkle validation, signatures, bundle encoding, SHA-256, ECIES and UUIDs: ids do not collide and an item's binary
  decodes to the same item each time. Cutting data into chunks is a function of the data, into parts that are not
  empty, with the root it computes. Whether a path is valid is a parameter (`verified`); it says nothing about the
  bytes of a chunk, and nothing in the repository compares a stated size with the length of the data.
- End offsets are stored under a hash of root and size put together; the model keeps the two apart, which is the same
  for roots of one length (`Weave.NamesApart`) and not for others (`Weave.NamesMeet`).
- S3, Aliyun and MongoDB backends and the stream variant of the bundle: the store is one map for each bucket, with
  failing puts.
- GORM and SQL, migrations and statistics: tables are sequences with the stated filters; receipts are identified by
  their row, and uniqueness is that of `EverHash`.
- Amounts and fees are integers in the token's smallest unit; a zero amount is the number 0, while the code compares
  the text with "0".
- Token prices in `GetBundlePerFees` are floating point: base and per-chunk fees are given integers.
- Configuration, command line, generated code and JSON encoding.
- WeaveStore.Store.GetArTxData: the largest size that can be allocated is a parameter, and so is the number of loads
  after which a loop that has not ended is reported as such; `Weave.ReadEnds` says when there is none.
- WeaveStore.Store.SaveSubmitTx: the queue of bundle transactions to parse is not modelled.
- WeaveStore.Store.FetchAndStoreTx: which source delivered the data, the manifest record and the parse queue are not
  modelled.
- Jobs.Arseeding.MergeReceiptEverTxs: one job run meets no concurrent submission or expiry; the machine of
  `Tables.dfy` interleaves the two receipt jobs write by write, and the other jobs as single steps.
- Jobs.Arseeding.OnChainBundleItems: selecting and sending are one step, and so is recording with all its marks.
- Jobs.Arseeding.ProcessExpiredOrd: the deletion of the manifest row is not modelled; nor is a payment that comes
  between the job's query and its update of the order.
- Jobs.Arseeding.ProcessSubmitItem: the signer, the expected block and the API key of an order play no part in the
  model and are left out; whether the signer's address checks out is a parameter, and so is the expiry time.
- Client.PayOrders: the reward transfers of the bundle variant are not modelled; the payment itself is the same.
- Codec.Base64RoundTrip: the decoder of the library skips newlines; the model's decoder refuses them.
- Basics: upper and lower case are those of ASCII.
- `broadcastTxTask`, `syncManifestTask`, `GetTxDataFromPeers` and `ParseAndSaveBundleItems`: compositions of modelled
  operations with network calls.
