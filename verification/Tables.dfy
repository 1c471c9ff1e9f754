/**
 The bundler's shared state and everything that may happen to it: orders, payment receipts, API-key balances, stored
 items, on-chain records and the network behind them. An action is one write, one database transaction or one run of
 a job. A submission is two actions, saving the item and inserting the order; the two receipt jobs take one action for
 each decision on a receipt, where crediting a deposit and marking its receipt belong together, and the two bundle
 jobs are split into sending and recording.
 */
module Tables {
  import opened Basics

  /** A decimal text: the number it parses to, or none. */
  datatype Num = Int(v: int) | Malformed

  /** A failed decimal.NewFromString yields zero. */
  function Value(n: Num): int { if n.Int? then n.v else 0 }

  datatype Payment = Unpaid | Paid | Expired
  datatype Chain = Waiting | Pending | Success | Failed

  datatype Order = Order(
    item: string, size: int, currency: string, fee: Num, expiry: int,
    pay: Payment, paymentId: string, chain: Chain, sorted: bool)

  datatype Status = Unspent | Spent | UnRefund | Refunded | RefundErr

  /** What parseTxData makes of a receipt's data; an empty list of ids is unusable. */
  datatype TxData = ForItems(ids: seq<string>) | ForApiKey | Unusable

  /** `account` is the sender's address in the form in which API keys are filed. */
  datatype Receipt = Receipt(
    hash: string, symbol: string, tag: string, amount: Num, from: string, account: string, data: TxData, nonce: int,
    status: Status)

  datatype ArTx = ArTx(arId: string, items: seq<string>, status: Chain)

  datatype Batch = Batch(arId: string, items: seq<string>)

  datatype Transfer = Transfer(row: nat, tag: string, amount: int, to: string)

  /** Where the refund job is with the receipt it has taken up. */
  datatype Refund = Idle | Marked(row: nat) | Refused(row: nat)

  /** The largest submission, 1 GiB. */
  const SUBMIT_MAX_SIZE: int := 1024 * 1024 * 1024

  /** The data of one bundle, 2 GiB. */
  const MAX_PER_ON_CHAIN_SIZE: int := 2 * 1024 * 1024 * 1024

  type Account = (string, string) // address and upper-case symbol

  datatype Db = Db(
    orders: seq<Order>,
    receipts: seq<Receipt>,
    balances: map<string, map<string, Num>>, // TokenBalance of the API key of an address
    items: set<string>,                      // item binaries in the store
    arTxs: seq<ArTx>,
    sent: map<string, set<string>>,          // the network: the items of every bundle ever sent
    confirmed: set<string>,                  // its transactions with three confirmations or more
    bundleJob: Option<Batch>,                // the bundle job, between sending and recording
    seqJob: Option<Batch>,                   // the sequential job, the same
    merging: seq<nat>,                       // receipts the merge job has loaded and not handled
    refunding: seq<nat>,                     // the same for the refund job
    refund: Refund,
    transfers: seq<Transfer>,                // refunds sent
    deducted: map<Account, int>,             // fees taken from API-key balances
    uncounted: map<Account, int>)            // deposits credited although the receipt could not be marked spent

  datatype Action =
    | SaveItem(item: string)
    | Submit(order: Order)           // the order row only
    | Deliver(receipt: Receipt)
    | MergeLoad(rows: seq<nat>)
    | MergePay(picked: seq<nat>)
    | MergeReject(priced: bool)      // to be refunded; `priced` says whether the symbol has a fee
    | MergeDeposit(recorded: bool)
    | MergeSkip                      // a write or a key could not be made; the receipt stays unspent
    | RefundLoad(rows: seq<nat>)
    | RefundMark
    | RefundSkip                     // the mark could not be written
    | RefundSend(accepted: bool)
    | RefundDrop                     // the amount does not parse
    | RefundNote(written: bool)      // after a refused transfer
    | Spend(address: string, symbol: string, fee: int)
    | Expire(now: int, failed: set<nat>, kept: set<string>) // orders not updated, items not deleted
    | BundleSend(ords: seq<nat>, copied: map<string, Chain>, batch: Option<Batch>)
    | BundleRecord(recorded: bool, marked: set<string>)
    | SeqSend(ords: seq<nat>, copied: map<string, Chain>, batch: Option<Batch>)
    | SeqRecord(recorded: bool, marked: set<string>)
    | SeqDrop
    | Confirm(arId: string)
    | WatchFail(k: nat)
    | WatchSucceed(k: nat)
    | Retry(k: nat, arId: string, recorded: bool)
    | Crash

  const INIT: Db :=
    Db([], [], map[], {}, [], map[], {}, None, None, [], [], Idle, [], map[], map[])

  // ---- queries ----

  predicate IsUnpaidFor(o: Order, x: string) { o.item == x && o.pay.Unpaid? }

  /** GetUnPaidOrder takes the last one. */
  function LatestUnpaid(orders: seq<Order>, x: string): (r: Option<nat>)
    ensures r.Some? ==> r.value < |orders| && IsUnpaidFor(orders[r.value], x)
    ensures r.Some? ==> forall i :: r.value < i < |orders| ==> !IsUnpaidFor(orders[i], x)
    ensures r.None? ==> forall i :: 0 <= i < |orders| ==> !IsUnpaidFor(orders[i], x)
  {
    if orders == [] then None
    else if IsUnpaidFor(orders[|orders| - 1], x) then Some(|orders| - 1)
    else LatestUnpaid(orders[..|orders| - 1], x)
  }

  predicate PaidExists(orders: seq<Order>, x: string) {
    exists i :: 0 <= i < |orders| && orders[i].item == x && orders[i].pay.Paid?
  }

  predicate Processed(o: Order) { o.chain.Pending? || o.chain.Success? }

  /** ExistProcessedOrderItem takes the first one. */
  function FirstProcessed(orders: seq<Order>, x: string): (r: Option<nat>)
    ensures r.Some? ==> r.value < |orders| && orders[r.value].item == x && Processed(orders[r.value])
    ensures r.Some? ==> forall i :: 0 <= i < r.value ==> !(orders[i].item == x && Processed(orders[i]))
    ensures r.None? ==> forall i :: 0 <= i < |orders| && orders[i].item == x ==> !Processed(orders[i])
  {
    if orders == [] then None
    else
      var n := |orders| - 1;
      var r := FirstProcessed(orders[..n], x);
      if r.Some? then r
      else if orders[n].item == x && Processed(orders[n]) then Some(n)
      else None
  }

  // ---- payment ----

  ghost predicate Picks(orders: seq<Order>, ids: seq<string>, picked: seq<nat>) {
    && |picked| == |ids|
    && forall j :: 0 <= j < |ids| ==> LatestUnpaid(orders, ids[j]) == Some(picked[j])
  }

  function OrderFees(orders: seq<Order>, picked: seq<nat>): seq<int>
    requires forall j :: 0 <= j < |picked| ==> picked[j] < |orders|
  {
    seq(|picked|, j requires 0 <= j < |picked| => Value(orders[picked[j]].fee))
  }

  /** checkOrdersCurrency and checkOrdersAmount accept. */
  ghost predicate Covers(orders: seq<Order>, picked: seq<nat>, r: Receipt) {
    && (forall j :: 0 <= j < |picked| ==> picked[j] < |orders|)
    && (forall j :: 0 <= j < |picked| ==>
          && orders[picked[j]].fee.Int?
          && ToUpper(orders[picked[j]].currency) == ToUpper(r.symbol))
    && r.amount.Int? && Sum(OrderFees(orders, picked)) <= r.amount.v
  }

  /** Every item has an unpaid order, and the receipt covers the latest of each. */
  ghost predicate Payable(orders: seq<Order>, r: Receipt) {
    r.data.ForItems? && exists picked :: Picks(orders, r.data.ids, picked) && Covers(orders, picked, r)
  }

  function PayAll(orders: seq<Order>, picked: seq<nat>, hash: string): seq<Order> {
    seq(|orders|, i requires 0 <= i < |orders| =>
      if i in picked then orders[i].(pay := Paid, paymentId := hash) else orders[i])
  }

  /** Why the merge job sends a receipt to be refunded. */
  ghost predicate Refundable(orders: seq<Order>, r: Receipt, priced: bool) {
    match r.data
    case Unusable => true
    case ForItems(_) => !Payable(orders, r)
    case ForApiKey => !priced || r.amount == Int(0)
  }

  // ---- API keys ----

  function At(m: map<Account, int>, a: Account): int { if a in m then m[a] else 0 }

  /** The account a deposit goes to. */
  function AccountOf(r: Receipt): Account { (r.account, ToUpper(r.symbol)) }

  function Credit(balances: map<string, map<string, Num>>, address: string, symbol: string, amount: Num)
    : map<string, map<string, Num>>
  {
    if address !in balances then balances[address := map[symbol := amount]]
    else if symbol in balances[address] then
      balances[address := balances[address][symbol := Int(Value(amount) + Value(balances[address][symbol]))]]
    else balances[address := balances[address][symbol := amount]]
  }

  // ---- expiry ----

  predicate Due(o: Order, now: int) { o.pay.Unpaid? && o.expiry < now }

  /** Unpaid after a run of the expiry job at `now` in which the updates in `failed` fail. */
  predicate Remains(orders: seq<Order>, now: int, failed: set<nat>, i: nat)
    requires i < |orders|
  {
    orders[i].pay.Unpaid? && (Due(orders[i], now) ==> i in failed)
  }

  /** Order i is expired by the run, and no unpaid order of its item that remains expires later. */
  ghost predicate LastToExpire(orders: seq<Order>, now: int, failed: set<nat>, i: nat)
    requires i < |orders|
  {
    && Due(orders[i], now) && i !in failed
    && forall j :: 0 <= j < |orders| && orders[j].item == orders[i].item && Remains(orders, now, failed, j) ==>
         orders[j].expiry <= orders[i].expiry
  }

  /** The expiry run asks for the deletion of item x. */
  ghost predicate Deletable(orders: seq<Order>, now: int, failed: set<nat>, x: string) {
    && !PaidExists(orders, x)
    && exists i :: 0 <= i < |orders| && orders[i].item == x && LastToExpire(orders, now, failed, i)
  }

  function ExpireAll(orders: seq<Order>, now: int, failed: set<nat>): seq<Order> {
    seq(|orders|, i requires 0 <= i < |orders| =>
      if Due(orders[i], now) && i !in failed then orders[i].(pay := Expired, chain := Failed) else orders[i])
  }

  // ---- on-chain status ----

  /** UpdateOrdOnChainStatus for every item of `upd`: it reaches all orders of the item, whatever their state. */
  function ApplyChain(orders: seq<Order>, upd: map<string, Chain>): seq<Order> {
    seq(|orders|, i requires 0 <= i < |orders| =>
      if orders[i].item in upd then orders[i].(chain := upd[orders[i].item]) else orders[i])
  }

  function Mark(items: set<string>, status: Chain): map<string, Chain> {
    map x | x in items :: status
  }

  function ItemSet(items: seq<string>): set<string> {
    set x | x in items
  }

  /** The rows GetNeedOnChainOrders or GetNeedOnChainOrdersSorted may return. */
  ghost predicate NeedOnChain(orders: seq<Order>, ords: seq<nat>, sorted: bool) {
    forall j :: 0 <= j < |ords| ==>
      && ords[j] < |orders|
      && orders[ords[j]].pay.Paid? && orders[ords[j]].chain.Waiting? && orders[ords[j]].sorted == sorted
  }

  /** Items whose waiting orders take over the status of a processed order of the same item. */
  ghost predicate CopiesOnly(orders: seq<Order>, copied: map<string, Chain>) {
    forall x :: x in copied ==>
      FirstProcessed(orders, x).Some? && copied[x] == orders[FirstProcessed(orders, x).value].chain
  }

  /** A bundle under a new transaction id, of stored items that no processed order has and a listed order waits for. */
  ghost predicate FreshBatch(s: Db, ords: seq<nat>, b: Batch) {
    && b.arId !in s.sent
    && forall x :: x in b.items ==>
         && x in s.items && FirstProcessed(s.orders, x).None?
         && exists j :: 0 <= j < |ords| && ords[j] < |s.orders| && s.orders[ords[j]].item == x
  }

  /** Updates by ar_id reach every record with that id. */
  function SetArStatus(arTxs: seq<ArTx>, arId: string, status: Chain): seq<ArTx> {
    seq(|arTxs|, i requires 0 <= i < |arTxs| =>
      if arTxs[i].arId == arId then arTxs[i].(status := status) else arTxs[i])
  }

  // ---- the machine ----

  ghost predicate Selects(receipts: seq<Receipt>, rows: seq<nat>, status: Status) {
    Distinct(rows) && forall j :: 0 <= j < |rows| ==> rows[j] < |receipts| && receipts[rows[j]].status == status
  }

  ghost predicate MergeAt(s: Db) {
    s.merging != [] && s.merging[0] < |s.receipts|
  }

  ghost predicate RefundAt(s: Db) {
    s.refund.Idle? && s.refunding != [] && s.refunding[0] < |s.receipts|
  }

  function SetStatus(receipts: seq<Receipt>, row: nat, status: Status): seq<Receipt>
    requires row < |receipts|
  {
    receipts[row := receipts[row].(status := status)]
  }

  ghost predicate Enabled(s: Db, a: Action) {
    match a
    case SaveItem(_) => true
    case Submit(o) =>
      && o.pay != Expired && o.paymentId == "" && o.chain == Waiting && o.fee.Int? && o.fee.v >= 0
      && 0 <= o.size <= SUBMIT_MAX_SIZE
    case Deliver(r) =>
      && r.status == Unspent && r.hash != "" && Value(r.amount) >= 0 && r.data != ForItems([])
      && forall i :: 0 <= i < |s.receipts| ==> s.receipts[i].hash != r.hash
    case MergeLoad(rows) => s.merging == [] && Selects(s.receipts, rows, Unspent)
    case MergePay(picked) =>
      && MergeAt(s) && s.receipts[s.merging[0]].data.ForItems?
      && Picks(s.orders, s.receipts[s.merging[0]].data.ids, picked)
      && Covers(s.orders, picked, s.receipts[s.merging[0]])
    case MergeReject(priced) => MergeAt(s) && Refundable(s.orders, s.receipts[s.merging[0]], priced)
    case MergeDeposit(_) =>
      MergeAt(s) && s.receipts[s.merging[0]].data.ForApiKey? && s.receipts[s.merging[0]].amount != Int(0)
    case MergeSkip => MergeAt(s)
    case RefundLoad(rows) => s.refund.Idle? && s.refunding == [] && Selects(s.receipts, rows, UnRefund)
    case RefundMark => RefundAt(s)
    case RefundSkip => RefundAt(s)
    case RefundSend(_) => s.refund.Marked? && s.refund.row < |s.receipts| && s.receipts[s.refund.row].amount.Int?
    case RefundDrop => s.refund.Marked? && s.refund.row < |s.receipts| && s.receipts[s.refund.row].amount.Malformed?
    case RefundNote(_) => s.refund.Refused? && s.refund.row < |s.receipts|
    case Spend(addr, sym, fee) =>
      && fee >= 0 && addr in s.balances && ToUpper(sym) in s.balances[addr]
      && s.balances[addr][ToUpper(sym)].Int? && s.balances[addr][ToUpper(sym)].v >= fee
    case Expire(now, failed, kept) =>
      forall i :: i in failed ==> i < |s.orders| && Due(s.orders[i], now)
    case BundleSend(ords, copied, batch) =>
      && s.bundleJob.None? && NeedOnChain(s.orders, ords, false) && CopiesOnly(s.orders, copied)
      && (batch.Some? ==> FreshBatch(s, ords, batch.value))
    case BundleRecord(recorded, marked) =>
      && s.bundleJob.Some? && marked <= ItemSet(s.bundleJob.value.items)
      && (!recorded ==> marked == {})
    case SeqSend(ords, copied, batch) =>
      && s.seqJob.None? && NeedOnChain(s.orders, ords, true) && CopiesOnly(s.orders, copied)
      && (batch.Some? ==> FreshBatch(s, ords, batch.value))
    case SeqRecord(recorded, marked) =>
      && s.seqJob.Some? && s.seqJob.value.arId in s.confirmed && marked <= ItemSet(s.seqJob.value.items)
      && (!recorded ==> marked == {})
    case SeqDrop => true
    case Confirm(arId) => arId in s.sent
    case WatchFail(k) => k < |s.arTxs| && s.arTxs[k].status.Pending?
    case WatchSucceed(k) => k < |s.arTxs| && s.arTxs[k].status.Pending? && s.arTxs[k].arId in s.confirmed
    case Retry(k, arId, _) => k < |s.arTxs| && s.arTxs[k].status.Failed? && arId !in s.sent
    case Crash => true
  }

  ghost function Next(s: Db, a: Action): Db
    requires Enabled(s, a)
  {
    match a
    case SaveItem(x) => s.(items := s.items + {x})
    case Submit(o) => s.(orders := s.orders + [o])
    case Deliver(r) => s.(receipts := s.receipts + [r])
    case MergeLoad(rows) => s.(merging := rows)
    case MergePay(picked) =>
      s.(orders := PayAll(s.orders, picked, s.receipts[s.merging[0]].hash),
         receipts := SetStatus(s.receipts, s.merging[0], Spent), merging := s.merging[1..])
    case MergeReject(_) => s.(receipts := SetStatus(s.receipts, s.merging[0], UnRefund), merging := s.merging[1..])
    case MergeDeposit(recorded) =>
      var row := s.merging[0];
      var r := s.receipts[row];
      var acc := AccountOf(r);
      var credited := s.(balances := Credit(s.balances, acc.0, acc.1, r.amount), merging := s.merging[1..]);
      if recorded then credited.(receipts := SetStatus(s.receipts, row, Spent))
      else credited.(uncounted := s.uncounted[acc := At(s.uncounted, acc) + Value(r.amount)])
    case MergeSkip => s.(merging := s.merging[1..])
    case RefundLoad(rows) => s.(refunding := rows)
    case RefundMark =>
      s.(receipts := SetStatus(s.receipts, s.refunding[0], Refunded), refund := Marked(s.refunding[0]),
         refunding := s.refunding[1..])
    case RefundSkip => s.(refunding := s.refunding[1..])
    case RefundSend(accepted) =>
      var r := s.receipts[s.refund.row];
      s.(transfers := s.transfers + [Transfer(s.refund.row, r.tag, r.amount.v, r.from)],
         refund := if accepted then Idle else Refused(s.refund.row))
    case RefundDrop => s.(refund := Idle)
    case RefundNote(written) =>
      s.(receipts := if written then SetStatus(s.receipts, s.refund.row, RefundErr) else s.receipts, refund := Idle)
    case Spend(addr, sym, fee) =>
      var acc := (addr, ToUpper(sym));
      s.(balances := s.balances[addr := s.balances[addr][acc.1 := Int(s.balances[addr][acc.1].v - fee)]],
         deducted := s.deducted[acc := At(s.deducted, acc) + fee])
    case Expire(now, failed, kept) =>
      s.(orders := ExpireAll(s.orders, now, failed),
         items := set x | x in s.items && (Deletable(s.orders, now, failed, x) ==> x in kept))
    case BundleSend(ords, copied, batch) =>
      s.(orders := ApplyChain(s.orders, copied),
         sent := if batch.Some? then s.sent[batch.value.arId := ItemSet(batch.value.items)] else s.sent,
         bundleJob := batch)
    case BundleRecord(recorded, marked) =>
      s.(orders := ApplyChain(s.orders, Mark(marked, Pending)),
         arTxs := if recorded then s.arTxs + [ArTx(s.bundleJob.value.arId, s.bundleJob.value.items, Pending)]
                  else s.arTxs,
         bundleJob := None)
    case SeqSend(ords, copied, batch) =>
      s.(orders := ApplyChain(s.orders, copied),
         sent := if batch.Some? then s.sent[batch.value.arId := ItemSet(batch.value.items)] else s.sent,
         seqJob := batch)
    case SeqRecord(recorded, marked) =>
      s.(orders := ApplyChain(s.orders, Mark(marked, Success)),
         arTxs := if recorded then s.arTxs + [ArTx(s.seqJob.value.arId, s.seqJob.value.items, Pending)] else s.arTxs,
         seqJob := None)
    case SeqDrop => s.(seqJob := None)
    case Confirm(arId) => s.(confirmed := s.confirmed + {arId})
    case WatchFail(k) => s.(arTxs := SetArStatus(s.arTxs, s.arTxs[k].arId, Failed))
    case WatchSucceed(k) =>
      s.(arTxs := SetArStatus(s.arTxs, s.arTxs[k].arId, Success),
         orders := ApplyChain(s.orders, Mark(ItemSet(s.arTxs[k].items), Success)))
    case Retry(k, arId, recorded) =>
      s.(sent := s.sent[arId := ItemSet(s.arTxs[k].items) * s.items],
         arTxs := if recorded then s.arTxs[k := s.arTxs[k].(arId := arId, status := Pending)] else s.arTxs)
    case Crash => s.(bundleJob := None, seqJob := None, merging := [], refunding := [], refund := Idle)
  }

  /** What a payment does. */
  lemma PayStep(s: Db, picked: seq<nat>)
    requires MergeAt(s) && s.receipts[s.merging[0]].data.ForItems?
    requires Picks(s.orders, s.receipts[s.merging[0]].data.ids, picked)
    requires Covers(s.orders, picked, s.receipts[s.merging[0]])
    ensures Enabled(s, MergePay(picked))
    ensures Next(s, MergePay(picked)) == s.(
              orders := PayAll(s.orders, picked, s.receipts[s.merging[0]].hash),
              receipts := SetStatus(s.receipts, s.merging[0], Spent), merging := s.merging[1..])
  {}

  /** A crash can come at any time; it ends every job where it stands and leaves what is written. */
  lemma CrashForgets(s: Db)
    ensures Enabled(s, Crash)
    ensures var t := Next(s, Crash);
            && t.bundleJob.None? && t.seqJob.None? && t.merging == [] && t.refunding == [] && t.refund.Idle?
            && s == t.(bundleJob := s.bundleJob, seqJob := s.seqJob, merging := s.merging, refunding := s.refunding,
                       refund := s.refund)
  {}

  /** The actions that change orders, and those that change receipts. */
  predicate TouchesOrders(a: Action) {
    || a.Submit? || a.MergePay? || a.Expire? || a.BundleSend? || a.BundleRecord? || a.SeqSend? || a.SeqRecord?
    || a.WatchSucceed?
  }

  predicate TouchesReceipts(a: Action) {
    a.Deliver? || a.MergePay? || a.MergeReject? || a.MergeDeposit? || a.RefundMark? || a.RefundNote?
  }

  /** What an action does to the orders. */
  ghost function OrdersAfter(s: Db, a: Action): seq<Order>
    requires Enabled(s, a)
  {
    match a
    case Submit(o) => s.orders + [o]
    case MergePay(picked) => PayAll(s.orders, picked, s.receipts[s.merging[0]].hash)
    case Expire(now, failed, _) => ExpireAll(s.orders, now, failed)
    case _ => ApplyChain(s.orders, Updates(s, a))
  }

  /** The status updates of an action: item by item, reaching every order of the item. */
  ghost function Updates(s: Db, a: Action): (upd: map<string, Chain>)
    requires Enabled(s, a)
    ensures forall x :: x in upd ==> upd[x].Pending? || upd[x].Success?
  {
    match a
    case BundleSend(_, copied, _) => copied
    case BundleRecord(_, marked) => Mark(marked, Pending)
    case SeqSend(_, copied, _) => copied
    case SeqRecord(_, marked) => Mark(marked, Success)
    case WatchSucceed(k) => Mark(ItemSet(s.arTxs[k].items), Success)
    case _ => map[]
  }

  lemma NextOrders(s: Db, a: Action)
    requires Enabled(s, a)
    ensures Next(s, a).orders == OrdersAfter(s, a)
  {
    assert ApplyChain(s.orders, map[]) == s.orders;
    hide Picks, Covers, Refundable, Selects, FreshBatch, NeedOnChain, CopiesOnly, Credit, SetStatus, Deletable;
    hide ApplyChain, PayAll, ExpireAll, Mark, ItemSet, SetArStatus;
  }

  /** What an action does to the on-chain records. */
  ghost function RecordsAfter(s: Db, a: Action): seq<ArTx>
    requires Enabled(s, a)
  {
    match a
    case BundleRecord(true, _) => s.arTxs + [ArTx(s.bundleJob.value.arId, s.bundleJob.value.items, Pending)]
    case SeqRecord(true, _) => s.arTxs + [ArTx(s.seqJob.value.arId, s.seqJob.value.items, Pending)]
    case WatchFail(k) => SetArStatus(s.arTxs, s.arTxs[k].arId, Failed)
    case WatchSucceed(k) => SetArStatus(s.arTxs, s.arTxs[k].arId, Success)
    case Retry(k, arId, true) => s.arTxs[k := s.arTxs[k].(arId := arId, status := Pending)]
    case _ => s.arTxs
  }

  lemma NextRecords(s: Db, a: Action)
    requires Enabled(s, a)
    ensures Next(s, a).arTxs == RecordsAfter(s, a)
  {
    hide Picks, Covers, Refundable, Selects, FreshBatch, NeedOnChain, CopiesOnly, Credit, SetStatus, Deletable;
    hide ApplyChain, PayAll, ExpireAll, Mark, ItemSet, SetArStatus;
  }

  /** What an action does to the bundles under way. */
  lemma NextJobs(s: Db, a: Action)
    requires Enabled(s, a)
    ensures Next(s, a).bundleJob ==
            if a.BundleSend? then a.batch else if a.BundleRecord? || a.Crash? then None else s.bundleJob
    ensures Next(s, a).seqJob ==
            if a.SeqSend? then a.batch else if a.SeqRecord? || a.SeqDrop? || a.Crash? then None else s.seqJob
  {
    hide Picks, Covers, Refundable, Selects, FreshBatch, NeedOnChain, CopiesOnly, Credit, SetStatus, Deletable;
    hide ApplyChain, PayAll, ExpireAll, Mark, ItemSet, SetArStatus;
  }

  ghost predicate IsRun(s: Db, run: Run<Action>)
    decreases run, 0
  {
    run.Then? ==> IsRun(s, run.before) && Enabled(Exec(s, run.before), run.act)
  }

  ghost function Exec(s: Db, run: Run<Action>): Db
    requires IsRun(s, run)
    decreases run, 1
  {
    if run.Begin? then s else Next(Exec(s, run.before), run.act)
  }

  lemma Nothing()
    ensures IsRun(INIT, Begin) && Exec(INIT, Begin) == INIT
  {}

  /** A run goes on by one action, from the state s it has led to. */
  lemma GoOn(run: Run<Action>, s: Db, a: Action, t: Db)
    requires IsRun(INIT, run) && Exec(INIT, run) == s && Enabled(s, a) && Next(s, a) == t
    ensures IsRun(INIT, Then(run, a)) && Exec(INIT, Then(run, a)) == t
  {}
}
