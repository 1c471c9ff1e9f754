/** The paying side: how the SDK batches orders into transfers, and that the bundler accepts what it sends. */
module Client {
  import opened Basics
  import opened Tables

  /** How many orders one transfer pays at most. */
  const BATCH: nat := 500

  /** An order as the server returned it; no fee is the empty text of a bundler that charges nothing. */
  datatype RespOrder = RespOrder(itemId: string, bundler: string, currency: string, fee: Option<Num>)

  /** A transfer to the bundler with its payment data. */
  datatype EverTx = EverTx(tag: string, to: string, amount: int, ids: seq<string>)

  datatype Error = OrderIsNull | TooMany | Mixed | FeeIncorrect | NoToken | NoBalances | Insufficient | NotSent

  datatype Outcome = Sent(tx: EverTx) | NoFee | Fail(error: Error)

  /** What the SDK sees of everPay: the tags of a symbol, the balances, and whether a transfer goes through. */
  datatype Wallet = Wallet(tags: string -> seq<string>, balances: Option<map<string, int>>, sends: EverTx -> bool)

  // ---- one transfer ----

  predicate Uniform(orders: seq<RespOrder>) {
    forall i :: 0 <= i < |orders| ==> orders[i].bundler == orders[0].bundler && orders[i].currency == orders[0].currency
  }

  predicate Numeric(orders: seq<RespOrder>) {
    forall i :: 0 <= i < |orders| ==> orders[i].fee.Some? && orders[i].fee.value.Int?
  }

  function FeesOf(orders: seq<RespOrder>): seq<int>
    requires Numeric(orders)
  {
    seq(|orders|, i requires 0 <= i < |orders| => orders[i].fee.value.v)
  }

  function IdsOf(orders: seq<RespOrder>): seq<string> {
    seq(|orders|, i requires 0 <= i < |orders| => orders[i].itemId)
  }

  /** The wallet holds enough of a token tag. */
  predicate Holds(w: Wallet, tag: string, amount: int) {
    w.balances.Some? && tag in w.balances.value && w.balances.value[tag] >= amount
  }

  /** A transfer that pays for exactly these orders. */
  predicate PaysFor(tx: EverTx, orders: seq<RespOrder>) {
    && 0 < |orders| <= BATCH && Uniform(orders) && Numeric(orders)
    && tx.to == orders[0].bundler && tx.amount == Sum(FeesOf(orders)) && tx.ids == IdsOf(orders)
  }

  /** The tag to pay with: the last one that holds enough. */
  function UseTag(w: Wallet, tags: seq<string>, amount: int): (tag: Option<string>)
    ensures tag.Some? ==> tag.value in tags && Holds(w, tag.value, amount)
    ensures tag.None? ==> forall t :: t in tags ==> !Holds(w, t, amount)
  {
    if tags == [] then None
    else if Holds(w, tags[|tags| - 1], amount) then Some(tags[|tags| - 1])
    else UseTag(w, tags[..|tags| - 1], amount)
  }

  /** The transfer for a list that can be paid for. */
  function TransferFor(w: Wallet, orders: seq<RespOrder>): Option<EverTx> {
    if 0 < |orders| <= BATCH && Uniform(orders) && Numeric(orders) then
      var amount := Sum(FeesOf(orders));
      var tag := UseTag(w, w.tags(orders[0].currency), amount);
      if tag.None? then None else Some(EverTx(tag.value, orders[0].bundler, amount, IdsOf(orders)))
    else None
  }

  /** A bundler without fees needs no payment; otherwise a transfer can be made and goes through. */
  predicate Settles(w: Wallet, orders: seq<RespOrder>) {
    orders != [] &&
    (orders[0].fee.None? || (TransferFor(w, orders).Some? && w.sends(TransferFor(w, orders).value)))
  }

  /** What an amount is computed for: at most 500 orders of one bundler and one token, with fees that are numbers. */
  ghost predicate Billable(orders: seq<RespOrder>) {
    0 < |orders| <= 500 && Uniform(orders) && Numeric(orders)
  }

  /** Why a list cannot be paid for: the first reason that applies. */
  ghost predicate FailsAs(w: Wallet, orders: seq<RespOrder>, e: Error) {
    match e
    case OrderIsNull => orders == []
    case TooMany => orders != [] && orders[0].fee.Some? && |orders| > 500
    case Mixed => 0 < |orders| <= 500 && orders[0].fee.Some? && !Uniform(orders)
    case FeeIncorrect => 0 < |orders| <= 500 && orders[0].fee.Some? && Uniform(orders) && !Numeric(orders)
    case NoToken => Billable(orders) && w.tags(orders[0].currency) == []
    case NoBalances => Billable(orders) && w.tags(orders[0].currency) != [] && w.balances.None?
    case Insufficient =>
      && Billable(orders) && w.tags(orders[0].currency) != [] && w.balances.Some?
      && forall t :: t in w.tags(orders[0].currency) ==> !Holds(w, t, Sum(FeesOf(orders)))
    case NotSent => Billable(orders) && TransferFor(w, orders).Some? && !w.sends(TransferFor(w, orders).value)
  }

  method CheckOrders(orders: seq<RespOrder>) returns (ok: bool)
    requires orders != []
    ensures ok <==> Uniform(orders)
  {
    for i := 1 to |orders|
      invariant forall k :: 0 <= k < i ==>
                  orders[k].bundler == orders[0].bundler && orders[k].currency == orders[0].currency
    {
      if orders[i].bundler != orders[0].bundler || orders[i].currency != orders[0].currency {
        return false;
      }
    }
    return true;
  }

  method TotalFee(orders: seq<RespOrder>) returns (totalFee: int, itemIds: seq<string>, ok: bool)
    ensures ok <==> Numeric(orders)
    ensures ok ==> totalFee == Sum(FeesOf(orders)) && itemIds == IdsOf(orders)
  {
    totalFee, itemIds := 0, [];
    for i := 0 to |orders|
      invariant Numeric(orders[..i])
      invariant totalFee == Sum(FeesOf(orders[..i])) && itemIds == IdsOf(orders[..i])
    {
      assert orders[..i + 1] == orders[..i] + [orders[i]];
      if orders[i].fee.None? || orders[i].fee.value.Malformed? {
        return totalFee, itemIds, false;
      }
      totalFee := totalFee + orders[i].fee.value.v;
      itemIds := itemIds + [orders[i].itemId];
      assert FeesOf(orders[..i + 1]) == FeesOf(orders[..i]) + [orders[i].fee.value.v];
    }
    assert orders[..|orders|] == orders;
    ok := true;
  }

  method FindTag(w: Wallet, tags: seq<string>, amount: int) returns (tag: Option<string>)
    ensures tag == UseTag(w, tags, amount)
  {
    tag := None;
    for i := 0 to |tags|
      invariant tag == UseTag(w, tags[..i], amount)
    {
      assert tags[..i + 1][..i] == tags[..i];
      if w.balances.Some? && tags[i] in w.balances.value && w.balances.value[tags[i]] >= amount {
        tag := Some(tags[i]);
      }
    }
    assert tags[..|tags|] == tags;
  }

  /** PayOrders: one transfer for one to 500 orders of one bundler and one token with well-formed fees. */
  method PayOrders(w: Wallet, orders: seq<RespOrder>) returns (r: Outcome)
    ensures r.Fail? <==> !Settles(w, orders)
    ensures r.NoFee? <==> orders != [] && orders[0].fee.None?
    ensures r.Sent? ==> TransferFor(w, orders) == Some(r.tx) && PaysFor(r.tx, orders) && w.sends(r.tx)
    ensures r.Sent? ==> r.tx.tag in w.tags(orders[0].currency) && Holds(w, r.tx.tag, r.tx.amount)
    ensures forall e :: r == Fail(e) <==> FailsAs(w, orders, e)
  {
    if |orders| == 0 {
      return Fail(OrderIsNull);
    }
    if orders[0].fee.None? {
      return NoFee;
    }
    if |orders| > BATCH {
      return Fail(TooMany);
    }
    var ok := CheckOrders(orders);
    if !ok {
      return Fail(Mixed);
    }
    var totalFee, itemIds: seq<string>;
    totalFee, itemIds, ok := TotalFee(orders);
    if !ok {
      return Fail(FeeIncorrect);
    }
    var tokenTags := w.tags(orders[0].currency);
    if |tokenTags| == 0 {
      return Fail(NoToken);
    }
    if w.balances.None? {
      return Fail(NoBalances);
    }
    var useTag := FindTag(w, tokenTags, totalFee);
    if useTag.None? {
      return Fail(Insufficient);
    }
    var tx := EverTx(useTag.value, orders[0].bundler, totalFee, itemIds);
    return if w.sends(tx) then Sent(tx) else Fail(NotSent);
  }

  // ---- batches ----

  function BatchCount(n: nat): nat {
    if n <= BATCH then 1 else (n + BATCH - 1) / BATCH
  }

  function Min(a: int, b: int): int { if a <= b then a else b }

  function Batch(orders: seq<RespOrder>, j: nat): seq<RespOrder>
    requires j < BatchCount(|orders|)
  {
    orders[BATCH * j..Min(BATCH * (j + 1), |orders|)]
  }

  function Concat(orders: seq<RespOrder>, n: nat): seq<RespOrder>
    requires n <= BatchCount(|orders|)
  {
    if n == 0 then [] else Concat(orders, n - 1) + Batch(orders, n - 1)
  }

  lemma {:induction false} ConcatPrefix(orders: seq<RespOrder>, n: nat)
    requires n <= BatchCount(|orders|)
    ensures Concat(orders, n) == orders[..Min(BATCH * n, |orders|)]
  {
    if n > 0 {
      ConcatPrefix(orders, n - 1);
    }
  }

  /** Any nonempty list is cut into nonempty batches of at most 500, which together are the list. */
  lemma BatchesPartition(orders: seq<RespOrder>)
    requires orders != []
    ensures forall j :: 0 <= j < BatchCount(|orders|) ==> 0 < |Batch(orders, j)| <= 500
    ensures Concat(orders, BatchCount(|orders|)) == orders
  {
    ConcatPrefix(orders, BatchCount(|orders|));
  }

  /** What has been sent for the first batches of a list: nothing where there is no fee, else the batch's transfer. */
  ghost predicate Settled(wallets: nat -> Wallet, orders: seq<RespOrder>, sent: seq<Outcome>) {
    && |sent| <= BatchCount(|orders|)
    && forall j :: 0 <= j < |sent| ==>
         var batch := Batch(orders, j);
         && Settles(wallets(j), batch)
         && if batch[0].fee.None? then sent[j].NoFee?
            else sent[j].Sent? && PaysFor(sent[j].tx, batch) && TransferFor(wallets(j), batch) == Some(sent[j].tx)
  }

  lemma OneMoreSettled(wallets: nat -> Wallet, orders: seq<RespOrder>, sent: seq<Outcome>, o: Outcome)
    requires Settled(wallets, orders, sent) && |sent| < BatchCount(|orders|)
    requires var batch := Batch(orders, |sent|);
             && Settles(wallets(|sent|), batch)
             && if batch[0].fee.None? then o.NoFee?
                else o.Sent? && PaysFor(o.tx, batch) && TransferFor(wallets(|sent|), batch) == Some(o.tx)
    ensures Settled(wallets, orders, sent + [o])
  {}

  lemma SettledSoFar(wallets: nat -> Wallet, orders: seq<RespOrder>, sent: seq<Outcome>)
    requires Settled(wallets, orders, sent)
    ensures |sent| <= BatchCount(|orders|)
    ensures forall j :: 0 <= j < |sent| ==> Settles(wallets(j), Batch(orders, j))
  {}

  /**
   BatchPayOrders: the batches are paid in order up to the first that cannot be. `wallets` is what the SDK sees while
   it pays each batch, `sent` what has gone out in the end. An error hides the transfers of the batches before it.
   */
  method BatchPayOrders(wallets: nat -> Wallet, orders: seq<RespOrder>)
    returns (everTxs: seq<Outcome>, err: Option<Error>, ghost sent: seq<Outcome>)
    ensures Settled(wallets, orders, sent)
    ensures err.None? <==> forall j :: 0 <= j < BatchCount(|orders|) ==> Settles(wallets(j), Batch(orders, j))
    ensures err.None? ==> everTxs == sent && |sent| == BatchCount(|orders|)
    ensures err.Some? ==>
              && everTxs == [] && |sent| < BatchCount(|orders|) && !Settles(wallets(|sent|), Batch(orders, |sent|))
              && FailsAs(wallets(|sent|), Batch(orders, |sent|), err.value)
    ensures orders == [] ==> err == Some(OrderIsNull)
  {
    sent := [];
    assert Settled(wallets, orders, sent);
    hide Settled, Settles, PaysFor, TransferFor, FailsAs;
    if |orders| <= BATCH {
      assert Batch(orders, 0) == orders;
      var everTx := PayOrders(wallets(0), orders);
      if everTx.Fail? {
        return [], Some(everTx.error), sent;
      }
      OneMoreSettled(wallets, orders, [], everTx);
      assert [] + [everTx] == [everTx];
      return [everTx], None, [everTx];
    }
    everTxs := [];
    var start, end := 0, BATCH;
    while true
      invariant start == BATCH * |everTxs| < |orders| && end == Min(start + BATCH, |orders|)
      invariant |everTxs| < BatchCount(|orders|) && sent == everTxs
      invariant Settled(wallets, orders, sent)
      decreases |orders| - start
    {
      var subOrders := orders[start..end];
      assert subOrders == Batch(orders, |everTxs|);
      var everTx := PayOrders(wallets(|everTxs|), subOrders);
      if everTx.Fail? {
        return [], Some(everTx.error), sent;
      }
      OneMoreSettled(wallets, orders, sent, everTx);
      everTxs := everTxs + [everTx];
      sent := everTxs;
      start := end;
      end := end + BATCH;
      if end > |orders| {
        end := |orders|;
      }
      if start == end {
        break;
      }
    }
    SettledSoFar(wallets, orders, sent);
    err := None;
  }

  // ---- agreement with the bundler ----

  /** The list names, for distinct items, the latest unpaid order of each as the bundler has it. */
  ghost predicate Matches(orders: seq<Order>, list: seq<RespOrder>) {
    && Distinct(IdsOf(list))
    && forall k :: 0 <= k < |list| ==>
         var p := LatestUnpaid(orders, list[k].itemId);
         && p.Some? && list[k].fee == Some(orders[p.value].fee) && list[k].currency == orders[p.value].currency
  }

  /** The rows of those orders. */
  function Rows(orders: seq<Order>, list: seq<RespOrder>): (rows: seq<nat>)
    ensures |rows| == |list|
  {
    seq(|list|, k requires 0 <= k < |list| =>
      var p := LatestUnpaid(orders, list[k].itemId); if p.Some? then p.value else 0)
  }

  /** The receipt that a transfer becomes at the bundler. */
  ghost predicate ReceiptOf(r: Receipt, tx: EverTx, symbol: string) {
    r.data == ForItems(tx.ids) && r.amount == Int(tx.amount) && ToUpper(r.symbol) == ToUpper(symbol)
  }

  /** A transfer for matching orders is accepted, and what it pays for is exactly these orders. */
  lemma TransferAccepted(orders: seq<Order>, list: seq<RespOrder>, tx: EverTx, r: Receipt)
    requires Matches(orders, list) && PaysFor(tx, list) && ReceiptOf(r, tx, list[0].currency)
    ensures Picks(orders, tx.ids, Rows(orders, list)) && Covers(orders, Rows(orders, list), r)
    ensures forall picked :: Picks(orders, tx.ids, picked) ==> picked == Rows(orders, list)
    ensures !Refundable(orders, r, true)
  {
    var rows := Rows(orders, list);
    forall k | 0 <= k < |list| ensures LatestUnpaid(orders, tx.ids[k]) == Some(rows[k]) {
      assert LatestUnpaid(orders, list[k].itemId).Some?;
    }
    forall k | 0 <= k < |list|
      ensures orders[rows[k]].fee.Int? && ToUpper(orders[rows[k]].currency) == ToUpper(r.symbol)
    {
      assert LatestUnpaid(orders, tx.ids[k]) == Some(rows[k]);
    }
    assert OrderFees(orders, rows) == FeesOf(list);
    forall picked | Picks(orders, tx.ids, picked) ensures picked == rows {
      forall k | 0 <= k < |list| ensures picked[k] == rows[k] {
        assert LatestUnpaid(orders, tx.ids[k]) == Some(picked[k]);
      }
    }
  }

  lemma {:induction false} LatestUnpaidSame(xs: seq<Order>, ys: seq<Order>, x: string)
    requires |xs| == |ys|
    requires forall i :: 0 <= i < |xs| ==> xs[i] == ys[i] || (xs[i].item != x && ys[i].item != x)
    ensures LatestUnpaid(xs, x) == LatestUnpaid(ys, x)
  {
    if xs != [] {
      LatestUnpaidSame(xs[..|xs| - 1], ys[..|ys| - 1], x);
    }
  }

  /** Paying one list leaves the orders of another with other items open and matching. */
  lemma PayingKeepsOthers(orders: seq<Order>, paid: seq<RespOrder>, rest: seq<RespOrder>, hash: string)
    requires Matches(orders, paid) && Matches(orders, rest)
    requires forall k, l :: 0 <= k < |paid| && 0 <= l < |rest| ==> paid[k].itemId != rest[l].itemId
    ensures var after := PayAll(orders, Rows(orders, paid), hash);
            Matches(after, rest) && Rows(after, rest) == Rows(orders, rest)
  {
    var rows := Rows(orders, paid);
    var after := PayAll(orders, rows, hash);
    forall l | 0 <= l < |rest| ensures LatestUnpaid(after, rest[l].itemId) == LatestUnpaid(orders, rest[l].itemId) {
      forall i | 0 <= i < |orders| && i in rows ensures orders[i].item != rest[l].itemId {
        var k :| 0 <= k < |rows| && rows[k] == i;
        assert LatestUnpaid(orders, paid[k].itemId).Some?;
      }
      LatestUnpaidSame(orders, after, rest[l].itemId);
    }
    forall l | 0 <= l < |rest|
      ensures var p := LatestUnpaid(after, rest[l].itemId);
              && p.Some? && rest[l].fee == Some(after[p.value].fee) && rest[l].currency == after[p.value].currency
    {
      assert LatestUnpaid(orders, rest[l].itemId).Some?;
    }
  }

  // ---- batch after batch ----

  /** The merge job is about to handle the receipts of the transfers, one for each batch of the list. */
  ghost predicate Delivered(s: Db, list: seq<RespOrder>, txs: seq<EverTx>) {
    && list != [] && Matches(s.orders, list)
    && |txs| == BatchCount(|list|) <= |s.merging| && Distinct(s.merging)
    && forall j :: 0 <= j < |txs| ==>
         && PaysFor(txs[j], Batch(list, j)) && s.merging[j] < |s.receipts|
         && ReceiptOf(s.receipts[s.merging[j]], txs[j], Batch(list, j)[0].currency)
  }

  lemma BatchMatches(orders: seq<Order>, list: seq<RespOrder>, j: nat)
    requires Matches(orders, list) && j < BatchCount(|list|)
    ensures Matches(orders, Batch(list, j))
    ensures forall k :: 0 <= k < |Batch(list, j)| ==>
              BATCH * j + k < |list| && Batch(list, j)[k] == list[BATCH * j + k]
              && Rows(orders, Batch(list, j))[k] == Rows(orders, list)[BATCH * j + k]
    ensures BATCH * j <= Min(BATCH * (j + 1), |list|)
    ensures Rows(orders, Batch(list, j)) == Rows(orders, list)[BATCH * j..Min(BATCH * (j + 1), |list|)]
  {
    var batch := Batch(list, j);
    forall k, l | 0 <= k < l < |batch| ensures IdsOf(batch)[k] != IdsOf(batch)[l] {
      assert IdsOf(list)[BATCH * j + k] != IdsOf(list)[BATCH * j + l];
    }
  }

  lemma BatchesApart(list: seq<RespOrder>, i: nat, j: nat)
    requires Distinct(IdsOf(list)) && i < j < BatchCount(|list|)
    ensures forall k, l :: 0 <= k < |Batch(list, i)| && 0 <= l < |Batch(list, j)| ==>
              Batch(list, i)[k].itemId != Batch(list, j)[l].itemId
  {
    forall k, l | 0 <= k < |Batch(list, i)| && 0 <= l < |Batch(list, j)|
      ensures Batch(list, i)[k].itemId != Batch(list, j)[l].itemId
    {
      assert IdsOf(list)[BATCH * i + k] != IdsOf(list)[BATCH * j + l];
    }
  }

  /** The run in which the merge job lets each of the first n receipts pay for its batch. */
  ghost function PayRun(s: Db, list: seq<RespOrder>, n: nat): Run<Action>
    requires n <= BatchCount(|list|)
  {
    if n == 0 then Begin else Then(PayRun(s, list, n - 1), MergePay(Rows(s.orders, Batch(list, n - 1))))
  }

  /** After the first n batches: the rest of the receipts and orders are as they were. */
  ghost predicate PaidUpTo(s: Db, list: seq<RespOrder>, n: nat, t: Db)
    requires n <= BatchCount(|list|) <= |s.merging|
  {
    && t.merging == s.merging[n..] && |t.receipts| == |s.receipts| && |t.orders| == |s.orders|
    && (forall j :: n <= j < |s.merging| && s.merging[j] < |s.receipts| ==>
          t.receipts[s.merging[j]] == s.receipts[s.merging[j]])
    && (forall j :: 0 <= j < n && s.merging[j] < |s.receipts| ==>
          t.receipts[s.merging[j]] == s.receipts[s.merging[j]].(status := Spent))
    && forall j :: n <= j < BatchCount(|list|) ==>
         Matches(t.orders, Batch(list, j)) && Rows(t.orders, Batch(list, j)) == Rows(s.orders, Batch(list, j))
  }

  lemma PayNext(s: Db, list: seq<RespOrder>, txs: seq<EverTx>, n: nat, t: Db)
    requires Delivered(s, list, txs) && n < |txs| && PaidUpTo(s, list, n, t)
    ensures var rows := Rows(s.orders, Batch(list, n));
            && Enabled(t, MergePay(rows))
            && Next(t, MergePay(rows)).orders == PayAll(t.orders, rows, s.receipts[s.merging[n]].hash)
            && PaidUpTo(s, list, n + 1, Next(t, MergePay(rows)))
  {
    var row := s.merging[n];
    var r := s.receipts[row];
    var batch := Batch(list, n);
    var rows := Rows(s.orders, batch);
    assert t.merging[0] == row && t.receipts[row] == r;
    TransferAccepted(t.orders, batch, txs[n], r);
    PayStep(t, rows);
    hide Enabled, Next, Picks, Covers, ReceiptOf, PaysFor, Uniform, Numeric, Matches, LatestUnpaid, Rows;
    LaterKept(s, list, n, t, r.hash);
  }

  /** Paying batch n leaves the later ones open and matching. */
  lemma LaterKept(s: Db, list: seq<RespOrder>, n: nat, t: Db, hash: string)
    requires n < BatchCount(|list|) && Distinct(IdsOf(list))
    requires forall j :: n <= j < BatchCount(|list|) ==>
               Matches(t.orders, Batch(list, j)) && Rows(t.orders, Batch(list, j)) == Rows(s.orders, Batch(list, j))
    ensures var after := PayAll(t.orders, Rows(s.orders, Batch(list, n)), hash);
            forall j :: n + 1 <= j < BatchCount(|list|) ==>
              Matches(after, Batch(list, j)) && Rows(after, Batch(list, j)) == Rows(s.orders, Batch(list, j))
  {
    hide Matches, LatestUnpaid, Rows, PayAll;
    forall j | n + 1 <= j < BatchCount(|list|)
      ensures var after := PayAll(t.orders, Rows(s.orders, Batch(list, n)), hash);
              Matches(after, Batch(list, j)) && Rows(after, Batch(list, j)) == Rows(s.orders, Batch(list, j))
    {
      BatchesApart(list, n, j);
      PayingKeepsOthers(t.orders, Batch(list, n), Batch(list, j), hash);
    }
  }

  lemma NonePaidYet(s: Db, list: seq<RespOrder>, txs: seq<EverTx>)
    requires Delivered(s, list, txs)
    ensures PaidUpTo(s, list, 0, s) && PaidExactly(s, list, 0, s.orders)
  {
    forall j | 0 <= j < BatchCount(|list|) ensures Matches(s.orders, Batch(list, j)) {
      BatchMatches(s.orders, list, j);
    }
    RowsDistinct(s.orders, list);
  }

  lemma RowsDistinct(orders: seq<Order>, list: seq<RespOrder>)
    requires Matches(orders, list)
    ensures Distinct(Rows(orders, list)) && forall k :: 0 <= k < |list| ==> Rows(orders, list)[k] < |orders|
  {
    var rows := Rows(orders, list);
    forall k | 0 <= k < |list| ensures rows[k] < |orders| && orders[rows[k]].item == IdsOf(list)[k] {
      assert LatestUnpaid(orders, list[k].itemId).Some?;
    }
  }

  /** The first n of the rows are paid under their hashes, and no other order is touched. */
  ghost predicate PaidRows(orders: seq<Order>, rows: seq<nat>, hashes: seq<string>, n: nat, after: seq<Order>) {
    && |after| == |orders| && n <= |rows| == |hashes|
    && (forall k :: 0 <= k < n ==>
          rows[k] < |orders| && after[rows[k]] == orders[rows[k]].(pay := Paid, paymentId := hashes[k]))
    && forall i :: 0 <= i < |after| && i !in rows[..n] ==> after[i] == orders[i]
  }

  lemma PayMoreRows(
    orders: seq<Order>, rows: seq<nat>, hashes: seq<string>, n: nat, m: nat, before: seq<Order>, hash: string)
    requires Distinct(rows) && n <= m <= |rows| && forall k :: 0 <= k < |rows| ==> rows[k] < |orders|
    requires PaidRows(orders, rows, hashes, n, before)
    requires forall k :: n <= k < m ==> hashes[k] == hash
    ensures PaidRows(orders, rows, hashes, m, PayAll(before, rows[n..m], hash))
  {
    var after := PayAll(before, rows[n..m], hash);
    assert rows[..m] == rows[..n] + rows[n..m];
    forall k | 0 <= k < m ensures after[rows[k]] == orders[rows[k]].(pay := Paid, paymentId := hashes[k]) {
      if k < n {
        assert rows[k] !in rows[n..m];
      } else {
        assert rows[k] !in rows[..n];
        assert rows[n..m][k - n] == rows[k];
      }
    }
  }

  /** For each listed order, the hash of the receipt of its batch. */
  function Hashes(s: Db, list: seq<RespOrder>): seq<string> {
    seq(|list|, k requires 0 <= k < |list| =>
      var j := k / BATCH;
      if j < |s.merging| && s.merging[j] < |s.receipts| then s.receipts[s.merging[j]].hash else "")
  }

  /** The orders of the first n batches are paid, each by the receipt of its batch, and no other order is touched. */
  ghost predicate PaidExactly(s: Db, list: seq<RespOrder>, n: nat, after: seq<Order>) {
    PaidRows(s.orders, Rows(s.orders, list), Hashes(s, list), Min(BATCH * n, |list|), after)
  }

  lemma BatchHash(s: Db, list: seq<RespOrder>, n: nat, k: nat)
    requires n < |s.merging| && s.merging[n] < |s.receipts|
    requires BATCH * n <= k < BATCH * (n + 1) && k < |list|
    ensures Hashes(s, list)[k] == s.receipts[s.merging[n]].hash
  {
    assert k / BATCH == n;
  }

  lemma PaidExactlyStep(s: Db, list: seq<RespOrder>, txs: seq<EverTx>, n: nat, before: seq<Order>)
    requires Delivered(s, list, txs) && n < |txs| && PaidExactly(s, list, n, before)
    ensures PaidExactly(s, list, n + 1,
                        PayAll(before, Rows(s.orders, Batch(list, n)), s.receipts[s.merging[n]].hash))
  {
    var low, high, hash := BATCH * n, Min(BATCH * (n + 1), |list|), s.receipts[s.merging[n]].hash;
    RowsDistinct(s.orders, list);
    BatchMatches(s.orders, list, n);
    forall k | low <= k < high ensures Hashes(s, list)[k] == hash {
      BatchHash(s, list, n, k);
    }
    hide *;
    PayMoreRows(s.orders, Rows(s.orders, list), Hashes(s, list), low, high, before, hash);
  }

  /**
   Each transfer in turn is accepted: the payments of all batches are a run of the merge job, after which exactly the
   listed orders are paid, each by the receipt of its batch, and those receipts are spent.
   */
  lemma {:induction false} PaidBatchByBatch(s: Db, list: seq<RespOrder>, txs: seq<EverTx>, n: nat)
    requires Delivered(s, list, txs) && n <= |txs|
    ensures IsRun(s, PayRun(s, list, n))
    ensures var t := Exec(s, PayRun(s, list, n)); PaidUpTo(s, list, n, t) && PaidExactly(s, list, n, t.orders)
  {
    hide Enabled, Next, PaidUpTo, PaidExactly, Matches, PaysFor, ReceiptOf;
    if n == 0 {
      NonePaidYet(s, list, txs);
    } else {
      PaidBatchByBatch(s, list, txs, n - 1);
      var t := Exec(s, PayRun(s, list, n - 1));
      PayNext(s, list, txs, n - 1, t);
      PaidExactlyStep(s, list, txs, n - 1, t.orders);
    }
  }

  /** So when all transfers of a list have been handled, its orders are paid and no other order has changed. */
  lemma WholeListPaid(s: Db, list: seq<RespOrder>, txs: seq<EverTx>)
    requires Delivered(s, list, txs)
    ensures IsRun(s, PayRun(s, list, |txs|))
    ensures var rows, after := Rows(s.orders, list), Exec(s, PayRun(s, list, |txs|));
            && |after.orders| == |s.orders| && |after.receipts| == |s.receipts|
            && (forall k :: 0 <= k < |list| ==>
                  && rows[k] < |s.orders| && k / BATCH < |txs|
                  && after.orders[rows[k]] == s.orders[rows[k]].(
                       pay := Paid, paymentId := s.receipts[s.merging[k / BATCH]].hash))
            && (forall i :: 0 <= i < |s.orders| && i !in rows ==> after.orders[i] == s.orders[i])
            && forall j :: 0 <= j < |txs| ==> after.receipts[s.merging[j]].status.Spent?
  {
    PaidBatchByBatch(s, list, txs, |txs|);
    hide Enabled, Next, IsRun, Exec, Matches, PayRun, PaysFor, ReceiptOf, LatestUnpaid;
    var rows := Rows(s.orders, list);
    assert rows[..|list|] == rows;
    forall k | 0 <= k < |list|
      ensures k / BATCH < |txs| && Hashes(s, list)[k] == s.receipts[s.merging[k / BATCH]].hash
    {
      BatchHash(s, list, k / BATCH, k);
    }
  }
}
