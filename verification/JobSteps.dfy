/** What the jobs' loops build up and what each of their actions does to the database. */
module JobSteps {
  import opened Basics
  import opened Tables
  import opened Loops
  import opened Bundling
  import Fees
  import ChainStatus

  /** Receipts older than a day are left alone. */
  const DAY: int := 24 * 60 * 60 * 1000

  predicate Recent(r: Receipt, status: Status, now: int) { r.status == status && r.nonce > now - DAY }

  // ---- which actions are whose ----

  predicate IsMerge(a: Action) { a.MergePay? || a.MergeReject? || a.MergeDeposit? || a.MergeSkip? }

  predicate ByMerge(a: Action) { a.MergeLoad? || IsMerge(a) }

  predicate ByRefund(a: Action) {
    a.RefundLoad? || a.RefundMark? || a.RefundSkip? || a.RefundSend? || a.RefundDrop? || a.RefundNote?
  }

  predicate BySubmit(a: Action) { a.SaveItem? || a.Submit? }

  predicate ByWatch(a: Action) { a.WatchFail? || a.WatchSucceed? }

  predicate ByRetry(a: Action) { a.Retry? }

  // ---- what the loops build up ----

  lemma PayAllStep(orders: seq<Order>, picked: seq<nat>, j: nat, hash: string)
    requires j < |picked| && picked[j] < |orders|
    ensures var w := PayAll(orders, picked[..j], hash);
            PayAll(orders, picked[..j + 1], hash)
            == w[picked[j] := w[picked[j]].(pay := Paid, paymentId := hash)]
  {
    assert picked[..j + 1] == picked[..j] + [picked[j]];
  }

  lemma PicksUnique(orders: seq<Order>, ids: seq<string>, picked: seq<nat>)
    requires Picks(orders, ids, picked)
    ensures forall other :: Picks(orders, ids, other) ==> other == picked
  {
    forall other | Picks(orders, ids, other) ensures other == picked {
      forall j | 0 <= j < |ids| ensures other[j] == picked[j] {
        assert LatestUnpaid(orders, ids[j]) == Some(other[j]);
      }
    }
  }

  lemma PickedExist(orders: seq<Order>, ids: seq<string>, picked: seq<nat>)
    requires Picks(orders, ids, picked)
    ensures forall j :: 0 <= j < |picked| ==> picked[j] < |orders|
  {
    assert forall j :: 0 <= j < |ids| ==> LatestUnpaid(orders, ids[j]).Some?;
  }

  // ---- the actions of the receipt jobs ----

  /** GetReceiptsByStatus: the rows with a status from the last day. */
  function RecentRows(receipts: seq<Receipt>, status: Status, now: int): (rows: seq<nat>)
    ensures Selects(receipts, rows, status)
    ensures forall r :: 0 <= r < |receipts| ==>
              (r in rows <==> receipts[r].status == status && receipts[r].nonce > now - 24 * 60 * 60 * 1000)
    ensures forall i, j :: 0 <= i < j < |rows| ==> rows[i] < rows[j]
  {
    RowsWhere(receipts, (r: Receipt) => Recent(r, status, now))
  }

  /** The status with which a merge action leaves its receipt. */
  function Outcome(a: Action, x: Status): Status {
    if a.MergePay? || (a.MergeDeposit? && a.recorded) then Spent else if a.MergeReject? then UnRefund else x
  }

  /** A payment to an API key is a deposit if its token has a fee and its amount is not zero. */
  predicate IsDeposit(r: Receipt, perFees: map<string, Fees.Fee>) {
    ToUpper(r.symbol) in perFees && r.amount != Int(0)
  }

  /** What merging may make of a receipt; it stays unspent only if a write or the making of a key fails. */
  predicate Merged(x: Receipt, y: Receipt, perFees: map<string, Fees.Fee>, smooth: bool, keyMade: bool) {
    && y == x.(status := y.status)
    && match x.data
       case Unusable => y.status.UnRefund? || (y.status.Unspent? && !smooth)
       case ForItems(_) => y.status.Spent? || y.status.UnRefund? || (y.status.Unspent? && !smooth)
       case ForApiKey =>
         if IsDeposit(x, perFees) then y.status.Spent? || (y.status.Unspent? && !(smooth && keyMade))
         else y.status.UnRefund? || (y.status.Unspent? && !smooth)
  }

  /** Without failures a payment to an API key is spent or sent back as its token and amount say. */
  lemma MergedInFields(x: Receipt, y: Receipt, perFees: map<string, Fees.Fee>, keyMade: bool)
    requires Merged(x, y, perFees, true, keyMade)
    ensures !x.data.ForItems? ==>
              if x.data.ForApiKey? && ToUpper(x.symbol) in perFees && x.amount != Int(0)
              then y.status.Spent? || (y.status.Unspent? && !keyMade)
              else y.status.UnRefund?
  {}

  /** The actions that do it. */
  predicate Settles(a: Action, x: Receipt, perFees: map<string, Fees.Fee>, smooth: bool, keyMade: bool) {
    match x.data
    case Unusable => a.MergeReject? || (a.MergeSkip? && !smooth)
    case ForItems(_) => a.MergePay? || a.MergeReject? || (a.MergeSkip? && !smooth)
    case ForApiKey =>
      if IsDeposit(x, perFees) then
        a == MergeDeposit(true) || (a == MergeDeposit(false) && !smooth) || (a.MergeSkip? && !(smooth && keyMade))
      else a.MergeReject? || (a.MergeSkip? && !smooth)
  }

  lemma SettlesMerged(
    a: Action, x: Receipt, y: Receipt, perFees: map<string, Fees.Fee>, smooth: bool, keyMade: bool)
    requires Settles(a, x, perFees, smooth, keyMade) && x.status.Unspent? && y == x.(status := Outcome(a, x.status))
    ensures Merged(x, y, perFees, smooth, keyMade) && (smooth ==> a != MergeDeposit(false))
  {}

  function Merging(perFees: map<string, Fees.Fee>, keyMade: nat -> bool): Effect<Receipt> {
    (k: nat, x: Receipt, y: Receipt, smooth: bool) => Merged(x, y, perFees, smooth, keyMade(k))
  }

  lemma MergingLenient(perFees: map<string, Fees.Fee>, keyMade: nat -> bool)
    ensures Lenient(Merging(perFees, keyMade))
  {
    forall k, x: Receipt, y: Receipt | Merging(perFees, keyMade)(k, x, y, true)
      ensures Merging(perFees, keyMade)(k, x, y, false)
    {
      assert Merged(x, y, perFees, false, keyMade(k));
    }
  }

  /** Merging changes orders, receipts and balances, and refunding changes receipts and the transfers sent. */
  ghost predicate OnlyMerged(s: Db, t: Db) {
    t == s.(orders := t.orders, receipts := t.receipts, balances := t.balances, merging := t.merging,
            uncounted := t.uncounted)
  }

  ghost predicate OnlyRefunded(s: Db, t: Db) {
    t == s.(receipts := t.receipts, transfers := t.transfers, refunding := t.refunding, refund := t.refund)
  }

  lemma MergeStep(s: Db, a: Action)
    requires IsMerge(a) && Enabled(s, a)
    ensures MergeAt(s) && Next(s, a).merging == s.merging[1..]
    ensures Next(s, a).receipts == SetStatus(s.receipts, s.merging[0], Outcome(a, s.receipts[s.merging[0]].status))
    ensures OnlyMerged(s, Next(s, a)) && (a != MergeDeposit(false) ==> Next(s, a).uncounted == s.uncounted)
  {
    var row := s.merging[0];
    assert s.receipts[row := s.receipts[row]] == s.receipts;
  }

  lemma SkipStep(s: Db)
    requires MergeAt(s)
    ensures Enabled(s, MergeSkip) && Next(s, MergeSkip) == s.(merging := s.merging[1..])
  {}

  lemma DepositStep(s: Db, recorded: bool)
    requires MergeAt(s) && s.receipts[s.merging[0]].data.ForApiKey? && s.receipts[s.merging[0]].amount != Int(0)
    ensures var r := s.receipts[s.merging[0]];
            var acc := AccountOf(r);
            && Enabled(s, MergeDeposit(recorded))
            && Next(s, MergeDeposit(recorded)) == s.(
                 balances := Credit(s.balances, acc.0, acc.1, r.amount),
                 receipts := if recorded then SetStatus(s.receipts, s.merging[0], Spent) else s.receipts,
                 uncounted := if recorded then s.uncounted
                              else s.uncounted[acc := At(s.uncounted, acc) + Value(r.amount)],
                 merging := s.merging[1..])
  {}

  lemma LoadStep(s: Db, rows: seq<nat>)
    requires s.merging == [] && Selects(s.receipts, rows, Unspent)
    ensures Enabled(s, MergeLoad(rows)) && Next(s, MergeLoad(rows)) == s.(merging := rows)
  {}

  /** What the refund job makes of a recent receipt to be refunded. */
  predicate Returned(x: Receipt, y: Receipt, smooth: bool, accepted: bool) {
    && y == x.(status := y.status)
    && (y.status.UnRefund? || y.status.Refunded? || y.status.RefundErr?)
    && (y.status.RefundErr? ==> x.amount.Int? && !accepted)
    && (smooth ==> y.status == if x.amount.Int? && !accepted then RefundErr else Refunded)
  }

  /** The transfer that goes with it. */
  function Payback(row: nat, x: Receipt, y: Receipt): seq<Transfer> {
    if !y.status.UnRefund? && x.amount.Int? then [Transfer(row, x.tag, x.amount.v, x.from)] else []
  }

  function Paybacks(rows: seq<nat>, xs: seq<Receipt>, ys: seq<Receipt>): seq<Transfer>
    requires |xs| == |ys| && forall j :: 0 <= j < |rows| ==> rows[j] < |xs|
  {
    if rows == [] then []
    else
      var last := rows[|rows| - 1];
      Paybacks(rows[..|rows| - 1], xs, ys) + Payback(last, xs[last], ys[last])
  }

  lemma {:induction false} PaybacksSame(rows: seq<nat>, xs: seq<Receipt>, ys: seq<Receipt>, zs: seq<Receipt>)
    requires |xs| == |ys| == |zs|
    requires forall j :: 0 <= j < |rows| ==> rows[j] < |xs| && ys[rows[j]] == zs[rows[j]]
    ensures Paybacks(rows, xs, ys) == Paybacks(rows, xs, zs)
  {
    if rows != [] {
      PaybacksSame(rows[..|rows| - 1], xs, ys, zs);
    }
  }

  lemma PaybacksStep(rows: seq<nat>, i: nat, xs: seq<Receipt>, ys: seq<Receipt>, zs: seq<Receipt>)
    requires |xs| == |ys| == |zs| && i < |rows| && Distinct(rows)
    requires forall j :: 0 <= j < |rows| ==> rows[j] < |xs|
    requires forall r :: 0 <= r < |xs| && r != rows[i] ==> ys[r] == zs[r]
    ensures Paybacks(rows[..i + 1], xs, zs) == Paybacks(rows[..i], xs, ys) + Payback(rows[i], xs[rows[i]], zs[rows[i]])
  {
    PaybacksSame(rows[..i], xs, ys, zs);
    assert rows[..i + 1][..i] == rows[..i];
  }

  function Refunding(accepted: nat -> bool): Effect<Receipt> {
    (k: nat, x: Receipt, y: Receipt, smooth: bool) => Returned(x, y, smooth, accepted(k))
  }

  lemma RefundingLenient(accepted: nat -> bool)
    ensures Lenient(Refunding(accepted))
  {
    forall k, x: Receipt, y: Receipt | Refunding(accepted)(k, x, y, true) ensures Refunding(accepted)(k, x, y, false) {
      assert Returned(x, y, false, accepted(k));
    }
  }

  lemma NoPaybacks(xs: seq<Receipt>)
    ensures Paybacks([], xs, xs) == []
  {}

  lemma RefundLoadStep(s: Db, rows: seq<nat>)
    requires s.refund.Idle? && s.refunding == [] && Selects(s.receipts, rows, UnRefund)
    ensures Enabled(s, RefundLoad(rows)) && Next(s, RefundLoad(rows)) == s.(refunding := rows)
  {}

  lemma RefundMarkStep(s: Db)
    requires RefundAt(s)
    ensures Enabled(s, RefundMark) && Enabled(s, RefundSkip)
    ensures Next(s, RefundSkip) == s.(refunding := s.refunding[1..])
    ensures Next(s, RefundMark) == s.(
              receipts := SetStatus(s.receipts, s.refunding[0], Refunded), refund := Marked(s.refunding[0]),
              refunding := s.refunding[1..])
  {}

  lemma RefundSendStep(s: Db, accepted: bool)
    requires s.refund.Marked? && s.refund.row < |s.receipts|
    ensures var row := s.refund.row;
            var r := s.receipts[row];
            if r.amount.Int? then
              && Enabled(s, RefundSend(accepted))
              && Next(s, RefundSend(accepted)) == s.(
                   transfers := s.transfers + [Transfer(row, r.tag, r.amount.v, r.from)],
                   refund := if accepted then Idle else Refused(row))
            else
              Enabled(s, RefundDrop) && Next(s, RefundDrop) == s.(refund := Idle)
  {}

  lemma RefundNoteStep(s: Db, written: bool)
    requires s.refund.Refused? && s.refund.row < |s.receipts|
    ensures Enabled(s, RefundNote(written))
    ensures Next(s, RefundNote(written)) == s.(
              receipts := if written then SetStatus(s.receipts, s.refund.row, RefundErr) else s.receipts,
              refund := Idle)
  {}

  // ---- submissions, deliveries and spending ----

  lemma SubmitStep(s: Db, o: Order)
    requires o.pay != Expired && o.paymentId == "" && o.chain == Waiting && o.fee.Int? && o.fee.v >= 0
    requires 0 <= o.size <= SUBMIT_MAX_SIZE
    ensures Enabled(s, Submit(o)) && Next(s, Submit(o)) == s.(orders := s.orders + [o])
  {}

  /** The balances with one of them replaced. */
  function WithBalance(
    balances: map<string, map<string, Num>>, address: string, symbol: string, bal: int): map<string, map<string, Num>>
    requires address in balances
  {
    balances[address := balances[address][symbol := Int(bal)]]
  }

  /** The fee that leaves endBal of a balance. */
  lemma SpendStep(s: Db, address: string, symbol: string, endBal: int, fee: int)
    requires fee >= 0 && endBal >= 0 && address in s.balances && ToUpper(symbol) in s.balances[address]
    requires s.balances[address][ToUpper(symbol)] == Int(endBal + fee)
    ensures var sym := ToUpper(symbol);
            && Enabled(s, Spend(address, symbol, fee))
            && Next(s, Spend(address, symbol, fee)) == s.(
                 balances := WithBalance(s.balances, address, sym, endBal),
                 deducted := s.deducted[(address, sym) := At(s.deducted, (address, sym)) + fee])
  {}

  // ---- expiry ----

  /** GetExpiredOrders. */
  function DueRows(orders: seq<Order>, now: int): seq<nat> {
    RowsWhere(orders, (o: Order) => Due(o, now))
  }

  /** IsLatestUnpaidOrd. */
  predicate NoneLater(orders: seq<Order>, x: string, expiry: int) {
    forall j :: 0 <= j < |orders| && IsUnpaidFor(orders[j], x) ==> orders[j].expiry <= expiry
  }

  /** `cur` follows from `was` by expiring the rows of `done` whose update did not fail. */
  ghost predicate ExpiredSoFar(was: seq<Order>, done: seq<nat>, failed: set<nat>, cur: seq<Order>) {
    && |cur| == |was|
    && (forall r :: r in done ==> r < |was| && was[r].pay.Unpaid?)
    && forall r :: 0 <= r < |was| ==>
         cur[r] == if r in done && r !in failed then was[r].(pay := Expired, chain := Failed) else was[r]
  }

  /** Some expired order of x is not outlived by an unpaid one. */
  ghost predicate LastExpired(was: seq<Order>, done: seq<nat>, failed: set<nat>, cur: seq<Order>, x: string) {
    exists m :: m in done && m !in failed && m < |was| && was[m].item == x && NoneLater(cur, x, was[m].expiry)
  }

  lemma SamePaid(was: seq<Order>, done: seq<nat>, failed: set<nat>, cur: seq<Order>, x: string)
    requires ExpiredSoFar(was, done, failed, cur)
    ensures PaidExists(cur, x) <==> PaidExists(was, x)
  {
    if PaidExists(cur, x) {
      var i :| 0 <= i < |cur| && cur[i].item == x && cur[i].pay.Paid?;
      assert was[i].item == x && was[i].pay.Paid?;
    }
    if PaidExists(was, x) {
      var i :| 0 <= i < |was| && was[i].item == x && was[i].pay.Paid?;
      assert cur[i].item == x && cur[i].pay.Paid?;
    }
  }

  lemma ExpireFails(was: seq<Order>, done: seq<nat>, failed: set<nat>, cur: seq<Order>, p: nat)
    requires ExpiredSoFar(was, done, failed, cur) && p < |was| && p !in done && was[p].pay.Unpaid?
    ensures ExpiredSoFar(was, done + [p], failed + {p}, cur)
    ensures forall x :: LastExpired(was, done + [p], failed + {p}, cur, x) <==> LastExpired(was, done, failed, cur, x)
  {}

  /** Expiring one more order makes only its own item deletable, and only if no later unpaid order is left. */
  lemma ExpireOneMore(was: seq<Order>, done: seq<nat>, failed: set<nat>, cur: seq<Order>, p: nat)
    requires ExpiredSoFar(was, done, failed, cur) && p < |was| && p !in done && p !in failed && was[p].pay.Unpaid?
    ensures var more := cur[p := cur[p].(pay := Expired, chain := Failed)];
            && ExpiredSoFar(was, done + [p], failed, more)
            && forall x :: LastExpired(was, done + [p], failed, more, x) <==>
                 LastExpired(was, done, failed, cur, x) || (x == was[p].item && NoneLater(more, x, was[p].expiry))
  {
    var more := cur[p := cur[p].(pay := Expired, chain := Failed)];
    forall x
      ensures LastExpired(was, done + [p], failed, more, x) <==>
              LastExpired(was, done, failed, cur, x) || (x == was[p].item && NoneLater(more, x, was[p].expiry))
    {
      assert p in done + [p];
      if LastExpired(was, done, failed, cur, x) {
        var m :| m in done && m !in failed && m < |was| && was[m].item == x && NoneLater(cur, x, was[m].expiry);
        assert m in done + [p] && NoneLater(more, x, was[m].expiry);
      }
      if LastExpired(was, done + [p], failed, more, x) {
        var m :| m in done + [p] && m !in failed && m < |was| && was[m].item == x && NoneLater(more, x, was[m].expiry);
        if m != p && !NoneLater(cur, x, was[m].expiry) {
          var j :| 0 <= j < |cur| && IsUnpaidFor(cur[j], x) && was[m].expiry < cur[j].expiry;
          assert more[j] == cur[j] || j == p;
          assert NoneLater(more, x, was[p].expiry);
        }
      }
    }
  }

  lemma ExpiredIsAll(orders: seq<Order>, now: int, failed: set<nat>, cur: seq<Order>)
    requires ExpiredSoFar(orders, DueRows(orders, now), failed, cur)
    ensures cur == ExpireAll(orders, now, failed)
    ensures forall j :: 0 <= j < |orders| ==> (cur[j].pay.Unpaid? <==> Remains(orders, now, failed, j))
  {}

  /** At the end, the items the loop may have deleted are those an expiry run deletes. */
  lemma LastExpiredIsDeletable(orders: seq<Order>, now: int, failed: set<nat>, cur: seq<Order>, x: string)
    requires ExpiredSoFar(orders, DueRows(orders, now), failed, cur)
    ensures Deletable(orders, now, failed, x) <==>
            !PaidExists(orders, x) && LastExpired(orders, DueRows(orders, now), failed, cur, x)
  {
    var rows := DueRows(orders, now);
    ExpiredIsAll(orders, now, failed, cur);
    assert forall j :: 0 <= j < |orders| ==> cur[j].item == orders[j].item && cur[j].expiry == orders[j].expiry;
    assert forall m :: 0 <= m < |orders| ==> (m in rows <==> Due(orders[m], now));
    hide ExpiredSoFar, DueRows, ExpireAll, Remains, Due;
    forall m | 0 <= m < |orders| && orders[m].item == x
      ensures m in rows && m !in failed && NoneLater(cur, x, orders[m].expiry) <==> LastToExpire(orders, now, failed, m)
    {}
  }

  /** Exactly the items without a paid order and without a later unpaid one may be gone, and are if all went well. */
  ghost predicate DeletedSoFar(
    was: seq<Order>, done: seq<nat>, failed: set<nat>, cur: seq<Order>, all: set<string>, items: set<string>,
    smooth: bool)
  {
    && items <= all
    && forall x :: x in all ==>
         && (x !in items ==> !PaidExists(was, x) && LastExpired(was, done, failed, cur, x))
         && (smooth && !PaidExists(was, x) && LastExpired(was, done, failed, cur, x) ==> x !in items)
  }

  lemma DeletedFails(
    was: seq<Order>, done: seq<nat>, failed: set<nat>, cur: seq<Order>, p: nat, all: set<string>, items: set<string>,
    before: bool, after: bool)
    requires ExpiredSoFar(was, done, failed, cur) && p < |was| && p !in done && was[p].pay.Unpaid?
    requires DeletedSoFar(was, done, failed, cur, all, items, before) && (after ==> before)
    ensures ExpiredSoFar(was, done + [p], failed + {p}, cur)
    ensures DeletedSoFar(was, done + [p], failed + {p}, cur, all, items, after)
  {
    ExpireFails(was, done, failed, cur, p);
  }

  lemma DeletedOneMore(
    was: seq<Order>, done: seq<nat>, failed: set<nat>, cur: seq<Order>, p: nat, more: seq<Order>, all: set<string>,
    items: set<string>, left: set<string>, before: bool, after: bool)
    requires ExpiredSoFar(was, done, failed, cur) && p < |was| && p !in done && p !in failed && was[p].pay.Unpaid?
    requires DeletedSoFar(was, done, failed, cur, all, items, before) && (after ==> before)
    requires more == cur[p := cur[p].(pay := Expired, chain := Failed)]
    requires left == items ||
               (left == items - {was[p].item} && !PaidExists(more, was[p].item)
                && NoneLater(more, was[p].item, was[p].expiry))
    requires after && !PaidExists(more, was[p].item) && NoneLater(more, was[p].item, was[p].expiry) ==>
               was[p].item !in left
    ensures ExpiredSoFar(was, done + [p], failed, more)
    ensures DeletedSoFar(was, done + [p], failed, more, all, left, after)
  {
    ExpireOneMore(was, done, failed, cur, p);
    SamePaid(was, done + [p], failed, more, was[p].item);
  }

  lemma NoneExpiredYet(was: seq<Order>, all: set<string>, smooth: bool)
    ensures ExpiredSoFar(was, [], {}, was) && DeletedSoFar(was, [], {}, was, all, all, smooth)
  {}

  lemma DueUntouched(was: seq<Order>, i: nat, now: int, failed: set<nat>, cur: seq<Order>)
    requires i < |DueRows(was, now)| && ExpiredSoFar(was, DueRows(was, now)[..i], failed, cur)
    ensures var p := DueRows(was, now)[i];
            && p < |was| == |cur| && was[p].pay.Unpaid? && cur[p] == was[p]
            && p !in DueRows(was, now)[..i]
  {
    assert DueRows(was, now)[i] in DueRows(was, now);
  }

  /** The loop as a whole is one expiry action. */
  lemma ExpiryDone(s: Db, now: int, failed: set<nat>, cur: seq<Order>, items: set<string>, smooth: bool)
    requires ExpiredSoFar(s.orders, DueRows(s.orders, now), failed, cur)
    requires DeletedSoFar(s.orders, DueRows(s.orders, now), failed, cur, s.items, items, smooth)
    requires forall r :: r in failed ==> r in DueRows(s.orders, now)
    ensures cur == ExpireAll(s.orders, now, failed) && items <= s.items
    ensures forall x :: x in s.items - items ==> Deletable(s.orders, now, failed, x)
    ensures smooth ==> forall x :: x in items ==> !Deletable(s.orders, now, failed, x)
    ensures Enabled(s, Expire(now, failed, items))
    ensures Next(s, Expire(now, failed, items)) == s.(orders := cur, items := items)
  {
    ExpiredIsAll(s.orders, now, failed, cur);
    forall x
      ensures Deletable(s.orders, now, failed, x) <==>
              !PaidExists(s.orders, x) && LastExpired(s.orders, DueRows(s.orders, now), failed, cur, x)
    {
      LastExpiredIsDeletable(s.orders, now, failed, cur, x);
    }
  }

  /** The orders after an expiry run, field by field. */
  lemma ExpiredInFields(orders: seq<Order>, now: int, failed: set<nat>)
    ensures |ExpireAll(orders, now, failed)| == |orders|
    ensures forall i :: 0 <= i < |orders| && !(orders[i].pay.Unpaid? && orders[i].expiry < now) ==>
              ExpireAll(orders, now, failed)[i] == orders[i]
    ensures failed == {} ==> forall i :: 0 <= i < |orders| && orders[i].pay.Unpaid? && orders[i].expiry < now ==>
              ExpireAll(orders, now, failed)[i] == orders[i].(pay := Expired, chain := Failed)
  {}

  /** Item x has an order that is paid, or unpaid and not due. */
  ghost predicate StillNeeded(orders: seq<Order>, now: int, x: string) {
    exists i :: 0 <= i < |orders| && orders[i].item == x
                && (orders[i].pay.Paid? || (orders[i].pay.Unpaid? && orders[i].expiry >= now))
  }

  ghost predicate HasDue(orders: seq<Order>, now: int, x: string) {
    exists i :: 0 <= i < |orders| && orders[i].item == x && orders[i].pay.Unpaid? && orders[i].expiry < now
  }

  /** Such a run asks for no item that is still needed, and for every other one with a due order if no update fails. */
  lemma DeletableInFields(orders: seq<Order>, now: int, failed: set<nat>, x: string)
    ensures Deletable(orders, now, failed, x) ==> !StillNeeded(orders, now, x)
    ensures failed == {} && HasDue(orders, now, x) && !StillNeeded(orders, now, x) ==> Deletable(orders, now, failed, x)
  {
    if failed == {} && HasDue(orders, now, x) && !StillNeeded(orders, now, x) {
      var i :| 0 <= i < |orders| && orders[i].item == x && orders[i].pay.Unpaid? && orders[i].expiry < now;
      assert LastToExpire(orders, now, failed, i);
    }
  }

  // ---- bundles ----

  function Sent(sent: map<string, set<string>>, batch: Option<Batch>): map<string, set<string>> {
    if batch.Some? then sent[batch.value.arId := ItemSet(batch.value.items)] else sent
  }

  function Recorded(arTxs: seq<ArTx>, b: Batch): seq<ArTx> {
    arTxs + [ArTx(b.arId, b.items, Pending)]
  }

  lemma BundleSendStep(s: Db, ords: seq<nat>, copied: map<string, Chain>, batch: Option<Batch>)
    requires s.bundleJob.None? && NeedOnChain(s.orders, ords, false) && CopiesOnly(s.orders, copied)
    requires batch.Some? ==> FreshBatch(s, ords, batch.value)
    ensures var a := BundleSend(ords, copied, batch);
            && Enabled(s, a)
            && Next(s, a) == s.(
                 orders := ApplyChain(s.orders, copied), sent := Sent(s.sent, batch), bundleJob := batch)
  {}

  lemma BundleRecordStep(s: Db, recorded: bool, marked: set<string>)
    requires s.bundleJob.Some? && marked <= ItemSet(s.bundleJob.value.items) && (!recorded ==> marked == {})
    ensures var a := BundleRecord(recorded, marked);
            && Enabled(s, a)
            && Next(s, a) == s.(
                 orders := ApplyChain(s.orders, Mark(marked, Pending)),
                 arTxs := if recorded then Recorded(s.arTxs, s.bundleJob.value) else s.arTxs, bundleJob := None)
  {}

  lemma SeqSendStep(s: Db, ords: seq<nat>, copied: map<string, Chain>, batch: Option<Batch>)
    requires s.seqJob.None? && NeedOnChain(s.orders, ords, true) && CopiesOnly(s.orders, copied)
    requires batch.Some? ==> FreshBatch(s, ords, batch.value)
    ensures var a := SeqSend(ords, copied, batch);
            && Enabled(s, a)
            && Next(s, a) == s.(
                 orders := ApplyChain(s.orders, copied), sent := Sent(s.sent, batch), seqJob := batch)
  {}

  lemma SeqRecordStep(s: Db, recorded: bool, marked: set<string>)
    requires s.seqJob.Some? && s.seqJob.value.arId in s.confirmed
    requires marked <= ItemSet(s.seqJob.value.items) && (!recorded ==> marked == {})
    ensures var a := SeqRecord(recorded, marked);
            && Enabled(s, a)
            && Next(s, a) == s.(
                 orders := ApplyChain(s.orders, Mark(marked, Success)),
                 arTxs := if recorded then Recorded(s.arTxs, s.seqJob.value) else s.arTxs, seqJob := None)
  {}

  lemma WatchSucceedStep(s: Db, k: nat)
    requires k < |s.arTxs| && s.arTxs[k].status.Pending? && s.arTxs[k].arId in s.confirmed
    ensures Enabled(s, WatchSucceed(k))
    ensures Next(s, WatchSucceed(k)) == s.(
              arTxs := SetArStatus(s.arTxs, s.arTxs[k].arId, Success),
              orders := ApplyChain(s.orders, Mark(ItemSet(s.arTxs[k].items), Success)))
  {}

  lemma WatchFailStep(s: Db, k: nat)
    requires k < |s.arTxs| && s.arTxs[k].status.Pending?
    ensures Enabled(s, WatchFail(k))
    ensures Next(s, WatchFail(k)) == s.(arTxs := SetArStatus(s.arTxs, s.arTxs[k].arId, Failed))
  {}

  lemma RetryStep(s: Db, k: nat, b: Batch, recorded: bool)
    requires k < |s.arTxs| && s.arTxs[k].status.Failed? && b.arId !in s.sent
    requires ItemSet(b.items) == ItemSet(s.arTxs[k].items) * s.items
    ensures Enabled(s, Retry(k, b.arId, recorded))
    ensures Next(s, Retry(k, b.arId, recorded)) == s.(
              sent := Sent(s.sent, Some(b)),
              arTxs := if recorded then s.arTxs[k := s.arTxs[k].(arId := b.arId, status := Pending)] else s.arTxs)
  {}

  // ---- watching and retrying ----

  /** What the network says of a pending transaction: expired, still open, or confirmed. */
  datatype Answer = Gone | Open | Confirmed

  /** GetArTxByStatus. */
  function RowsWith(arTxs: seq<ArTx>, status: Chain): seq<nat> {
    RowsWhere(arTxs, (r: ArTx) => r.status == status)
  }

  /** With distinct ids an update by ar_id reaches one record. */
  lemma SetArStatusOne(arTxs: seq<ArTx>, k: nat, status: Chain)
    requires k < |arTxs| && ChainStatus.DistinctIds(arTxs)
    ensures SetArStatus(arTxs, arTxs[k].arId, status) == arTxs[k := arTxs[k].(status := status)]
  {}

  /** A watched record: settled as the network says, or left alone when a write fails. */
  predicate Watched(x: ArTx, y: ArTx, answer: Answer, smooth: bool) {
    match answer
    case Open => y == x
    case Gone => y == x.(status := Failed) || (y == x && !smooth)
    case Confirmed => y == x.(status := Success) || (y == x && !smooth)
  }

  /** All orders of the items have succeeded. */
  ghost predicate AllSucceeded(orders: seq<Order>, items: seq<string>) {
    forall i :: 0 <= i < |orders| && orders[i].item in items ==> orders[i].chain.Success?
  }

  function Watching(answers: string -> Answer): Effect<ArTx> {
    (k: nat, x: ArTx, y: ArTx, smooth: bool) => Watched(x, y, answers(x.arId), smooth)
  }

  /** Of the first n rows, those that are successful have all their orders successful. */
  ghost predicate OrdersFollow(rows: seq<nat>, n: nat, xs: seq<ArTx>, ys: seq<ArTx>, orders: seq<Order>) {
    && n <= |rows| && |xs| == |ys|
    && forall j :: 0 <= j < n && rows[j] < |xs| && ys[rows[j]].status.Success? ==>
         AllSucceeded(orders, xs[rows[j]].items)
  }

  /** No order has changed but by succeeding, with a record of its item that was pending and is successful. */
  ghost predicate OnlySucceeded(xs: seq<ArTx>, ys: seq<ArTx>, was: seq<Order>, orders: seq<Order>) {
    && |xs| == |ys| && |was| == |orders|
    && forall i :: 0 <= i < |was| ==>
         || orders[i] == was[i]
         || (orders[i] == was[i].(chain := Success) && Confirming(xs, ys, was[i].item))
  }

  ghost predicate Confirming(xs: seq<ArTx>, ys: seq<ArTx>, x: string) {
    exists k :: 0 <= k < |xs| && k < |ys| && xs[k].status.Pending? && ys[k].status.Success? && x in xs[k].items
  }

  lemma NoneSucceeded(xs: seq<ArTx>, was: seq<Order>)
    ensures OnlySucceeded(xs, xs, was, was)
  {}

  lemma OneMoreSucceeded(
    xs: seq<ArTx>, ys: seq<ArTx>, zs: seq<ArTx>, k: nat, was: seq<Order>, orders: seq<Order>, after: seq<Order>)
    requires OnlySucceeded(xs, ys, was, orders) && k < |xs| && ys[k] == xs[k] && xs[k].status.Pending?
    requires |zs| == |ys| && (forall l :: 0 <= l < |ys| && l != k ==> zs[l] == ys[l]) && |after| == |orders|
    requires forall i :: 0 <= i < |orders| ==>
               || after[i] == orders[i]
               || (after[i] == orders[i].(chain := Success) && zs[k].status.Success? && orders[i].item in xs[k].items)
    ensures OnlySucceeded(xs, zs, was, after)
  {
    forall i | 0 <= i < |was| && after[i] != was[i]
      ensures after[i] == was[i].(chain := Success) && Confirming(xs, zs, was[i].item)
    {
      if orders[i] != was[i] {
        var l :| 0 <= l < |xs| && xs[l].status.Pending? && ys[l].status.Success? && was[i].item in xs[l].items;
        assert zs[l].status.Success?;
      } else {
        assert zs[k].status.Success?;
      }
    }
  }

  lemma WatchingLenient(answers: string -> Answer)
    ensures Lenient(Watching(answers))
  {
    forall k, x: ArTx, y: ArTx | Watching(answers)(k, x, y, true) ensures Watching(answers)(k, x, y, false) {
      assert Watched(x, y, answers(x.arId), false);
    }
  }

  lemma NoneFollows(rows: seq<nat>, xs: seq<ArTx>, orders: seq<Order>)
    ensures OrdersFollow(rows, 0, xs, xs, orders)
  {}

  lemma AllFollow(rows: seq<nat>, xs: seq<ArTx>, ys: seq<ArTx>, orders: seq<Order>)
    requires OrdersFollow(rows, |rows|, xs, ys, orders)
    ensures |xs| == |ys| && forall k :: 0 <= k < |xs| && k in rows && ys[k].status.Success? ==>
              AllSucceeded(orders, xs[k].items)
  {}

  lemma OneMoreFollows(
    rows: seq<nat>, n: nat, xs: seq<ArTx>, ys: seq<ArTx>, zs: seq<ArTx>, orders: seq<Order>, after: seq<Order>)
    requires OrdersFollow(rows, n, xs, ys, orders)
    requires n < |rows| && Distinct(rows) && rows[n] < |xs| && |zs| == |ys|
    requires forall k :: 0 <= k < |ys| && k != rows[n] ==> zs[k] == ys[k]
    requires zs[rows[n]].status.Success? ==> AllSucceeded(after, xs[rows[n]].items)
    requires |orders| == |after| && forall i :: 0 <= i < |orders| ==>
               after[i].item == orders[i].item && (orders[i].chain.Success? ==> after[i].chain.Success?)
    ensures OrdersFollow(rows, n + 1, xs, zs, after)
  {
    forall j | 0 <= j < n + 1 && rows[j] < |xs| && zs[rows[j]].status.Success?
      ensures AllSucceeded(after, xs[rows[j]].items)
    {
      if j < n {
        assert ys[rows[j]] == zs[rows[j]] && AllSucceeded(orders, xs[rows[j]].items);
      }
    }
  }

  lemma SuccessReaches(orders: seq<Order>, items: seq<string>)
    ensures AllSucceeded(ApplyChain(orders, Mark(ItemSet(items), Success)), items)
    ensures var after := ApplyChain(orders, Mark(ItemSet(items), Success));
            |after| == |orders| && forall i :: 0 <= i < |orders| ==>
              after[i] == if orders[i].item in items then orders[i].(chain := Success) else orders[i]
  {}

  /** The ids for the records not dealt with are new to the network and differ from each other. */
  ghost predicate FreshIds(newIds: nat -> Option<string>, done: seq<nat>, sent: map<string, set<string>>) {
    && (forall k {:trigger newIds(k)} :: newIds(k).Some? && k !in done ==> newIds(k).value !in sent)
    && forall k, l {:trigger newIds(k), newIds(l)} :: newIds(k).Some? && newIds(k) == newIds(l) ==> k == l
  }

  lemma FreshIdsStep(
    newIds: nat -> Option<string>, rows: seq<nat>, n: nat, sent: map<string, set<string>>, items: set<string>)
    requires n < |rows| && FreshIds(newIds, rows[..n], sent) && newIds(rows[n]).Some?
    ensures FreshIds(newIds, rows[..n + 1], sent[newIds(rows[n]).value := items])
  {
    assert rows[..n + 1] == rows[..n] + [rows[n]];
  }

  /** The record stands for the bundle that was sent again, if that could be written. */
  predicate Resent(x: ArTx, y: ArTx, newId: Option<string>, smooth: bool) {
    newId.Some? && (y == x.(arId := newId.value, status := Pending) || (y == x && !smooth))
  }

  function Retrying(newIds: nat -> Option<string>): Effect<ArTx> {
    (k: nat, x: ArTx, y: ArTx, smooth: bool) => Resent(x, y, newIds(k), smooth)
  }

  lemma RetryingLenient(newIds: nat -> Option<string>)
    ensures Lenient(Retrying(newIds))
  {
    forall k, x: ArTx, y: ArTx | Retrying(newIds)(k, x, y, true) ensures Retrying(newIds)(k, x, y, false) {
      assert Resent(x, y, newIds(k), false);
    }
  }

  /** Only failed records are touched, and all of them are unless one could not be sent. */
  lemma RetriedInOrder(n: nat, xs: seq<ArTx>, ys: seq<ArTx>, newIds: nat -> Option<string>, smooth: bool)
    requires Treated(RowsWith(xs, Failed), n, xs, ys, Retrying(newIds), smooth)
    requires n < |RowsWith(xs, Failed)| ==> newIds(RowsWith(xs, Failed)[n]).None?
    ensures |xs| == |ys| && forall k :: 0 <= k < |xs| ==>
              ys[k] == xs[k] || (xs[k].status.Failed? && Resent(xs[k], ys[k], newIds(k), smooth))
    ensures smooth && (forall k :: 0 <= k < |xs| ==> newIds(k).Some?) ==>
              forall k :: 0 <= k < |xs| && xs[k].status.Failed? ==> Resent(xs[k], ys[k], newIds(k), true)
  {
    var rows := RowsWith(xs, Failed);
    if n == |rows| {
      assert rows[..n] == rows;
    }
  }
}
