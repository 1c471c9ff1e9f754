/** What a receipt pays for: the orders carrying its hash, which it covers, and no order twice. */
module Payments {
  import opened Basics
  import opened Tables
  import Receipts

  /** The fees of the distinct orders that carry a receipt's hash. */
  function CarriedFee(orders: seq<Order>, hash: string): int {
    if orders == [] then 0
    else
      var n := |orders| - 1;
      CarriedFee(orders[..n], hash) + if orders[n].paymentId == hash then Value(orders[n].fee) else 0
  }

  ghost predicate CarriedBy(orders: seq<Order>, hash: string) {
    exists i :: 0 <= i < |orders| && orders[i].paymentId == hash
  }

  lemma {:induction false} CarriedSame(xs: seq<Order>, ys: seq<Order>, hash: string)
    requires |xs| == |ys|
    requires forall i :: 0 <= i < |xs| ==>
               (xs[i].paymentId == hash <==> ys[i].paymentId == hash) && xs[i].fee == ys[i].fee
    ensures CarriedFee(xs, hash) == CarriedFee(ys, hash)
  {
    if xs != [] {
      CarriedSame(xs[..|xs| - 1], ys[..|ys| - 1], hash);
    }
  }

  lemma {:induction false} NotCarried(orders: seq<Order>, hash: string)
    requires !CarriedBy(orders, hash)
    ensures CarriedFee(orders, hash) == 0
  {
    if orders != [] {
      var front := orders[..|orders| - 1];
      assert forall i :: 0 <= i < |front| ==> front[i] == orders[i];
      NotCarried(front, hash);
    }
  }

  /** One more order taking over the hash adds its fee. */
  lemma {:induction false} CarriedOneMore(orders: seq<Order>, p: nat, o: Order, hash: string)
    requires p < |orders| && orders[p].paymentId != hash && o.paymentId == hash && o.fee == orders[p].fee
    ensures CarriedFee(orders[p := o], hash) == CarriedFee(orders, hash) + Value(o.fee)
  {
    var n := |orders| - 1;
    if p == n {
      assert orders[p := o][..n] == orders[..n];
    } else {
      assert orders[p := o][..n] == orders[..n][p := o];
      CarriedOneMore(orders[..n], p, o, hash);
    }
  }

  /** One more picked order carries the hash once, and is charged for each time it is picked. */
  lemma CarriedPayLast(orders: seq<Order>, front: seq<nat>, p: nat, hash: string)
    requires p < |orders| && orders[p].paymentId != hash
    requires forall j :: 0 <= j < |front| ==> front[j] < |orders|
    ensures CarriedFee(PayAll(orders, front + [p], hash), hash) ==
            CarriedFee(PayAll(orders, front, hash), hash) + if p in front then 0 else Value(orders[p].fee)
    ensures Sum(OrderFees(orders, front + [p])) == Sum(OrderFees(orders, front)) + Value(orders[p].fee)
  {
    var before, o := PayAll(orders, front, hash), orders[p].(pay := Paid, paymentId := hash);
    assert OrderFees(orders, front + [p]) == OrderFees(orders, front) + [Value(orders[p].fee)];
    if p in front {
      assert PayAll(orders, front + [p], hash) == before;
    } else {
      assert PayAll(orders, front + [p], hash) == before[p := o];
      CarriedOneMore(before, p, o, hash);
    }
  }

  /**
   Marking the picked orders paid gives a new hash their fees. An order picked twice is charged twice but carries the
   hash once, so the two sides are equal for distinct orders and the charge errs on the safe side for others.
   */
  lemma {:induction false} CarriedPayAll(orders: seq<Order>, picked: seq<nat>, hash: string)
    requires forall j :: 0 <= j < |picked| ==> picked[j] < |orders|
    requires forall j :: 0 <= j < |picked| ==> Value(orders[picked[j]].fee) >= 0
    requires !CarriedBy(orders, hash)
    ensures CarriedFee(PayAll(orders, picked, hash), hash) <= Sum(OrderFees(orders, picked))
    ensures Distinct(picked) ==> CarriedFee(PayAll(orders, picked, hash), hash) == Sum(OrderFees(orders, picked))
  {
    if picked == [] {
      assert PayAll(orders, picked, hash) == orders;
      NotCarried(orders, hash);
    } else {
      hide PayAll, CarriedFee, OrderFees, Sum;
      var front, p := picked[..|picked| - 1], picked[|picked| - 1];
      assert picked == front + [p] && orders[p].paymentId != hash;
      CarriedPayAll(orders, front, hash);
      CarriedPayLast(orders, front, p, hash);
    }
  }

  // ---- invariants ----

  ghost predicate Hashes(receipts: seq<Receipt>) {
    && (forall r :: 0 <= r < |receipts| ==> receipts[r].hash != "")
    && forall r, q :: 0 <= r < q < |receipts| ==> receipts[r].hash != receipts[q].hash
  }

  /** Receipt r is spent on items. */
  predicate SpentOnItems(r: Receipt) { r.status.Spent? && r.data.ForItems? }

  /** A spent receipt accounts for the payment of order o. */
  ghost predicate PaidFor(receipts: seq<Receipt>, o: Order, r: nat) {
    && r < |receipts| && SpentOnItems(receipts[r]) && receipts[r].hash == o.paymentId
    && ToUpper(o.currency) == ToUpper(receipts[r].symbol)
    && o.item in receipts[r].data.ids
  }

  ghost predicate PaidRight(s: Db, o: Order) {
    && o.fee.Int? && o.fee.v >= 0
    && (o.paymentId != "" ==> o.pay.Paid? && exists r :: PaidFor(s.receipts, o, r))
  }

  ghost predicate Covered(s: Db, r: Receipt) {
    SpentOnItems(r) ==> r.amount.Int? && CarriedFee(s.orders, r.hash) <= r.amount.v
  }

  ghost predicate Inv(s: Db) {
    && Hashes(s.receipts)
    && (forall i :: 0 <= i < |s.orders| ==> PaidRight(s, s.orders[i]))
    && (forall r :: 0 <= r < |s.receipts| ==> Covered(s, s.receipts[r]))
  }

  /** The hash of a receipt that is not spent is on no order. */
  lemma UnspentNotCarried(s: Db, r: nat)
    requires Inv(s) && r < |s.receipts| && !SpentOnItems(s.receipts[r])
    ensures !CarriedBy(s.orders, s.receipts[r].hash)
  {
    forall i | 0 <= i < |s.orders| ensures s.orders[i].paymentId != s.receipts[r].hash {
      assert PaidRight(s, s.orders[i]);
    }
  }

  // ---- one step ----

  lemma HashesPreserved(s: Db, a: Action)
    requires Hashes(s.receipts) && Enabled(s, a)
    ensures Hashes(Next(s, a).receipts)
  {
    var t := Next(s, a);
    if !a.Deliver? {
      assert |t.receipts| == |s.receipts|;
      assert forall r :: 0 <= r < |s.receipts| ==> t.receipts[r].hash == s.receipts[r].hash;
    }
  }

  /** A step pays an order only when it was unpaid and picked for the receipt being merged. */
  lemma OrderStep(s: Db, a: Action, i: nat)
    requires Enabled(s, a) && i < |s.orders|
    ensures |s.orders| <= |Next(s, a).orders|
    ensures var o, n := s.orders[i], Next(s, a).orders[i];
            && n == o.(pay := n.pay, paymentId := n.paymentId, chain := n.chain)
            && if a.MergePay? && i in a.picked
               then o.pay.Unpaid? && n.pay.Paid? && n.paymentId == s.receipts[s.merging[0]].hash
               else n.paymentId == o.paymentId && (o.pay.Paid? ==> n.pay.Paid?)
  {
    NextOrders(s, a);
    hide Next, Covers, Refundable, Selects, FreshBatch, NeedOnChain, CopiesOnly, Mark, ItemSet, Updates, FirstProcessed;
  }

  lemma SpentStays(s: Db, a: Action, o: Order, r: nat)
    requires Receipts.Inv(s) && Enabled(s, a) && PaidFor(s.receipts, o, r)
    ensures PaidFor(Next(s, a).receipts, o, r)
  {
    Receipts.StepMoves(s, a, r);
  }

  lemma PickedPaidFor(s: Db, a: Action, i: nat)
    requires a.MergePay? && Enabled(s, a) && i in a.picked
    ensures i < |s.orders| && PaidFor(Next(s, a).receipts, Next(s, a).orders[i], s.merging[0])
  {
    var j :| 0 <= j < |a.picked| && a.picked[j] == i;
    assert LatestUnpaid(s.orders, s.receipts[s.merging[0]].data.ids[j]) == Some(i);
  }

  lemma PaidRightStep(s: Db, a: Action, i: nat)
    requires Inv(s) && Receipts.Inv(s) && Enabled(s, a) && i < |Next(s, a).orders|
    ensures PaidRight(Next(s, a), Next(s, a).orders[i])
  {
    if i < |s.orders| {
      OrderStep(s, a, i);
      var o, n := s.orders[i], Next(s, a).orders[i];
      assert PaidRight(s, o);
      if a.MergePay? && i in a.picked {
        PickedPaidFor(s, a, i);
      } else if o.paymentId != "" {
        var r :| PaidFor(s.receipts, o, r);
        SpentStays(s, a, o, r);
        assert PaidFor(Next(s, a).receipts, n, r);
      }
    }
  }

  /** A step leaves what a hash carries alone, unless it spends the receipt with that hash. */
  lemma CarriedStep(s: Db, a: Action, hash: string)
    requires Inv(s) && Enabled(s, a) && hash != ""
    requires a.MergePay? ==> s.receipts[s.merging[0]].hash != hash
    ensures CarriedFee(Next(s, a).orders, hash) == CarriedFee(s.orders, hash)
  {
    var t := Next(s, a);
    var before := t.orders[..|s.orders|];
    forall i | 0 <= i < |s.orders|
      ensures (s.orders[i].paymentId == hash <==> before[i].paymentId == hash) && s.orders[i].fee == before[i].fee
    {
      OrderStep(s, a, i);
      assert PaidRight(s, s.orders[i]);
    }
    CarriedSame(s.orders, before, hash);
    if a.Submit? {
      assert t.orders[..|s.orders|] == s.orders;
    } else {
      assert t.orders == before;
    }
  }

  lemma PayCovered(s: Db, a: Action)
    requires Inv(s) && Receipts.Inv(s) && a.MergePay? && Enabled(s, a)
    ensures Covered(Next(s, a), Next(s, a).receipts[s.merging[0]])
  {
    UnspentNotCarried(s, s.merging[0]);
    CarriedPayAll(s.orders, a.picked, s.receipts[s.merging[0]].hash);
  }

  /** Only a payment makes a receipt one that is spent on items. */
  lemma SpentBefore(s: Db, a: Action, r: nat)
    requires Receipts.Inv(s) && Enabled(s, a) && r < |Next(s, a).receipts| && SpentOnItems(Next(s, a).receipts[r])
    requires a.MergePay? ==> r != s.merging[0]
    ensures r < |s.receipts| && s.receipts[r] == Next(s, a).receipts[r]
  {
    hide Picks, Covers, Refundable, FreshBatch, NeedOnChain, CopiesOnly, ApplyChain, ExpireAll, Deletable, PayAll;
    if r < |s.receipts| {
      Receipts.StepMoves(s, a, r);
    }
  }

  lemma CoveredStep(s: Db, a: Action, r: nat)
    requires Inv(s) && Receipts.Inv(s) && Enabled(s, a) && r < |Next(s, a).receipts|
    ensures Covered(Next(s, a), Next(s, a).receipts[r])
  {
    if a.MergePay? && r == s.merging[0] {
      PayCovered(s, a);
    } else if SpentOnItems(Next(s, a).receipts[r]) {
      SpentBefore(s, a, r);
      hide Next, Picks, Covers, Refundable, Selects, Receipts.Inv;
      assert Covered(s, s.receipts[r]);
      CarriedStep(s, a, s.receipts[r].hash);
    }
  }

  lemma InvPreserved(s: Db, a: Action)
    requires Inv(s) && Receipts.Inv(s) && Enabled(s, a)
    ensures Inv(Next(s, a))
  {
    var t := Next(s, a);
    HashesPreserved(s, a);
    forall i | 0 <= i < |t.orders| ensures PaidRight(t, t.orders[i]) { PaidRightStep(s, a, i); }
    forall r | 0 <= r < |t.receipts| ensures Covered(t, t.receipts[r]) { CoveredStep(s, a, r); }
  }

  // ---- whole runs ----

  lemma {:induction false} InvHolds(run: Run<Action>)
    requires IsRun(INIT, run)
    ensures Inv(Exec(INIT, run))
  {
    if run.Then? {
      InvHolds(run.before);
      Receipts.TransfersAreRight(run.before);
      InvPreserved(Exec(INIT, run.before), run.act);
    }
  }

  /**
   In every reachable state the distinct orders carrying the hash of a receipt spent on items cost no more than it
   paid, and each of them names its token and is among its items.
   */
  lemma SpentReceiptCovers(run: Run<Action>, r: nat)
    requires IsRun(INIT, run) && r < |Exec(INIT, run).receipts| && SpentOnItems(Exec(INIT, run).receipts[r])
    ensures var s := Exec(INIT, run);
            var rc := s.receipts[r];
            && rc.amount.Int? && CarriedFee(s.orders, rc.hash) <= rc.amount.v
            && forall i :: 0 <= i < |s.orders| && s.orders[i].paymentId == rc.hash ==>
                 && s.orders[i].pay.Paid? && s.orders[i].item in rc.data.ids
                 && ToUpper(s.orders[i].currency) == ToUpper(rc.symbol)
  {
    InvHolds(run);
    var s := Exec(INIT, run);
    assert Covered(s, s.receipts[r]);
    forall i | 0 <= i < |s.orders| && s.orders[i].paymentId == s.receipts[r].hash
      ensures PaidFor(s.receipts, s.orders[i], r)
    {
      assert PaidRight(s, s.orders[i]);
      var q :| PaidFor(s.receipts, s.orders[i], q);
    }
  }

  /** Conversely, an order paid by a transfer points at exactly one receipt, and that receipt is spent on items. */
  lemma PaidOrderHasItsReceipt(run: Run<Action>, i: nat)
    requires IsRun(INIT, run) && i < |Exec(INIT, run).orders| && Exec(INIT, run).orders[i].paymentId != ""
    ensures var s := Exec(INIT, run);
            && s.orders[i].pay.Paid?
            && (exists r :: PaidFor(s.receipts, s.orders[i], r))
            && forall r, q :: PaidFor(s.receipts, s.orders[i], r) && PaidFor(s.receipts, s.orders[i], q) ==> r == q
  {
    InvHolds(run);
    assert PaidRight(Exec(INIT, run), Exec(INIT, run).orders[i]);
  }

  /** No order is ever paid by a second receipt: once set, its payment id stays. */
  lemma {:induction false} PaidOnce(run: Run<Action>, longer: Run<Action>, i: nat)
    requires IsRun(INIT, longer) && Extends(run, longer)
    ensures IsRun(INIT, run)
    ensures i < |Exec(INIT, run).orders| && Exec(INIT, run).orders[i].paymentId != "" ==>
              && i < |Exec(INIT, longer).orders|
              && Exec(INIT, longer).orders[i].paymentId == Exec(INIT, run).orders[i].paymentId
  {
    if run != longer {
      PaidOnce(run, longer.before, i);
      var s := Exec(INIT, longer.before);
      if i < |Exec(INIT, run).orders| && Exec(INIT, run).orders[i].paymentId != "" {
        InvHolds(longer.before);
        assert PaidRight(s, s.orders[i]);
        OrderStep(s, longer.act, i);
      }
    }
  }
}
