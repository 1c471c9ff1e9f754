/** The way of paid orders onto the chain: none is lost, none goes back, and success is only reported when earned. */
module ChainStatus {
  import opened Basics
  import opened Tables

  /** The stations of a paid order. */
  function Rank(c: Chain): nat {
    match c
    case Failed => 0
    case Waiting => 1
    case Pending => 2
    case Success => 3
  }

  // ---- invariants ----

  predicate SameProcessed(o: Order, p: Order) { o.item == p.item && Processed(o) && Processed(p) }

  /** Pending and successful orders of one item all have the same status. */
  ghost predicate Uniform(orders: seq<Order>) {
    forall i, j :: 0 <= i < |orders| && 0 <= j < |orders| && SameProcessed(orders[i], orders[j]) ==>
      orders[i].chain == orders[j].chain
  }

  /** Only expired orders fail. */
  ghost predicate NoneFailed(orders: seq<Order>) {
    forall i :: 0 <= i < |orders| && !orders[i].pay.Expired? ==> !orders[i].chain.Failed?
  }

  ghost predicate Owned(s: Db, x: string) {
    PaidExists(s.orders, x) && x in s.items
  }

  ghost predicate AllOwned(s: Db, items: seq<string>) {
    forall x :: x in items ==> Owned(s, x)
  }

  /** A record stands for a bundle that was sent with all its items; it is successful only when confirmed. */
  ghost predicate Truthful(s: Db, r: ArTx) {
    && r.arId in s.sent && s.sent[r.arId] == ItemSet(r.items)
    && (r.status.Success? ==> r.arId in s.confirmed)
    && !r.status.Waiting? && AllOwned(s, r.items)
  }

  ghost predicate DistinctIds(arTxs: seq<ArTx>) {
    forall k, l :: 0 <= k < l < |arTxs| ==> arTxs[k].arId != arTxs[l].arId
  }

  ghost predicate Records(s: Db) {
    DistinctIds(s.arTxs) && forall k :: 0 <= k < |s.arTxs| ==> Truthful(s, s.arTxs[k])
  }

  /** A bundle that is sent and not yet recorded. */
  ghost predicate InFlight(s: Db, b: Batch) {
    && b.arId in s.sent && s.sent[b.arId] == ItemSet(b.items)
    && AllOwned(s, b.items)
    && forall k :: 0 <= k < |s.arTxs| ==> s.arTxs[k].arId != b.arId
  }

  ghost predicate InJob(s: Db) {
    && (s.bundleJob.Some? ==> InFlight(s, s.bundleJob.value))
    && (s.seqJob.Some? ==> InFlight(s, s.seqJob.value))
    && (s.bundleJob.Some? && s.seqJob.Some? ==> s.bundleJob.value.arId != s.seqJob.value.arId)
  }

  /** Some record of a bundle with item x is still watched or to be retried. */
  ghost predicate Backed(arTxs: seq<ArTx>, x: string) {
    exists k :: 0 <= k < |arTxs| && x in arTxs[k].items && (arTxs[k].status.Pending? || arTxs[k].status.Failed?)
  }

  /** Item x is in a bundle that has its confirmations. */
  ghost predicate Earned(s: Db, x: string) {
    exists arId :: arId in s.confirmed && arId in s.sent && x in s.sent[arId]
  }

  ghost predicate PendingBacked(s: Db) {
    forall i :: 0 <= i < |s.orders| && s.orders[i].chain.Pending? ==> Backed(s.arTxs, s.orders[i].item)
  }

  ghost predicate SuccessEarned(s: Db) {
    forall i :: 0 <= i < |s.orders| && s.orders[i].chain.Success? ==> Earned(s, s.orders[i].item)
  }

  ghost predicate Inv(s: Db) {
    && Uniform(s.orders) && NoneFailed(s.orders)
    && Records(s) && InJob(s)
    && PendingBacked(s) && SuccessEarned(s)
  }

  // ---- one step ----

  /** What a step does to one order. */
  lemma OrderStep(s: Db, a: Action, i: nat)
    requires Enabled(s, a) && i < |s.orders|
    ensures |s.orders| <= |Next(s, a).orders| && Next(s, a).orders[i].item == s.orders[i].item
    ensures var o, n := s.orders[i], Next(s, a).orders[i];
            && (o.pay.Paid? ==> n.pay.Paid?) && (n.pay == o.pay || o.pay.Unpaid?)
            && if o.item in Updates(s, a) then n.chain == Updates(s, a)[o.item]
               else n.chain == o.chain || (n.chain.Failed? && n.pay.Expired? && o.pay.Unpaid?)
  {
    hide Next, Covers, Refundable, Selects, FreshBatch, NeedOnChain, CopiesOnly, Mark, ItemSet;
    NextOrders(s, a);
  }

  lemma NewOrder(s: Db, a: Action, i: nat)
    requires Enabled(s, a) && |s.orders| <= i < |Next(s, a).orders|
    ensures Next(s, a).orders[i].chain.Waiting?
  {
    hide Next, Picks, Covers, Refundable, Selects, FreshBatch, NeedOnChain, CopiesOnly, Mark, ItemSet;
    NextOrders(s, a);
  }

  /** The bundle job records order i as pending after the order has already succeeded. */
  predicate Overtaken(s: Db, a: Action, i: nat) {
    && a.BundleRecord? && i < |s.orders| && s.orders[i].item in a.marked
    && s.orders[i].pay.Paid? && s.orders[i].chain.Success?
  }

  /** An update takes an order of its item back only in that case. */
  lemma UpdatesOnlyRaise(s: Db, a: Action, i: nat)
    requires Uniform(s.orders) && Enabled(s, a) && i < |s.orders| && s.orders[i].pay.Paid?
    requires s.orders[i].item in Updates(s, a)
    ensures Rank(s.orders[i].chain) <= Rank(Updates(s, a)[s.orders[i].item]) <==> !Overtaken(s, a, i)
  {
    var f := FirstProcessed(s.orders, s.orders[i].item);
    if f.Some? {
      assert Processed(s.orders[i]) ==> SameProcessed(s.orders[i], s.orders[f.value]);
    }
  }

  /** A paid order stays paid, and its on-chain status goes back in one case only: from success to pending. */
  lemma PaidMovesOn(s: Db, a: Action, i: nat)
    requires Uniform(s.orders) && Enabled(s, a)
    requires i < |s.orders| && s.orders[i].pay.Paid?
    ensures |s.orders| <= |Next(s, a).orders| && Next(s, a).orders[i].pay.Paid?
    ensures Next(s, a).orders[i].item == s.orders[i].item
    ensures Rank(s.orders[i].chain) <= Rank(Next(s, a).orders[i].chain) <==> !Overtaken(s, a, i)
    ensures Overtaken(s, a, i) ==> Next(s, a).orders[i].chain.Pending?
  {
    hide Enabled, Next;
    OrderStep(s, a, i);
    if s.orders[i].item in Updates(s, a) {
      UpdatesOnlyRaise(s, a, i);
    }
  }

  lemma StatusesPreserved(s: Db, a: Action)
    requires Uniform(s.orders) && NoneFailed(s.orders) && Enabled(s, a)
    ensures Uniform(Next(s, a).orders) && NoneFailed(Next(s, a).orders)
  {
    hide Enabled, Next;
    var t := Next(s, a);
    forall i | 0 <= i < |t.orders|
      ensures !t.orders[i].pay.Expired? ==> !t.orders[i].chain.Failed?
      ensures Processed(t.orders[i]) ==> i < |s.orders| && t.orders[i].item == s.orders[i].item
      ensures Processed(t.orders[i]) ==>
                var x := t.orders[i].item;
                if x in Updates(s, a) then t.orders[i].chain == Updates(s, a)[x]
                else t.orders[i].chain == s.orders[i].chain
    {
      if i < |s.orders| { OrderStep(s, a, i); } else { NewOrder(s, a, i); }
    }
  }

  /** Bundles are sent under new ids, so what was sent under an id never changes. */
  lemma SentStays(s: Db, a: Action, arId: string)
    requires Enabled(s, a) && arId in s.sent
    ensures arId in Next(s, a).sent && Next(s, a).sent[arId] == s.sent[arId]
    ensures arId in s.confirmed ==> arId in Next(s, a).confirmed
  {
    if !a.BundleSend? && !a.SeqSend? && !a.Retry? {
      assert Next(s, a).sent == s.sent;
    }
  }

  lemma OwnedStays(s: Db, a: Action, x: string)
    requires Owned(s, x) && Enabled(s, a)
    ensures Owned(Next(s, a), x)
  {
    var i :| 0 <= i < |s.orders| && s.orders[i].item == x && s.orders[i].pay.Paid?;
    OrderStep(s, a, i);
    assert Next(s, a).orders[i].pay.Paid?;
  }

  lemma AllOwnedStay(s: Db, a: Action, items: seq<string>)
    requires AllOwned(s, items) && Enabled(s, a)
    ensures AllOwned(Next(s, a), items)
  {
    hide Enabled, Next;
    forall x | x in items ensures Owned(Next(s, a), x) {
      OwnedStays(s, a, x);
    }
  }

  /** A bundle is made of stored items of paid orders. */
  lemma BatchOwned(s: Db, ords: seq<nat>, sorted: bool, b: Batch)
    requires NeedOnChain(s.orders, ords, sorted) && FreshBatch(s, ords, b)
    ensures AllOwned(s, b.items)
  {
    forall x | x in b.items ensures PaidExists(s.orders, x) {
      var j :| 0 <= j < |ords| && ords[j] < |s.orders| && s.orders[ords[j]].item == x;
      assert s.orders[ords[j]].pay.Paid?;
    }
  }

  /** A failed record is sent again in full: all of its items are still stored. */
  lemma RetryComplete(s: Db, a: Action)
    requires Records(s) && a.Retry? && Enabled(s, a)
    ensures a.arId in Next(s, a).sent && Next(s, a).sent[a.arId] == ItemSet(s.arTxs[a.k].items)
  {
    assert Truthful(s, s.arTxs[a.k]);
    assert ItemSet(s.arTxs[a.k].items) <= s.items;
  }

  /** Where record k of the next state comes from. */
  ghost predicate RecordFrom(s: Db, a: Action, k: nat)
    requires Enabled(s, a) && k < |Next(s, a).arTxs|
  {
    var r := Next(s, a).arTxs[k];
    if k < |s.arTxs| then
      && r.items == s.arTxs[k].items
      && ( || r == s.arTxs[k]
           || (a.Retry? && a.k == k && r.arId == a.arId && r.status.Pending?)
           || (a.WatchFail? && s.arTxs[a.k].arId == r.arId && r.arId == s.arTxs[k].arId && r.status.Failed?)
           || (a.WatchSucceed? && s.arTxs[a.k].arId == r.arId && r.arId == s.arTxs[k].arId && r.status.Success?
               && r.arId in s.confirmed))
    else
      && k == |s.arTxs| && r.status.Pending?
      && ( || (a.BundleRecord? && s.bundleJob == Some(Batch(r.arId, r.items)))
           || (a.SeqRecord? && s.seqJob == Some(Batch(r.arId, r.items))))
  }

  lemma RecordStep(s: Db, a: Action, k: nat)
    requires Enabled(s, a) && k < |Next(s, a).arTxs|
    ensures |s.arTxs| <= |Next(s, a).arTxs| && RecordFrom(s, a, k)
  {
    hide Next, Picks, Covers, Refundable, Selects, FreshBatch, NeedOnChain, CopiesOnly, ItemSet;
    NextRecords(s, a);
  }

  lemma TruthfulStep(s: Db, a: Action, k: nat)
    requires Records(s) && InJob(s) && Enabled(s, a) && k < |Next(s, a).arTxs|
    ensures Truthful(Next(s, a), Next(s, a).arTxs[k])
  {
    var t := Next(s, a);
    var r := t.arTxs[k];
    RecordStep(s, a, k);
    if k < |s.arTxs| {
      assert Truthful(s, s.arTxs[k]);
      SentStays(s, a, s.arTxs[k].arId);
      if a.Retry? && a.k == k { RetryComplete(s, a); }
    } else {
      SentStays(s, a, r.arId);
    }
    AllOwnedStay(s, a, r.items);
  }

  lemma DistinctStep(s: Db, a: Action, k: nat, l: nat)
    requires Records(s) && InJob(s) && Enabled(s, a) && k < l < |Next(s, a).arTxs|
    ensures Next(s, a).arTxs[k].arId != Next(s, a).arTxs[l].arId
  {
    hide Next, AllOwned, FreshBatch, NeedOnChain, CopiesOnly, Picks, Covers, Refundable, Selects;
    RecordStep(s, a, k);
    RecordStep(s, a, l);
    assert Truthful(s, s.arTxs[k]);
    assert l < |s.arTxs| ==> Truthful(s, s.arTxs[l]);
  }

  lemma RecordsPreserved(s: Db, a: Action)
    requires Records(s) && InJob(s) && Enabled(s, a)
    ensures Records(Next(s, a))
  {
    hide Enabled, Next;
    forall k | 0 <= k < |Next(s, a).arTxs| ensures Truthful(Next(s, a), Next(s, a).arTxs[k]) {
      TruthfulStep(s, a, k);
    }
    forall k, l | 0 <= k < l < |Next(s, a).arTxs| ensures Next(s, a).arTxs[k].arId != Next(s, a).arTxs[l].arId {
      DistinctStep(s, a, k, l);
    }
  }

  lemma InFlightStays(s: Db, a: Action, b: Batch)
    requires Records(s) && InJob(s) && Enabled(s, a) && InFlight(s, b)
    requires a.BundleRecord? ==> s.bundleJob.value.arId != b.arId
    requires a.SeqRecord? ==> s.seqJob.value.arId != b.arId
    ensures InFlight(Next(s, a), b)
  {
    var t := Next(s, a);
    SentStays(s, a, b.arId);
    AllOwnedStay(s, a, b.items);
    forall k | 0 <= k < |t.arTxs| ensures t.arTxs[k].arId != b.arId {
      RecordStep(s, a, k);
      assert k < |s.arTxs| ==> Truthful(s, s.arTxs[k]);
    }
  }

  lemma NewInFlight(s: Db, a: Action)
    requires Records(s) && Enabled(s, a) && (a.BundleSend? || a.SeqSend?) && a.batch.Some?
    ensures InFlight(Next(s, a), a.batch.value)
  {
    BatchOwned(s, a.ords, a.SeqSend?, a.batch.value);
    AllOwnedStay(s, a, a.batch.value.items);
    forall k | 0 <= k < |s.arTxs| ensures s.arTxs[k].arId != a.batch.value.arId {
      assert Truthful(s, s.arTxs[k]);
    }
  }

  lemma InJobPreserved(s: Db, a: Action)
    requires Records(s) && InJob(s) && Enabled(s, a)
    ensures InJob(Next(s, a))
  {
    hide InFlight, FreshBatch, NeedOnChain, CopiesOnly, ApplyChain, Records;
    var t := Next(s, a);
    if (a.BundleSend? || a.SeqSend?) && a.batch.Some? {
      NewInFlight(s, a);
    }
    if s.bundleJob.Some? && t.bundleJob.Some? {
      InFlightStays(s, a, s.bundleJob.value);
    }
    if s.seqJob.Some? && t.seqJob.Some? {
      InFlightStays(s, a, s.seqJob.value);
    }
    JobsApart(s, a);
  }

  lemma JobsApart(s: Db, a: Action)
    requires InJob(s) && Enabled(s, a)
    ensures var t := Next(s, a);
            t.bundleJob.Some? && t.seqJob.Some? ==> t.bundleJob.value.arId != t.seqJob.value.arId
  {
    NextJobs(s, a);
    hide Next, AllOwned, Picks, Covers, Refundable, Selects, NeedOnChain, CopiesOnly, ItemSet;
  }

  /** An item stays backed unless a record with it succeeds. */
  lemma BackedStays(s: Db, a: Action, x: string)
    requires Records(s) && InJob(s) && Enabled(s, a) && Backed(s.arTxs, x)
    requires a.WatchSucceed? ==> x !in s.arTxs[a.k].items
    ensures Backed(Next(s, a).arTxs, x)
  {
    var k :| 0 <= k < |s.arTxs| && x in s.arTxs[k].items && (s.arTxs[k].status.Pending? || s.arTxs[k].status.Failed?);
    NextRecords(s, a);
    hide Next, AllOwned, FreshBatch, NeedOnChain, CopiesOnly, Picks, Covers, Refundable, Selects;
    RecordStep(s, a, k);
    assert x in Next(s, a).arTxs[k].items;
  }

  lemma PendingStep(s: Db, a: Action, i: nat)
    requires Records(s) && InJob(s) && PendingBacked(s) && Enabled(s, a)
    requires i < |Next(s, a).orders| && Next(s, a).orders[i].chain.Pending?
    ensures Backed(Next(s, a).arTxs, Next(s, a).orders[i].item)
  {
    var t := Next(s, a);
    var x := t.orders[i].item;
    if i >= |s.orders| { NewOrder(s, a, i); } else { OrderStep(s, a, i); }
    if a.BundleRecord? && x in a.marked {
      assert t.arTxs[|s.arTxs|] == ArTx(s.bundleJob.value.arId, s.bundleJob.value.items, Pending);
      assert x in t.arTxs[|s.arTxs|].items;
    } else {
      var j := if x in Updates(s, a) then FirstProcessed(s.orders, x).value else i;
      assert s.orders[j].chain.Pending? && s.orders[j].item == x;
      BackedStays(s, a, x);
    }
  }

  lemma EarnedStays(s: Db, a: Action, x: string)
    requires Enabled(s, a) && Earned(s, x)
    ensures Earned(Next(s, a), x)
  {
    hide Enabled, Next;
    var arId :| arId in s.confirmed && arId in s.sent && x in s.sent[arId];
    SentStays(s, a, arId);
  }

  lemma SuccessStep(s: Db, a: Action, i: nat)
    requires Records(s) && InJob(s) && SuccessEarned(s) && Enabled(s, a)
    requires i < |Next(s, a).orders| && Next(s, a).orders[i].chain.Success?
    ensures Earned(Next(s, a), Next(s, a).orders[i].item)
  {
    var x := Next(s, a).orders[i].item;
    if i >= |s.orders| { NewOrder(s, a, i); } else { OrderStep(s, a, i); }
    assert Earned(s, x) by {
      if a.SeqRecord? && x in a.marked {
        assert x in s.sent[s.seqJob.value.arId];
      } else if a.WatchSucceed? && x in s.arTxs[a.k].items {
        assert Truthful(s, s.arTxs[a.k]);
        assert x in s.sent[s.arTxs[a.k].arId];
      } else {
        var j := if x in Updates(s, a) then FirstProcessed(s.orders, x).value else i;
        assert s.orders[j].chain.Success? && s.orders[j].item == x;
      }
    }
    EarnedStays(s, a, x);
  }

  lemma InvPreserved(s: Db, a: Action)
    requires Inv(s) && Enabled(s, a)
    ensures Inv(Next(s, a))
  {
    hide Enabled, Next;
    var t := Next(s, a);
    StatusesPreserved(s, a);
    RecordsPreserved(s, a);
    InJobPreserved(s, a);
    forall i | 0 <= i < |t.orders| && t.orders[i].chain.Pending? ensures Backed(t.arTxs, t.orders[i].item) {
      PendingStep(s, a, i);
    }
    forall i | 0 <= i < |t.orders| && t.orders[i].chain.Success? ensures Earned(t, t.orders[i].item) {
      SuccessStep(s, a, i);
    }
  }

  // ---- whole runs ----

  lemma {:induction false} InvHolds(run: Run<Action>)
    requires IsRun(INIT, run)
    ensures Inv(Exec(INIT, run))
  {
    if run.Then? {
      InvHolds(run.before);
      InvPreserved(Exec(INIT, run.before), run.act);
    }
  }

  /**
   No item is lost on the way: in every reachable state a paid order is waiting, or pending with its item in a record
   that is still watched or retried, or successful with its item in a confirmed bundle.
   */
  lemma PaidOrdersAccountedFor(run: Run<Action>, i: nat)
    requires IsRun(INIT, run) && i < |Exec(INIT, run).orders| && Exec(INIT, run).orders[i].pay.Paid?
    ensures var s := Exec(INIT, run);
            || s.orders[i].chain.Waiting?
            || (s.orders[i].chain.Pending? && Backed(s.arTxs, s.orders[i].item))
            || (s.orders[i].chain.Success? && Earned(s, s.orders[i].item))
  {
    InvHolds(run);
  }

  /** Success is never reported early, for any order. */
  lemma SuccessNeedsConfirmation(run: Run<Action>, i: nat)
    requires IsRun(INIT, run) && i < |Exec(INIT, run).orders| && Exec(INIT, run).orders[i].chain.Success?
    ensures Earned(Exec(INIT, run), Exec(INIT, run).orders[i].item)
  {
    InvHolds(run);
  }

  /** Every retry in a run sends the whole bundle again. */
  lemma RetriesAreComplete(run: Run<Action>)
    requires IsRun(INIT, run) && run.Then? && run.act.Retry?
    ensures var s, t := Exec(INIT, run.before), Exec(INIT, run);
            run.act.arId in t.sent && t.sent[run.act.arId] == ItemSet(s.arTxs[run.act.k].items)
  {
    InvHolds(run.before);
    RetryComplete(Exec(INIT, run.before), run.act);
  }

  /** Between the end of one run and that of a longer one, no recording overtakes order i. */
  ghost predicate NeverOvertaken(run: Run<Action>, longer: Run<Action>, i: nat)
    requires IsRun(INIT, longer)
  {
    run == longer ||
      (longer.Then? && NeverOvertaken(run, longer.before, i) && !Overtaken(Exec(INIT, longer.before), longer.act, i))
  }

  /** In between, the status of order i never goes back. */
  ghost predicate MovesOn(run: Run<Action>, longer: Run<Action>, i: nat)
    requires IsRun(INIT, longer)
  {
    run == longer ||
      (longer.Then? && MovesOn(run, longer.before, i)
       && var x, y := Exec(INIT, longer.before).orders, Exec(INIT, longer).orders;
          i < |x| && i < |y| ==> Rank(x[i].chain) <= Rank(y[i].chain))
  }

  /**
   Over any stretch of a run a paid order stays paid, and once pending it never waits again. It only moves on from
   waiting to pending to success exactly if no recording overtakes it.
   */
  lemma {:induction false} PaidOrdersMoveOn(run: Run<Action>, longer: Run<Action>, i: nat)
    requires IsRun(INIT, longer) && Extends(run, longer)
    ensures IsRun(INIT, run)
    ensures i < |Exec(INIT, run).orders| && Exec(INIT, run).orders[i].pay.Paid? ==>
              var x, y := Exec(INIT, run).orders, Exec(INIT, longer).orders;
              && i < |y| && y[i].pay.Paid? && y[i].item == x[i].item && Rank(y[i].chain) >= 1
              && (Rank(x[i].chain) >= 2 ==> Rank(y[i].chain) >= 2)
              && (MovesOn(run, longer, i) <==> NeverOvertaken(run, longer, i))
              && (NeverOvertaken(run, longer, i) ==> Rank(x[i].chain) <= Rank(y[i].chain))
  {
    InvHolds(longer);
    if run != longer {
      PaidOrdersMoveOn(run, longer.before, i);
      InvHolds(longer.before);
      if i < |Exec(INIT, run).orders| && Exec(INIT, run).orders[i].pay.Paid? {
        PaidMovesOn(Exec(INIT, longer.before), longer.act, i);
      }
    }
  }

  /** The step makes an item successful that the bundle job has sent and not recorded yet. */
  ghost predicate Mixes(s: Db, a: Action) {
    && s.bundleJob.Some?
    && exists x | x in s.bundleJob.value.items ::
         (a.SeqRecord? && x in a.marked) || (a.WatchSucceed? && a.k < |s.arTxs| && x in s.arTxs[a.k].items)
  }

  ghost predicate Unmixed(run: Run<Action>)
    requires IsRun(INIT, run)
  {
    run.Then? ==> Unmixed(run.before) && !Mixes(Exec(INIT, run.before), run.act)
  }

  /** No order of an item that the bundle job has sent and not recorded has succeeded. */
  ghost predicate NoneAhead(s: Db) {
    s.bundleJob.Some? ==>
      forall i :: 0 <= i < |s.orders| && s.orders[i].item in s.bundleJob.value.items ==> !s.orders[i].chain.Success?
  }

  lemma NoneAheadStep(s: Db, a: Action)
    requires NoneAhead(s) && Enabled(s, a) && !Mixes(s, a)
    ensures NoneAhead(Next(s, a))
  {
    var t := Next(s, a);
    if t.bundleJob.Some? {
      forall i | 0 <= i < |t.orders| && t.orders[i].item in t.bundleJob.value.items
        ensures !t.orders[i].chain.Success?
      {
        if i >= |s.orders| {
          NewOrder(s, a, i);
        } else {
          OrderStep(s, a, i);
          var x := s.orders[i].item;
          assert x in Updates(s, a) ==> !Updates(s, a)[x].Success?;
        }
      }
    }
  }

  lemma {:induction false} UnmixedKeepsBehind(run: Run<Action>)
    requires IsRun(INIT, run) && Unmixed(run)
    ensures NoneAhead(Exec(INIT, run))
  {
    if run.Then? {
      UnmixedKeepsBehind(run.before);
      NoneAheadStep(Exec(INIT, run.before), run.act);
    }
  }

  /** If no item succeeds while the bundle job is about to record it, no status ever goes back. */
  lemma {:induction false} UnmixedMovesOn(run: Run<Action>, longer: Run<Action>, i: nat)
    requires IsRun(INIT, longer) && Extends(run, longer) && Unmixed(longer)
    ensures NeverOvertaken(run, longer, i)
  {
    if run != longer {
      UnmixedMovesOn(run, longer.before, i);
      UnmixedKeepsBehind(longer.before);
    }
  }

  // ---- the way back ----

  /** A paid order of x for each of the two jobs. */
  const PLAIN: Order := Order("x", 1, "AR", Int(1), 5, Paid, "", Waiting, false)
  const SORTED: Order := PLAIN.(sorted := true)

  const BOTH: Db := INIT.(orders := [PLAIN, SORTED], items := {"x"})

  /** The bundle job has sent a bundle with x, and so has the sequential job. */
  const SENT_ONCE: Db := BOTH.(sent := map["a" := {"x"}], bundleJob := Some(Batch("a", ["x"])))
  const SENT_TWICE: Db := SENT_ONCE.(sent := map["a" := {"x"}, "b" := {"x"}], seqJob := Some(Batch("b", ["x"])))

  /** The sequential one is confirmed and recorded, then the other is recorded. */
  const AHEAD: Db := SENT_TWICE.(
    confirmed := {"b"}, seqJob := None, arTxs := [ArTx("b", ["x"], Pending)],
    orders := [PLAIN.(chain := Success), SORTED.(chain := Success)])

  const BACK: Db := AHEAD.(
    bundleJob := None, arTxs := [ArTx("b", ["x"], Pending), ArTx("a", ["x"], Pending)],
    orders := [PLAIN.(chain := Pending), SORTED.(chain := Pending)])

  const SUBMITTED: Run<Action> := Then(Then(Then(Begin, SaveItem("x")), Submit(PLAIN)), Submit(SORTED))

  const SEND: Action := BundleSend([0], map[], Some(Batch("a", ["x"])))
  const SEQ_SEND: Action := SeqSend([1], map[], Some(Batch("b", ["x"])))

  const SUCCEEDED: Run<Action> :=
    Then(Then(Then(Then(SUBMITTED, SEND), SEQ_SEND), Confirm("b")), SeqRecord(true, {"x"}))

  lemma BothSubmitted()
    ensures IsRun(INIT, SUBMITTED) && Exec(INIT, SUBMITTED) == BOTH
  {
    var saved := Then(Begin, SaveItem("x"));
    GoOn(Begin, INIT, SaveItem("x"), INIT.(items := {"x"}));
    GoOn(saved, INIT.(items := {"x"}), Submit(PLAIN), INIT.(orders := [PLAIN], items := {"x"}));
    GoOn(Then(saved, Submit(PLAIN)), INIT.(orders := [PLAIN], items := {"x"}), Submit(SORTED), BOTH);
  }

  lemma SendsOnce()
    ensures Enabled(BOTH, SEND) && Next(BOTH, SEND) == SENT_ONCE
  {
    assert BOTH.orders[0] == PLAIN && BOTH.orders[1] == SORTED;
    assert ApplyChain(BOTH.orders, map[]) == BOTH.orders;
    assert ItemSet(["x"]) == {"x"};
    var ords: seq<nat> := [0];
    assert BOTH.orders[ords[0]].item == "x";
    assert FreshBatch(BOTH, ords, Batch("a", ["x"]));
  }

  lemma SendsTwice()
    ensures Enabled(SENT_ONCE, SEQ_SEND) && Next(SENT_ONCE, SEQ_SEND) == SENT_TWICE
  {
    assert SENT_ONCE.orders[0] == PLAIN && SENT_ONCE.orders[1] == SORTED;
    assert ApplyChain(SENT_ONCE.orders, map[]) == SENT_ONCE.orders;
    assert ItemSet(["x"]) == {"x"};
    assert SENT_ONCE.sent["b" := {"x"}] == SENT_TWICE.sent;
    var ords: seq<nat> := [1];
    assert SENT_ONCE.orders[ords[0]].item == "x";
    assert FreshBatch(SENT_ONCE, ords, Batch("b", ["x"]));
  }

  lemma Confirms()
    ensures Enabled(SENT_TWICE, Confirm("b"))
    ensures Next(SENT_TWICE, Confirm("b")) == SENT_TWICE.(confirmed := {"b"})
  {}

  lemma SortedSucceeds()
    ensures var s, a := SENT_TWICE.(confirmed := {"b"}), SeqRecord(true, {"x"});
            Enabled(s, a) && Next(s, a) == AHEAD
  {
    assert ApplyChain(SENT_TWICE.orders, Mark({"x"}, Success)) == AHEAD.orders;
    assert ItemSet(["x"]) == {"x"};
  }

  lemma RecordedLate()
    ensures Enabled(AHEAD, BundleRecord(true, {"x"})) && Next(AHEAD, BundleRecord(true, {"x"})) == BACK
  {
    assert ApplyChain(AHEAD.orders, Mark({"x"}, Pending)) == BACK.orders;
    assert ItemSet(["x"]) == {"x"};
  }

  lemma SucceededLeadsTo()
    ensures IsRun(INIT, SUCCEEDED) && Exec(INIT, SUCCEEDED) == AHEAD
  {
    hide IsRun, Exec, Enabled, Next;
    var t := SENT_TWICE.(confirmed := {"b"});
    var a, b := Then(SUBMITTED, SEND), Then(Then(SUBMITTED, SEND), SEQ_SEND);
    BothSubmitted();
    SendsOnce();
    SendsTwice();
    Confirms();
    SortedSucceeds();
    GoOn(SUBMITTED, BOTH, SEND, SENT_ONCE);
    GoOn(a, SENT_ONCE, SEQ_SEND, SENT_TWICE);
    GoOn(b, SENT_TWICE, Confirm("b"), t);
    GoOn(Then(b, Confirm("b")), t, SeqRecord(true, {"x"}), AHEAD);
  }

  /** The bundle job records as pending what the sequential job has already brought to success. */
  lemma LateRecordStepsBack()
    ensures var run := Then(SUCCEEDED, BundleRecord(true, {"x"}));
            && IsRun(INIT, run)
            && Exec(INIT, SUCCEEDED).orders == [PLAIN.(chain := Success), SORTED.(chain := Success)]
            && Exec(INIT, run).orders == [PLAIN.(chain := Pending), SORTED.(chain := Pending)]
  {
    hide IsRun, Exec, Enabled, Next;
    SucceededLeadsTo();
    RecordedLate();
    GoOn(SUCCEEDED, AHEAD, BundleRecord(true, {"x"}), BACK);
  }

  // ---- copies ----

  /** Copying the first processed order's status gives a paid order the only status its processed siblings have. */
  lemma CopyIsSound(run: Run<Action>, i: nat, j: nat)
    requires IsRun(INIT, run) && i < |Exec(INIT, run).orders| && j < |Exec(INIT, run).orders|
    requires var os := Exec(INIT, run).orders;
             os[i].item == os[j].item && os[i].pay.Paid? && Processed(os[j])
    ensures var os := Exec(INIT, run).orders;
            FirstProcessed(os, os[i].item).Some? &&
            var c := os[FirstProcessed(os, os[i].item).value].chain;
            c == os[j].chain && (os[i].chain.Waiting? || os[i].chain == c)
  {
    InvHolds(run);
    var os := Exec(INIT, run).orders;
    var f := FirstProcessed(os, os[i].item);
    assert SameProcessed(os[f.value], os[j]);
    assert !os[i].chain.Waiting? ==> SameProcessed(os[i], os[j]);
  }
}
