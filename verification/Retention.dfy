/** Item retention: an order that is unpaid or paid never loses its item to the expiry job. */
module Retention {
  import opened Basics
  import opened Tables

  /** Every unpaid or paid order's item is in the store. */
  ghost predicate Retained(s: Db) {
    forall i :: 0 <= i < |s.orders| && !s.orders[i].pay.Expired? ==> s.orders[i].item in s.items
  }

  /** Item x has an unpaid order that is not due yet. */
  ghost predicate Awaited(orders: seq<Order>, now: int, x: string) {
    exists i :: 0 <= i < |orders| && IsUnpaidFor(orders[i], x) && !Due(orders[i], now)
  }

  /** Every order of x that the run does expire is outlived by one whose update failed. */
  ghost predicate Outlived(orders: seq<Order>, now: int, failed: set<nat>, x: string) {
    forall i :: 0 <= i < |orders| && orders[i].item == x && Due(orders[i], now) && i !in failed ==>
      exists k :: k in failed && k < |orders| && orders[k].item == x && orders[i].expiry < orders[k].expiry
  }

  /** An expiry run does no harm: whenever an order could not be updated, something else protects its item. */
  ghost predicate Harmless(orders: seq<Order>, now: int, failed: set<nat>, kept: set<string>) {
    forall j :: j in failed && j < |orders| ==>
      var x := orders[j].item;
      x in kept || PaidExists(orders, x) || Awaited(orders, now, x) || Outlived(orders, now, failed, x)
  }

  /** Expiry runs do no harm, and no order is inserted whose item has gone since it was saved. */
  ghost predicate Careful(s: Db, a: Action) {
    && (a.Expire? ==> Harmless(s.orders, a.now, a.failed, a.kept))
    && (a.Submit? ==> a.order.item in s.items)
  }

  /** Of unpaid orders of x, the run expires one that no remaining order outlives. */
  ghost predicate Endangered(orders: seq<Order>, now: int, failed: set<nat>, x: string) {
    && Deletable(orders, now, failed, x)
    && exists j :: 0 <= j < |orders| && orders[j].item == x && Remains(orders, now, failed, j)
  }

  lemma EndangeredExact(orders: seq<Order>, now: int, failed: set<nat>, j: nat)
    requires forall k :: k in failed ==> k < |orders| && Due(orders[k], now)
    requires j in failed
    ensures var x := orders[j].item;
            Endangered(orders, now, failed, x) <==>
            !PaidExists(orders, x) && !Awaited(orders, now, x) && !Outlived(orders, now, failed, x)
  {
    var x := orders[j].item;
    assert Remains(orders, now, failed, j);
    if !PaidExists(orders, x) && !Awaited(orders, now, x) && !Outlived(orders, now, failed, x) {
      var i :| 0 <= i < |orders| && orders[i].item == x && Due(orders[i], now) && i !in failed
        && !exists k :: k in failed && k < |orders| && orders[k].item == x && orders[i].expiry < orders[k].expiry;
      forall k | 0 <= k < |orders| && orders[k].item == orders[i].item && Remains(orders, now, failed, k)
        ensures orders[k].expiry <= orders[i].expiry
      {
        assert IsUnpaidFor(orders[k], x);
      }
      assert LastToExpire(orders, now, failed, i);
    }
  }

  /** An item whose order remains although the run may delete it has an order that could not be updated. */
  lemma EndangeredHasFailed(orders: seq<Order>, now: int, failed: set<nat>, x: string)
    requires Endangered(orders, now, failed, x)
    ensures exists j :: j in failed && j < |orders| && orders[j].item == x && Due(orders[j], now)
  {
    var i :| 0 <= i < |orders| && orders[i].item == x && LastToExpire(orders, now, failed, i);
    var j :| 0 <= j < |orders| && orders[j].item == x && Remains(orders, now, failed, j);
    assert orders[j].expiry <= orders[i].expiry;
    assert Due(orders[j], now);
  }

  /** An expiry run keeps every needed item exactly when it is harmless. */
  lemma ExpireRetainsExact(s: Db, a: Action)
    requires Retained(s) && a.Expire? && Enabled(s, a)
    ensures Retained(Next(s, a)) <==> Harmless(s.orders, a.now, a.failed, a.kept)
  {
    var t := Next(s, a);
    if Harmless(s.orders, a.now, a.failed, a.kept) {
      forall i | 0 <= i < |t.orders| && !t.orders[i].pay.Expired? ensures t.orders[i].item in t.items {
        var x := s.orders[i].item;
        if Deletable(s.orders, a.now, a.failed, x) && x !in a.kept {
          assert Remains(s.orders, a.now, a.failed, i);
          EndangeredHasFailed(s.orders, a.now, a.failed, x);
          var j :| j in a.failed && j < |s.orders| && s.orders[j].item == x && Due(s.orders[j], a.now);
          EndangeredExact(s.orders, a.now, a.failed, j);
          assert false;
        }
      }
    } else {
      var j :| j in a.failed && j < |s.orders| && !(
        var x := s.orders[j].item;
        || x in a.kept || PaidExists(s.orders, x) || Awaited(s.orders, a.now, x)
        || Outlived(s.orders, a.now, a.failed, x));
      EndangeredExact(s.orders, a.now, a.failed, j);
      assert !t.orders[j].pay.Expired? && t.orders[j].item !in t.items;
    }
  }

  lemma OthersRetain(s: Db, a: Action)
    requires Retained(s) && Enabled(s, a) && !a.Expire?
    ensures Retained(Next(s, a)) <==> Careful(s, a)
  {
    var t := Next(s, a);
    if a.Submit? {
      assert t.orders[|s.orders|] == a.order && t.items == s.items;
    }
    forall i | 0 <= i < |t.orders| && !t.orders[i].pay.Expired? && Careful(s, a) ensures t.orders[i].item in t.items {
      if i < |s.orders| {
        assert t.orders[i].item == s.orders[i].item && !s.orders[i].pay.Expired?;
      }
    }
  }

  ghost predicate RetainedThroughout(run: Run<Action>)
    requires IsRun(INIT, run)
  {
    Retained(Exec(INIT, run)) && (run.Then? ==> RetainedThroughout(run.before))
  }

  ghost predicate CarefulRun(run: Run<Action>)
    requires IsRun(INIT, run)
  {
    run.Then? ==> CarefulRun(run.before) && Careful(Exec(INIT, run.before), run.act)
  }

  /**
   Over a whole run no needed item is ever missing, exactly if every expiry run in it is harmless and every order is
   inserted while its item is still stored.
   */
  lemma {:induction false} RetentionExact(run: Run<Action>)
    requires IsRun(INIT, run)
    ensures RetainedThroughout(run) <==> CarefulRun(run)
  {
    if run.Then? {
      RetentionExact(run.before);
      var s := Exec(INIT, run.before);
      if RetainedThroughout(run.before) {
        if run.act.Expire? {
          ExpireRetainsExact(s, run.act);
        } else {
          OthersRetain(s, run.act);
        }
      }
    }
  }

  /** An expiry run whose updates all succeed is harmless, although it goes through the orders one by one. */
  lemma WrittenIsHarmless(orders: seq<Order>, now: int, kept: set<string>)
    ensures Harmless(orders, now, {}, kept)
  {}

  /** What a harmless run deletes belongs to no paid order and to no order still open for payment. */
  lemma DeletesOnlyOrphans(s: Db, a: Action, x: string)
    requires Retained(s) && a.Expire? && Enabled(s, a) && Harmless(s.orders, a.now, a.failed, a.kept)
    requires x in s.items && x !in Next(s, a).items
    ensures !PaidExists(Next(s, a).orders, x) && LatestUnpaid(Next(s, a).orders, x).None?
  {
    ExpireRetainsExact(s, a);
    var t := Next(s, a);
    assert forall i :: 0 <= i < |t.orders| && t.orders[i].item == x ==> t.orders[i].pay.Expired?;
  }

  /** Item x was saved in the run, and no expiry run came after that. */
  predicate SavedSinceExpiry(run: Run<Action>, x: string) {
    run.Then? && (run.act == SaveItem(x) || (!run.act.Expire? && SavedSinceExpiry(run.before, x)))
  }

  lemma OnlyExpiryDeletes(s: Db, a: Action)
    requires Enabled(s, a) && !a.Expire?
    ensures s.items <= Next(s, a).items
  {
    if !a.SaveItem? {
      assert Next(s, a).items == s.items;
    }
  }

  lemma {:induction false} SavedIsStored(run: Run<Action>, x: string)
    requires IsRun(INIT, run) && SavedSinceExpiry(run, x)
    ensures x in Exec(INIT, run).items
  {
    if run.act != SaveItem(x) {
      SavedIsStored(run.before, x);
      OnlyExpiryDeletes(Exec(INIT, run.before), run.act);
    }
  }

  /** No expiry run comes between a submission's saving of its item and its order, and none leaves an update undone. */
  predicate Undisturbed(run: Run<Action>) {
    run.Then? ==>
      && Undisturbed(run.before)
      && (run.act.Expire? ==> run.act.failed == {})
      && (run.act.Submit? ==> SavedSinceExpiry(run.before, run.act.order.item))
  }

  /** What a caller can see to: with submissions and expiry runs apart and all updates written, nothing is lost. */
  lemma {:induction false} UndisturbedIsCareful(run: Run<Action>)
    requires IsRun(INIT, run) && Undisturbed(run)
    ensures CarefulRun(run) && RetainedThroughout(run)
  {
    RetentionExact(run);
    if run.Then? {
      UndisturbedIsCareful(run.before);
      if run.act.Submit? {
        SavedIsStored(run.before, run.act.order.item);
      }
    }
  }

  // ---- the two ways to lose an item ----

  /** An order of item x that is due at time 9, and the run that submits it. */
  const LATE: Order := Order("x", 1, "AR", Int(1), 5, Unpaid, "", Waiting, false)

  const SAVED: Run<Action> := Then(Then(Begin, SaveItem("x")), Submit(LATE))

  lemma SavedLeadsTo()
    ensures IsRun(INIT, SAVED) && Exec(INIT, SAVED) == INIT.(orders := [LATE], items := {"x"})
  {
    var s := INIT.(items := {"x"});
    GoOn(Begin, INIT, SaveItem("x"), s);
    GoOn(Then(Begin, SaveItem("x")), s, Submit(LATE), INIT.(orders := [LATE], items := {"x"}));
  }

  /** The same with a second order. */
  const TWICE: Db := INIT.(orders := [LATE, LATE], items := {"x"})

  lemma HalfExpired()
    ensures Retained(TWICE) && Enabled(TWICE, Expire(9, {1}, {})) && !Retained(Next(TWICE, Expire(9, {1}, {})))
  {
    var a, orders := Expire(9, {1}, {}), TWICE.orders;
    assert orders[0] == LATE && orders[1] == LATE;
    assert 1 in a.failed && !Awaited(orders, 9, "x") && !PaidExists(orders, "x") && !Outlived(orders, 9, a.failed, "x");
    ExpireRetainsExact(TWICE, a);
  }

  /** Two orders of one item, due together: the second could not be updated and outlives its item. */
  lemma FailedUpdateLosesItem()
    ensures var run := Then(SAVED, Submit(LATE));
            var a := Expire(9, {1}, {});
            && IsRun(INIT, Then(run, a)) && RetainedThroughout(run) && !Retained(Exec(INIT, Then(run, a)))
  {
    var run, a := Then(SAVED, Submit(LATE)), Expire(9, {1}, {});
    SavedLeadsTo();
    GoOn(SAVED, INIT.(orders := [LATE], items := {"x"}), Submit(LATE), TWICE);
    UndisturbedIsCareful(run);
    HalfExpired();
    hide Enabled, Next, Retained;
    GoOn(run, TWICE, a, Next(TWICE, a));
  }

  lemma AllExpired()
    ensures var s := INIT.(orders := [LATE], items := {"x"});
            var a := Expire(9, {}, {});
            Enabled(s, a) && Next(s, a) == INIT.(orders := [LATE.(pay := Expired, chain := Failed)])
  {
    var s := INIT.(orders := [LATE], items := {"x"});
    assert s.orders[0] == LATE && LastToExpire(s.orders, 9, {}, 0);
    assert Deletable(s.orders, 9, {}, "x");
  }

  lemma SavedAgain()
    ensures var s := INIT.(orders := [LATE], items := {"x"});
            Enabled(s, SaveItem("x")) && Next(s, SaveItem("x")) == s
  {}

  /** The order of a later submission of the same item. */
  const NEXT: Order := LATE.(expiry := 99)

  lemma LateInsert()
    ensures var s := INIT.(orders := [LATE.(pay := Expired, chain := Failed)]);
            Enabled(s, Submit(NEXT)) && !Retained(Next(s, Submit(NEXT)))
  {
    OthersRetain(INIT.(orders := [LATE.(pay := Expired, chain := Failed)]), Submit(NEXT));
  }

  /** A second submission finds the item saved; an expiry run deletes it before the order is inserted. */
  lemma LateOrderLosesItem()
    ensures var expired := Then(Then(SAVED, SaveItem("x")), Expire(9, {}, {}));
            var run := Then(expired, Submit(NEXT));
            && IsRun(INIT, run) && RetainedThroughout(expired) && !Retained(Exec(INIT, run))
  {
    var s, t := INIT.(orders := [LATE], items := {"x"}), INIT.(orders := [LATE.(pay := Expired, chain := Failed)]);
    var saved := Then(SAVED, SaveItem("x"));
    var expired := Then(saved, Expire(9, {}, {}));
    hide Enabled, Next, IsRun, Exec, Retained, RetainedThroughout, CarefulRun;
    SavedLeadsTo();
    SavedAgain();
    AllExpired();
    LateInsert();
    assert Undisturbed(SAVED) && Undisturbed(saved);
    GoOn(SAVED, s, SaveItem("x"), s);
    GoOn(saved, s, Expire(9, {}, {}), t);
    UndisturbedIsCareful(expired);
    GoOn(expired, t, Submit(NEXT), Next(t, Submit(NEXT)));
  }
}
