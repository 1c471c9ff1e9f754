/** Choosing the orders of a bundle, arranging its items, and status updates that reach every order of an item. */
module Bundling {
  import opened Basics
  import opened Tables
  import opened Loops

  // ---- selection ----

  predicate Needs(o: Order, sorted: bool) { o.pay.Paid? && o.chain.Waiting? && o.sorted == sorted }

  /** The first rows, at most `limit`, of paid orders that wait for a bundle. */
  function NeedRows(orders: seq<Order>, sorted: bool, limit: nat): (rows: seq<nat>)
    ensures |rows| <= limit && NeedOnChain(orders, rows, sorted)
    ensures forall i, j :: 0 <= i < j < |rows| ==> rows[i] < rows[j]
    ensures forall i | 0 <= i < |orders| && i !in rows ::
              orders[i].pay.Paid? && orders[i].chain.Waiting? && orders[i].sorted == sorted ==>
                |rows| == limit && forall j :: 0 <= j < |rows| ==> rows[j] < i
  {
    var rows := RowsWhere(orders, (o: Order) => Needs(o, sorted));
    if |rows| <= limit then rows else rows[..limit]
  }

  function Total(orders: seq<Order>, rows: seq<nat>): int
    requires forall j :: 0 <= j < |rows| ==> rows[j] < |orders|
  {
    if rows == [] then 0 else Total(orders, rows[..|rows| - 1]) + orders[rows[|rows| - 1]].size
  }

  function Items(orders: seq<Order>, rows: seq<nat>): seq<string>
    requires forall j :: 0 <= j < |rows| ==> rows[j] < |orders|
  {
    seq(|rows|, j requires 0 <= j < |rows| => orders[rows[j]].item)
  }

  /** Going through the rows, each one that fits and whose item is in no processed order is chosen. */
  function Chosen(orders: seq<Order>, rows: seq<nat>): (r: seq<nat>)
    requires forall j :: 0 <= j < |rows| ==> rows[j] < |orders|
    ensures forall j :: 0 <= j < |r| ==> r[j] in rows && r[j] < |orders|
  {
    if rows == [] then []
    else
      var before := Chosen(orders, rows[..|rows| - 1]);
      var o := orders[rows[|rows| - 1]];
      if Total(orders, before) + o.size > MAX_PER_ON_CHAIN_SIZE || FirstProcessed(orders, o.item).Some? then before
      else before + [rows[|rows| - 1]]
  }

  /** The items found processed on the way. */
  function Resolvable(orders: seq<Order>, rows: seq<nat>): set<string>
    requires forall j :: 0 <= j < |rows| ==> rows[j] < |orders|
  {
    if rows == [] then {}
    else
      var before := rows[..|rows| - 1];
      var o := orders[rows[|rows| - 1]];
      Resolvable(orders, before)
      + if Total(orders, Chosen(orders, before)) + o.size <= MAX_PER_ON_CHAIN_SIZE
           && FirstProcessed(orders, o.item).Some?
        then {o.item} else {}
  }

  lemma ChosenMore(orders: seq<Order>, chosen: seq<nat>, r: nat)
    requires r < |orders| && forall j :: 0 <= j < |chosen| ==> chosen[j] < |orders|
    ensures Items(orders, chosen + [r]) == Items(orders, chosen) + [orders[r].item]
    ensures Total(orders, chosen + [r]) == Total(orders, chosen) + orders[r].size
  {
    assert (chosen + [r])[..|chosen|] == chosen;
  }

  /** One more row. */
  lemma ChoosingStep(orders: seq<Order>, rows: seq<nat>, i: nat)
    requires i < |rows| && forall j :: 0 <= j < |rows| ==> rows[j] < |orders|
    ensures var before, after, o := Chosen(orders, rows[..i]), Chosen(orders, rows[..i + 1]), orders[rows[i]];
            var fits := Total(orders, before) + o.size <= MAX_PER_ON_CHAIN_SIZE;
            var resolved := FirstProcessed(orders, o.item).Some?;
            && (fits && !resolved ==>
                  && Items(orders, after) == Items(orders, before) + [o.item]
                  && Total(orders, after) == Total(orders, before) + o.size)
            && (!fits || resolved ==> after == before)
            && Resolvable(orders, rows[..i + 1])
               == Resolvable(orders, rows[..i]) + if fits && resolved then {o.item} else {}
  {
    hide FirstProcessed, Total, Items;
    assert rows[..i + 1][..i] == rows[..i];
    ChosenMore(orders, Chosen(orders, rows[..i]), rows[i]);
  }

  /** A bundle never exceeds 2 GiB, and a row is passed over only if it was resolved or would not have fitted. */
  lemma {:induction false} ChosenFits(orders: seq<Order>, rows: seq<nat>)
    requires forall j :: 0 <= j < |rows| ==> rows[j] < |orders| && orders[rows[j]].size >= 0
    ensures 0 <= Total(orders, Chosen(orders, rows)) <= 2 * 1024 * 1024 * 1024
    ensures forall r :: r in rows ==>
              || r in Chosen(orders, rows)
              || FirstProcessed(orders, orders[r].item).Some?
              || Total(orders, Chosen(orders, rows)) + orders[r].size > 2 * 1024 * 1024 * 1024
  {
    if rows != [] {
      var n := |rows| - 1;
      ChosenFits(orders, rows[..n]);
      assert rows == rows[..n] + [rows[n]];
      ChosenMore(orders, Chosen(orders, rows[..n]), rows[n]);
      hide FirstProcessed, Total;
    }
  }

  /** A submission is at most 1 GiB, so the first waiting order is always chosen or resolved: nothing starves. */
  lemma {:induction false} FirstGetsThrough(orders: seq<Order>, rows: seq<nat>)
    requires rows != [] && forall j :: 0 <= j < |rows| ==> rows[j] < |orders|
    requires orders[rows[0]].size <= SUBMIT_MAX_SIZE
    ensures FirstProcessed(orders, orders[rows[0]].item).Some? ||
              (Chosen(orders, rows) != [] && Chosen(orders, rows)[0] == rows[0])
  {
    if |rows| == 1 {
      assert rows[..0] == [];
    } else {
      FirstGetsThrough(orders, rows[..|rows| - 1]);
    }
  }

  lemma SizesKept(s: Db, a: Action, i: nat)
    requires Enabled(s, a) && i < |Next(s, a).orders|
    ensures if i < |s.orders| then Next(s, a).orders[i].size == s.orders[i].size
            else 0 <= Next(s, a).orders[i].size <= SUBMIT_MAX_SIZE
  {
    hide Next, Picks, Covers, Refundable, Selects, FreshBatch, NeedOnChain, CopiesOnly, Mark, ItemSet, Updates;
    NextOrders(s, a);
  }

  lemma {:induction false} SizesBounded(run: Run<Action>)
    requires IsRun(INIT, run)
    ensures forall i :: 0 <= i < |Exec(INIT, run).orders| ==> 0 <= Exec(INIT, run).orders[i].size <= SUBMIT_MAX_SIZE
  {
    if run.Then? {
      SizesBounded(run.before);
      forall i | 0 <= i < |Exec(INIT, run).orders| ensures 0 <= Exec(INIT, run).orders[i].size <= SUBMIT_MAX_SIZE {
        SizesKept(Exec(INIT, run.before), run.act, i);
      }
    }
  }

  /** In every reachable state the next bundle fits into 2 GiB and serves or resolves the longest waiting order. */
  lemma BundleFitsAndServes(run: Run<Action>, rows: seq<nat>)
    requires IsRun(INIT, run) && forall j :: 0 <= j < |rows| ==> rows[j] < |Exec(INIT, run).orders|
    ensures var orders := Exec(INIT, run).orders;
            && 0 <= Total(orders, Chosen(orders, rows)) <= 2 * 1024 * 1024 * 1024
            && (rows != [] ==>
                  || FirstProcessed(orders, orders[rows[0]].item).Some?
                  || (Chosen(orders, rows) != [] && Chosen(orders, rows)[0] == rows[0]))
  {
    SizesBounded(run);
    ChosenFits(Exec(INIT, run).orders, rows);
    if rows != [] {
      FirstGetsThrough(Exec(INIT, run).orders, rows);
    }
  }

  // ---- status updates ----

  lemma {:induction false} FirstProcessedSame(xs: seq<Order>, ys: seq<Order>, x: string)
    requires |xs| == |ys|
    requires forall i :: 0 <= i < |xs| ==> xs[i].item == ys[i].item && (xs[i].item == x ==> xs[i].chain == ys[i].chain)
    ensures FirstProcessed(xs, x) == FirstProcessed(ys, x)
  {
    if xs != [] {
      FirstProcessedSame(xs[..|xs| - 1], ys[..|ys| - 1], x);
    }
  }

  /** Copying statuses along changes neither which items are processed nor with which status. */
  lemma CopyingKeeps(orders: seq<Order>, copied: map<string, Chain>, x: string)
    requires CopiesOnly(orders, copied)
    ensures var f, g := FirstProcessed(orders, x), FirstProcessed(ApplyChain(orders, copied), x);
            && (f.Some? <==> g.Some?)
            && (f.Some? ==> orders[f.value].chain == ApplyChain(orders, copied)[g.value].chain)
  {
    var after := ApplyChain(orders, copied);
    if x in copied {
      assert Processed(after[FirstProcessed(orders, x).value]);
    } else {
      FirstProcessedSame(orders, after, x);
    }
  }

  lemma NothingCopied(orders: seq<Order>, ords: seq<nat>)
    ensures CopiesOnly(orders, map[]) && ApplyChain(orders, map[]) == orders
    ensures ords[..0] == [] && Chosen(orders, []) == [] && Total(orders, []) == 0 && Items(orders, []) == []
    ensures Resolvable(orders, []) == {}
  {}

  lemma CopyOneMore(orders: seq<Order>, copied: map<string, Chain>, x: string)
    requires CopiesOnly(orders, copied) && FirstProcessed(orders, x).Some?
    ensures CopiesOnly(orders, copied[x := orders[FirstProcessed(orders, x).value].chain])
  {}

  /** Status updates leave the rest of an order alone. */
  lemma SameOrder(orders: seq<Order>, upd: map<string, Chain>, i: nat)
    requires i < |orders|
    ensures |ApplyChain(orders, upd)| == |orders|
    ensures ApplyChain(orders, upd)[i].item == orders[i].item && ApplyChain(orders, upd)[i].size == orders[i].size
  {}

  lemma ApplyOneMore(orders: seq<Order>, upd: map<string, Chain>, x: string, c: Chain)
    ensures ApplyChain(ApplyChain(orders, upd), map[x := c]) == ApplyChain(orders, upd[x := c])
  {}

  lemma NothingMarked(orders: seq<Order>, status: Chain)
    ensures ApplyChain(orders, Mark({}, status)) == orders
  {}

  lemma MarkOneMore(orders: seq<Order>, marked: set<string>, x: string, status: Chain)
    ensures ApplyChain(ApplyChain(orders, Mark(marked, status)), map[x := status])
         == ApplyChain(orders, Mark(marked + {x}, status))
  {}

  lemma ApplyTwice(orders: seq<Order>, first: map<string, Chain>, second: map<string, Chain>)
    ensures ApplyChain(ApplyChain(orders, first), second) == ApplyChain(orders, first + second)
  {}

  // ---- arrangement ----

  datatype Item = Item(id: string, data: seq<Byte>)

  /** What getOnChainBundle loads: the items that are stored and decode, in the order asked for. */
  function Loaded(itemIds: seq<string>, stored: set<string>, decode: string -> Option<Item>): seq<Item> {
    if itemIds == [] then []
    else
      var x := itemIds[|itemIds| - 1];
      Loaded(itemIds[..|itemIds| - 1], stored, decode)
      + if x in stored && decode(x).Some? then [decode(x).value] else []
  }

  /** Loading goes id by id, in order. */
  lemma {:induction false} LoadedConcat(
    a: seq<string>, b: seq<string>, stored: set<string>, decode: string -> Option<Item>)
    ensures Loaded(a + b, stored, decode) == Loaded(a, stored, decode) + Loaded(b, stored, decode)
  {
    if b == [] {
      assert a + b == a;
    } else {
      LoadedConcat(a, b[..|b| - 1], stored, decode);
      assert (a + b)[..|a + b| - 1] == a + b[..|b| - 1];
    }
  }

  lemma LoadedOne(x: string, stored: set<string>, decode: string -> Option<Item>)
    ensures Loaded([x], stored, decode) == if x in stored && decode(x).Some? then [decode(x).value] else []
  {}

  predicate AllEmpty(items: seq<Item>) {
    forall i :: 0 <= i < |items| ==> items[i].data == []
  }

  /** `after` is `before` with its first data-bearing item at the end, the others in their old order. */
  ghost predicate MovedToEnd(before: seq<Item>, after: seq<Item>) {
    exists k :: 0 <= k < |before| && AllEmpty(before[..k]) && before[k].data != []
                && after == before[..k] + before[k + 1..] + [before[k]]
  }

  lemma MovingPermutes(before: seq<Item>, after: seq<Item>)
    requires MovedToEnd(before, after)
    ensures multiset(after) == multiset(before)
    ensures after != [] && after[|after| - 1].data != []
  {
    var k :| 0 <= k < |before| && AllEmpty(before[..k]) && before[k].data != []
      && after == before[..k] + before[k + 1..] + [before[k]];
    SplitOut(before, k);
  }

  lemma SplitOut<T>(s: seq<T>, k: nat)
    requires k < |s|
    ensures multiset(s[..k] + s[k + 1..] + [s[k]]) == multiset(s)
  {
    var a, b, c := s[..k], s[k + 1..], [s[k]];
    assert s == a + c + b;
    assert multiset(a + b + c) == multiset(a + b) + multiset(c) == multiset(a) + multiset(b) + multiset(c);
    assert multiset(a + c + b) == multiset(a + c) + multiset(b) == multiset(a) + multiset(c) + multiset(b);
  }

  method LoadItems(itemIds: seq<string>, stored: set<string>, decode: string -> Option<Item>)
    returns (items: seq<Item>)
    ensures items == Loaded(itemIds, stored, decode)
  {
    items := [];
    for i := 0 to |itemIds|
      invariant items == Loaded(itemIds[..i], stored, decode)
    {
      assert itemIds[..i + 1][..i] == itemIds[..i];
      if itemIds[i] in stored {
        var item := decode(itemIds[i]);
        if item.Some? {
          items := items + [item.value];
        }
      }
    }
    assert itemIds[..|itemIds|] == itemIds;
  }

  method FirstWithData(items: seq<Item>) returns (idx: int)
    ensures idx == -1 ==> AllEmpty(items)
    ensures idx != -1 ==> 0 <= idx < |items| && AllEmpty(items[..idx]) && items[idx].data != []
  {
    for i := 0 to |items|
      invariant AllEmpty(items[..i])
    {
      if items[i].data != [] {
        return i;
      }
    }
    assert items[..|items|] == items;
    return -1;
  }

  /**
   getOnChainBundle: the loaded items, rearranged so that the last has data whenever any has. The result is an error
   exactly if there is none with data.
   */
  method GetOnChainBundle(itemIds: seq<string>, stored: set<string>, decode: string -> Option<Item>)
    returns (onChainItems: seq<Item>, err: bool)
    ensures err <==> AllEmpty(Loaded(itemIds, stored, decode))
    ensures !err ==> onChainItems != [] && onChainItems[|onChainItems| - 1].data != []
    ensures multiset(onChainItems) == multiset(Loaded(itemIds, stored, decode))
    ensures || onChainItems == Loaded(itemIds, stored, decode)
            || MovedToEnd(Loaded(itemIds, stored, decode), onChainItems)
  {
    onChainItems := LoadItems(itemIds, stored, decode);
    if |onChainItems| == 0 {
      return onChainItems, true;
    }
    if onChainItems[|onChainItems| - 1].data == [] {
      var idx := FirstWithData(onChainItems);
      if idx == -1 {
        return onChainItems, true;
      }
      ghost var loaded := onChainItems;
      var newEndItem := onChainItems[idx];
      onChainItems := onChainItems[..idx] + onChainItems[idx + 1..];
      onChainItems := onChainItems + [newEndItem];
      assert MovedToEnd(loaded, onChainItems);
      MovingPermutes(loaded, onChainItems);
    }
    return onChainItems, false;
  }

  /** Items decode to what was stored under their id. */
  ghost predicate Faithful(decode: string -> Option<Item>) {
    forall x {:trigger decode(x)} :: decode(x).Some? ==> decode(x).value.id == x
  }

  function Ids(items: seq<Item>): seq<string> {
    seq(|items|, i requires 0 <= i < |items| => items[i].id)
  }

  lemma {:induction false} LoadedIs(
    itemIds: seq<string>, stored: set<string>, decode: string -> Option<Item>, item: Item)
    requires Faithful(decode)
    ensures item in Loaded(itemIds, stored, decode) <==>
            item.id in itemIds && item.id in stored && decode(item.id) == Some(item)
  {
    if itemIds != [] {
      var n := |itemIds| - 1;
      LoadedIs(itemIds[..n], stored, decode, item);
      assert itemIds == itemIds[..n] + [itemIds[n]];
    }
  }

  /** The ids in the arranged bundle are those of the items asked for that are stored and decode. */
  lemma BundledIs(
    itemIds: seq<string>, stored: set<string>, decode: string -> Option<Item>, items: seq<Item>, x: string)
    requires Faithful(decode) && multiset(items) == multiset(Loaded(itemIds, stored, decode))
    ensures x in Ids(items) <==> x in itemIds && x in stored && decode(x).Some?
  {
    var loaded := Loaded(itemIds, stored, decode);
    if x in Ids(items) {
      var i :| 0 <= i < |Ids(items)| && Ids(items)[i] == x;
      assert items[i] in multiset(items);
      LoadedIs(itemIds, stored, decode, items[i]);
    }
    if x in itemIds && x in stored && decode(x).Some? {
      LoadedIs(itemIds, stored, decode, decode(x).value);
      assert decode(x).value in multiset(loaded);
      var i :| 0 <= i < |items| && items[i] == decode(x).value;
      assert Ids(items)[i] == x;
    }
  }

  /** Chosen rows are listed, and their items are in no processed order. */
  lemma {:induction false} ChosenUnprocessed(orders: seq<Order>, rows: seq<nat>, x: string)
    requires forall j :: 0 <= j < |rows| ==> rows[j] < |orders|
    requires x in Items(orders, Chosen(orders, rows))
    ensures FirstProcessed(orders, x).None? && exists j :: 0 <= j < |rows| && orders[rows[j]].item == x
  {
    var chosen := Chosen(orders, rows);
    var j :| 0 <= j < |chosen| && orders[chosen[j]].item == x;
    if j == |chosen| - 1 && chosen != Chosen(orders, rows[..|rows| - 1]) {
      assert chosen[j] == rows[|rows| - 1];
    } else {
      var front := rows[..|rows| - 1];
      assert Chosen(orders, front)[j] == chosen[j];
      assert Items(orders, Chosen(orders, front))[j] == x;
      ChosenUnprocessed(orders, front, x);
      var k :| 0 <= k < |front| && orders[front[k]].item == x;
      assert rows[k] == front[k];
    }
  }

  /** A bundle of chosen items under a new id. */
  lemma BundleIsFresh(s: Db, ords: seq<nat>, b: Batch)
    requires forall j :: 0 <= j < |ords| ==> ords[j] < |s.orders|
    requires b.arId !in s.sent
    requires forall x :: x in b.items ==> x in Items(s.orders, Chosen(s.orders, ords)) && x in s.items
    ensures FreshBatch(s, ords, b)
  {
    forall x | x in b.items
      ensures FirstProcessed(s.orders, x).None?
      ensures exists j :: 0 <= j < |ords| && ords[j] < |s.orders| && s.orders[ords[j]].item == x
    {
      ChosenUnprocessed(s.orders, ords, x);
      var j :| 0 <= j < |ords| && s.orders[ords[j]].item == x;
      assert ords[j] < |s.orders|;
    }
  }

  /** The bundle has exactly the chosen items that are stored and decode. */
  ghost predicate Bundled(s: Db, ords: seq<nat>, decode: string -> Option<Item>, b: Batch)
    requires forall j :: 0 <= j < |ords| ==> ords[j] < |s.orders|
  {
    forall x :: x in b.items <==> x in Items(s.orders, Chosen(s.orders, ords)) && x in s.items && decode(x).Some?
  }

  /** Only items that decode go into the bundles of the run. */
  ghost predicate AllDecode(items: seq<string>, decode: string -> Option<Item>) {
    forall x :: x in items ==> decode(x).Some?
  }

  ghost predicate BundlesDecode(run: Run<Action>, decode: string -> Option<Item>) {
    run.Then? ==> BundlesDecode(run.before, decode) && ActDecodes(run.act, decode)
  }

  ghost predicate ActDecodes(a: Action, decode: string -> Option<Item>) {
    (a.BundleSend? || a.SeqSend?) && a.batch.Some? ==> AllDecode(a.batch.value.items, decode)
  }

  /** The items of all records and of the bundles under way decode. */
  ghost predicate RecordsDecode(s: Db, decode: string -> Option<Item>) {
    && (forall k :: 0 <= k < |s.arTxs| ==> AllDecode(s.arTxs[k].items, decode))
    && (s.bundleJob.Some? ==> AllDecode(s.bundleJob.value.items, decode))
    && (s.seqJob.Some? ==> AllDecode(s.seqJob.value.items, decode))
  }

  lemma StepDecodes(s: Db, a: Action, decode: string -> Option<Item>)
    requires Enabled(s, a) && RecordsDecode(s, decode) && ActDecodes(a, decode)
    ensures RecordsDecode(Next(s, a), decode)
  {
    hide Next, AllDecode, FreshBatch, NeedOnChain, CopiesOnly, Picks, Covers, Refundable, Selects, ItemSet;
    NextRecords(s, a);
    NextJobs(s, a);
  }

  /** What has been recorded has been in a bundle, so a retry finds all of it decodable. */
  lemma {:induction false} RecordedDecodes(run: Run<Action>, decode: string -> Option<Item>)
    requires IsRun(INIT, run) && BundlesDecode(run, decode)
    ensures RecordsDecode(Exec(INIT, run), decode)
  {
    hide Enabled, Next, AllDecode;
    if run.Then? {
      RecordedDecodes(run.before, decode);
      StepDecodes(Exec(INIT, run.before), run.act, decode);
    }
  }

  lemma NeedOnChainRows(orders: seq<Order>, ords: seq<nat>, sorted: bool)
    requires NeedOnChain(orders, ords, sorted)
    ensures forall j :: 0 <= j < |ords| ==> ords[j] < |orders|
  {}
}
