/**
 Bundle items in the key-value store: a binary and a meta record per item, written and deleted in a set order with
 rollback. A step is one store write; saves and deletes of one id are serialized, those of different ids are not.
 */
module ItemStore {
  import opened Basics

  /** What the save or delete of an id has still to do. */
  datatype Pc =
    | BinarySaved   // the binary is put, the meta is next
    | MetaFailed    // the meta could not be put, deleting the binary is next
    | MetaDeleted   // the meta is deleted, deleting the binary is next

  datatype State = State(bins: set<string>, metas: set<string>, pcs: map<string, Pc>)

  datatype Action =
    | PutBinary(id: string)
    | PutMeta(id: string)
    | PutMetaFails(id: string)
    | DelMeta(id: string)
    | DelBinary(id: string)
    | DelBinaryFails(id: string)
    | Crash

  const INIT: State := State({}, {}, map[])

  /** saveItem starts only without a binary, DelItem only with one. */
  predicate Enabled(s: State, a: Action) {
    match a
    case PutBinary(id) => id !in s.pcs && id !in s.bins
    case PutMeta(id) => id in s.pcs && s.pcs[id].BinarySaved?
    case PutMetaFails(id) => id in s.pcs && s.pcs[id].BinarySaved?
    case DelMeta(id) => id !in s.pcs && id in s.bins
    case DelBinary(id) => id in s.pcs && !s.pcs[id].BinarySaved?
    case DelBinaryFails(id) => id in s.pcs && !s.pcs[id].BinarySaved?
    case Crash => true
  }

  function Next(s: State, a: Action): State
    requires Enabled(s, a)
  {
    match a
    case PutBinary(id) => s.(bins := s.bins + {id}, pcs := s.pcs[id := BinarySaved])
    case PutMeta(id) => s.(metas := s.metas + {id}, pcs := s.pcs - {id})
    case PutMetaFails(id) => s.(pcs := s.pcs[id := MetaFailed])
    case DelMeta(id) => s.(metas := s.metas - {id}, pcs := s.pcs[id := MetaDeleted])
    case DelBinary(id) => s.(bins := s.bins - {id}, pcs := s.pcs - {id})
    case DelBinaryFails(id) => s.(pcs := s.pcs - {id})
    case Crash => s.(pcs := map[])
  }

  ghost predicate IsRun(s: State, run: Run<Action>)
    decreases run, 0
  {
    run.Then? ==> IsRun(s, run.before) && Enabled(Exec(s, run.before), run.act)
  }

  ghost function Exec(s: State, run: Run<Action>): State
    requires IsRun(s, run)
    decreases run, 1
  {
    if run.Begin? then s else Next(Exec(s, run.before), run.act)
  }

  /** A crash can come at any time; it ends what is under way and leaves what is written. */
  lemma CrashForgets(s: State)
    ensures Enabled(s, Crash) && Next(s, Crash).pcs == map[] && s == Next(s, Crash).(pcs := s.pcs)
  {}

  /** An item under way has no meta yet or any more, and its binary is there until it is deleted. */
  ghost predicate Inv(s: State) {
    && s.metas <= s.bins
    && (forall id :: id in s.pcs ==> id in s.bins && id !in s.metas)
  }

  /** Meta without binary never exists: not between the writes, not after failures, not after a crash. */
  lemma {:induction false} MetaImpliesBinary(run: Run<Action>)
    requires IsRun(INIT, run)
    ensures Inv(Exec(INIT, run))
  {
    if run.Then? {
      MetaImpliesBinary(run.before);
    }
  }

  class Store {
    var bins: set<string>
    var metas: set<string>
    var tick: nat
    const fault: nat -> bool
    ghost var pcs: map<string, Pc>
    ghost var run: Run<Action>

    ghost function View(): State
      reads this
    {
      State(bins, metas, pcs)
    }

    ghost predicate Reached(s: State)
      reads this`run
    {
      IsRun(INIT, run) && Exec(INIT, run) == s
    }

    /** Nothing is under way. */
    ghost predicate Valid()
      reads this
    {
      Reached(View()) && pcs == map[]
    }

    constructor (fault: nat -> bool)
      ensures Valid() && this.fault == fault && View() == INIT
    {
      this.fault := fault;
      bins, metas, tick, pcs, run := {}, {}, 0, map[], Begin;
    }

    method Try() returns (ok: bool)
      modifies this`tick
      ensures ok == !fault(old(tick)) && tick == old(tick) + 1
    {
      ok := !fault(tick);
      tick := tick + 1;
    }

    ghost method Log(s: State, a: Action)
      requires Reached(s) && Enabled(s, a) && View() == Next(s, a)
      modifies this`run
      ensures Reached(View()) && run == Then(old(run), a)
    {
      run := Then(run, a);
    }

    /** Both records are put, or an error; after an error the binary stays only if it could not be deleted again. */
    method AtomicSaveItem(id: string) returns (ok: bool)
      requires Valid() && id !in bins
      modifies this
      ensures Valid() && Extends(old(run), run)
      ensures ok <==> !fault(old(tick)) && !fault(old(tick) + 1)
      ensures old(tick) <= tick && (Quiet(fault, old(tick), tick) ==> ok)
      ensures if ok then bins == old(bins) + {id} && metas == old(metas) + {id}
              else metas == old(metas) &&
                   bins == old(bins) + if !fault(old(tick)) && fault(old(tick) + 2) then {id} else {}
    {
      MetaImpliesBinary(run);
      ghost var start := run;
      ok := Try();
      if !ok {
        return;
      }
      ghost var s := View();
      bins, pcs := bins + {id}, pcs[id := BinarySaved];
      Log(s, PutBinary(id));
      ok := Try();
      s := View();
      if ok {
        metas, pcs := metas + {id}, pcs - {id};
        Log(s, PutMeta(id));
        assert Extends(start, run) by { assert Extends(start, run.before.before); assert Extends(start, run.before); }
        return;
      }
      pcs := pcs[id := MetaFailed];
      Log(s, PutMetaFails(id));
      var deleted := Try();
      s := View();
      pcs := pcs - {id};
      if deleted {
        bins := bins - {id};
        Log(s, DelBinary(id));
      } else {
        Log(s, DelBinaryFails(id));
      }
      assert Extends(start, run) by {
        assert Extends(start, run.before.before.before);
        assert Extends(start, run.before.before);
        assert Extends(start, run.before);
      }
    }

    /** The meta goes first, so that a failure in between leaves a binary without meta and never the reverse. */
    method AtomicDelItem(id: string) returns (ok: bool)
      requires Valid() && id in bins
      modifies this
      ensures Valid() && Extends(old(run), run)
      ensures ok <==> !fault(old(tick)) && !fault(old(tick) + 1)
      ensures old(tick) <= tick && (Quiet(fault, old(tick), tick) ==> ok)
      ensures metas == old(metas) - if fault(old(tick)) then {} else {id}
      ensures bins == old(bins) - if ok then {id} else {}
    {
      ghost var start := run;
      ok := Try();
      if !ok {
        return;
      }
      ghost var s := View();
      metas, pcs := metas - {id}, pcs[id := MetaDeleted];
      Log(s, DelMeta(id));
      ok := Try();
      s := View();
      pcs := pcs - {id};
      if ok {
        bins := bins - {id};
        Log(s, DelBinary(id));
      } else {
        Log(s, DelBinaryFails(id));
      }
      assert Extends(start, run) by { assert Extends(start, run.before.before); assert Extends(start, run.before); }
    }

    /** saveItem: an item that is already there is not touched. */
    method SaveItem(id: string) returns (ok: bool)
      requires Valid()
      modifies this
      ensures Valid() && Extends(old(run), run)
      ensures ok ==> id in bins
      ensures old(tick) <= tick && (Quiet(fault, old(tick), tick) ==> ok)
      ensures bins == old(bins) + if id in bins then {id} else {}
      ensures metas - {id} == old(metas) - {id}
      ensures id in old(bins) ==> ok && View() == old(View())
      ensures id !in old(bins) ==>
                && (ok <==> !fault(old(tick)) && !fault(old(tick) + 1))
                && (ok <==> id in metas)
    {
      MetaImpliesBinary(run);
      if id in bins {
        return true;
      }
      ok := AtomicSaveItem(id);
    }

    /** DelItem: an absent item is no error. */
    method DelItem(id: string) returns (ok: bool)
      requires Valid()
      modifies this
      ensures Valid() && Extends(old(run), run)
      ensures ok <==> id !in bins
      ensures old(tick) <= tick && (Quiet(fault, old(tick), tick) ==> ok)
      ensures ok ==> id !in metas
      ensures bins == old(bins) - (if ok then {id} else {}) && metas - {id} == old(metas) - {id}
      ensures ok <==> id !in old(bins) || (!fault(old(tick)) && !fault(old(tick) + 1))
    {
      MetaImpliesBinary(run);
      if id !in bins {
        return true;
      }
      ok := AtomicDelItem(id);
    }
  }
}
