/** taskmanager.go, task.go and registerTask: the task map beside the durable pool, and the broadcast loops. */
module TaskManager {
  import opened Basics
  import opened Codec
  import opened TaskPool

  datatype Task = Task(
    arId: string, taskType: string,
    succeeded: nat, failed: nat, totalPeer: nat, timestamp: int, closed: bool)

  /** How many of the first n answers are b. */
  function Count(answers: seq<bool>, n: nat, b: bool): nat
    requires n <= |answers|
  {
    if n == 0 then 0 else Count(answers, n - 1, b) + if answers[n - 1] == b then 1 else 0
  }

  /** The task with the first n answers counted. */
  function Counted(t: Task, answers: seq<bool>, n: nat): Task
    requires n <= |answers|
  {
    t.(succeeded := t.succeeded + Count(answers, n, true), failed := t.failed + Count(answers, n, false))
  }

  function Both(created: seq<bool>, uploaded: seq<bool>): (r: seq<bool>)
    requires |created| == |uploaded|
    ensures |r| == |created|
  {
    seq(|created|, i requires 0 <= i < |created| => created[i] && uploaded[i])
  }

  /** A task as it is made at start-up from a pooled id: its parts assemble to the id, and nothing is counted yet. */
  ghost predicate Restored(id: string, t: Task) {
    && AssembleTaskId(t.arId, t.taskType) == id && '-' !in t.taskType
    && t.succeeded == 0 && t.failed == 0 && t.totalPeer == 0 && t.timestamp == 0 && !t.closed
  }

  ghost predicate AllRestored(tasks: map<string, Task>) {
    forall id :: id in tasks ==> Restored(id, tasks[id])
  }

  lemma OneMoreRestored(tasks: map<string, Task>, id: string, t: Task)
    requires AllRestored(tasks) && Restored(id, t)
    ensures AllRestored(tasks[id := t])
  {}

  /** A pooled id can be taken apart and put together again. */
  lemma PooledIdSplits(id: string)
    requires IsTaskId(id)
    ensures SplitTaskId(id).Some?
    ensures AssembleTaskId(SplitTaskId(id).value.0, SplitTaskId(id).value.1) == id
    ensures var parts := SplitTaskId(id).value;
            Restored(id, Task(parts.0, parts.1, 0, 0, 0, 0, false))
  {
    AssembledIsTaskId("", "", id);
  }

  lemma OneMoreSent(done: set<string>, id: string)
    requires id !in done
    ensures multiset(done + {id}) == multiset(done) + multiset{id}
  {}

  ghost predicate TaskIds(ids: set<string>) {
    forall id {:trigger IsTaskId(id)} :: id in ids ==> IsTaskId(id)
  }

  class Manager {
    var taskMap: map<string, Task>
    var pool: set<string>
    var saved: map<string, Task>     // TaskBucket
    var sending: multiset<string>    // goroutines blocked on tkChan
    var running: multiset<string>    // goroutines in processTask
    var tick: nat
    const fault: nat -> bool
    var clock: nat
    const kill: nat -> bool          // at which points of a broadcast the task is closed from outside
    ghost var stuck: set<string>
    ghost var run: Run<Action>

    ghost function View(): State
      reads this`pool, this`sending, this`running, this`stuck
    {
      State(pool, sending, running, stuck)
    }

    ghost predicate Reached(s: State)
      reads this`run
    {
      IsRun(INIT, run) && Exec(INIT, run) == s
    }

    ghost predicate Valid()
      reads this`pool, this`sending, this`running, this`stuck, this`run
    {
      Reached(View()) && TaskIds(pool)
    }

    constructor (fault: nat -> bool, kill: nat -> bool)
      ensures Valid() && View() == INIT && taskMap == map[] && this.fault == fault && this.kill == kill
    {
      this.fault, this.kill := fault, kill;
      taskMap, pool, saved, sending, running := map[], {}, map[], multiset{}, multiset{};
      tick, clock, stuck, run := 0, 0, {}, Begin;
    }

    method Try() returns (ok: bool)
      modifies this`tick
      ensures ok == !fault(old(tick)) && tick == old(tick) + 1
    {
      ok := !fault(tick);
      tick := tick + 1;
    }

    ghost method Log(s: State, a: Action)
      requires Reached(s) && Enabled(s, a) && View() == Next(s, a)
      modifies this`run
      ensures Reached(View()) && run == Then(old(run), a)
    {
      run := Then(run, a);
    }

    // ---- the task map ----

    method AddTask(id: string, arId: string, taskType: string)
      modifies this`taskMap
      ensures taskMap == if id in old(taskMap) then old(taskMap)
                         else old(taskMap)[id := Task(arId, taskType, 0, 0, 0, 0, false)]
    {
      if id in taskMap {
        return;
      }
      taskMap := taskMap[id := Task(arId, taskType, 0, 0, 0, 0, false)];
    }

    method DelTask(id: string)
      modifies this`taskMap
      ensures taskMap == old(taskMap) - {id}
    {
      taskMap := taskMap - {id};
    }

    /** IncSuccessed and IncFailed: one peer's answer is counted, for a task that is in the map. */
    method Inc(id: string, success: bool)
      modifies this`taskMap
      ensures id !in old(taskMap) ==> taskMap == old(taskMap)
      ensures id in old(taskMap) ==>
                var t := old(taskMap)[id];
                taskMap == old(taskMap)[
                  id := if success then t.(succeeded := t.succeeded + 1) else t.(failed := t.failed + 1)]
    {
      if id in taskMap {
        var t := taskMap[id];
        taskMap := taskMap[id := if success then t.(succeeded := t.succeeded + 1) else t.(failed := t.failed + 1)];
      }
    }

    /** False is ErrNotFound. */
    method CloseTask(id: string) returns (ok: bool)
      modifies this`taskMap
      ensures ok == (id in old(taskMap))
      ensures taskMap == if ok then old(taskMap)[id := old(taskMap)[id].(closed := true)] else old(taskMap)
    {
      ok := id in taskMap;
      if ok {
        taskMap := taskMap[id := taskMap[id].(closed := true)];
      }
    }

    method IsClosed(id: string) returns (closed: bool)
      ensures closed <==> id in taskMap && taskMap[id].closed
    {
      closed := id in taskMap && taskMap[id].closed;
    }

    method TaskBeginSet(id: string, now: int, totalPeer: nat) returns (ok: bool)
      modifies this`taskMap
      ensures ok == (id in old(taskMap))
      ensures taskMap == if ok then old(taskMap)[id := old(taskMap)[id].(timestamp := now, totalPeer := totalPeer)]
                         else old(taskMap)
    {
      ok := id in taskMap;
      if ok {
        taskMap := taskMap[id := taskMap[id].(timestamp := now, totalPeer := totalPeer)];
      }
    }

    // ---- registration, processing, restart ----

    method PutTaskPendingPool(id: string) returns (ok: bool)
      requires Valid() && IsTaskId(id)
      modifies this`pool, this`sending, this`tick, this`run
      ensures Valid() && Extends(old(run), run) && ok == !fault(old(tick))
      ensures pool == (if ok then old(pool) + {id} else old(pool))
      ensures sending == (if ok then old(sending) + multiset{id} else old(sending))
    {
      ok := Try();
      if ok {
        ghost var s := View();
        pool, sending := pool + {id}, sending + multiset{id};
        Log(s, Register(id));
      }
    }

    /** An accepted task is pooled before anyone hears of it; a refused one leaves no trace in pool or channel. */
    method RegisterTask(arId: string, taskType: string) returns (ok: bool)
      requires Valid()
      modifies this`taskMap, this`pool, this`sending, this`tick, this`run
      ensures Valid() && Extends(old(run), run) && ok == !fault(old(tick))
      ensures var id := AssembleTaskId(arId, taskType);
              && pool == (if ok then old(pool) + {id} else old(pool))
              && sending == (if ok then old(sending) + multiset{id} else old(sending))
      ensures var id := AssembleTaskId(arId, taskType);
              && (!ok ==> taskMap == old(taskMap) - {id})
              && (ok && id in old(taskMap) ==> taskMap == old(taskMap))
              && (ok && id !in old(taskMap) ==>
                    taskMap == old(taskMap)[id := Task(arId, taskType, 0, 0, 0, 0, false)])
    {
      var id := AssembleTaskId(arId, taskType);
      assert IsTaskId(id) by {
        AssembledIsTaskId(arId, taskType, id);
      }
      AddTask(id, arId, taskType);
      ok := PutTaskPendingPool(id);
      if !ok {
        DelTask(id);
      }
    }

    /** runTask receives a token and starts its processor. */
    method TakeTask(id: string)
      requires Valid() && id in sending
      modifies this`sending, this`running, this`run
      ensures Valid() && Extends(old(run), run)
      ensures sending == old(sending) - multiset{id} && running == old(running) + multiset{id}
    {
      ghost var s := View();
      sending, running := sending - multiset{id}, running + multiset{id};
      Log(s, Take(id));
    }

    method SaveTask(id: string, t: Task) returns (ok: bool)
      modifies this`saved, this`tick
      ensures ok == !fault(old(tick)) && tick == old(tick) + 1
      ensures ok ==> saved == old(saved)[id := t]
      ensures !ok ==> saved == old(saved)
    {
      ok := Try();
      if ok {
        saved := saved[id := t];
      }
    }

    /** The processor's token ends, with the id deleted from the pool or not. */
    method EndToken(id: string, deleted: bool)
      requires Valid() && id in running
      modifies this`pool, this`running, this`stuck, this`run
      ensures Valid() && Extends(old(run), run)
      ensures running == old(running) - multiset{id}
      ensures deleted ==> pool == old(pool) - {id}
      ensures !deleted ==> pool == old(pool)
    {
      ghost var s := View();
      running := running - multiset{id};
      if deleted {
        pool, stuck := pool - {id}, stuck - {id};
        Log(s, Finish(id));
      } else {
        stuck := stuck + {id};
        Log(s, FinishFails(id));
      }
    }

    /** The writes of setProcessedTask in their order: save, forget in the map, delete from the pool. */
    method CleanUp(id: string) returns (ok: bool)
      modifies this`taskMap, this`saved, this`tick
      ensures ok <==> !fault(old(tick)) && (id in old(taskMap) ==> !fault(old(tick) + 1))
      ensures id in old(taskMap) && !fault(old(tick)) ==> saved == old(saved)[id := old(taskMap)[id]]
      ensures id !in old(taskMap) || fault(old(tick)) ==> saved == old(saved)
      ensures id in old(taskMap) && fault(old(tick)) ==> taskMap == old(taskMap)
      ensures id !in old(taskMap) || !fault(old(tick)) ==> taskMap == old(taskMap) - {id}
    {
      if id in taskMap {
        ok := SaveTask(id, taskMap[id]);
        if !ok {
          return;
        }
      }
      DelTask(id);
      ok := Try();
    }

    /**
     The processor's cleanup ends its token. The pool forgets the id if and only if every write succeeds; a task
     that is still in the map is saved first, and a failed save leaves map and pool as they were.
     */
    method SetProcessedTask(id: string) returns (ok: bool)
      requires Valid() && id in running
      modifies this`taskMap, this`saved, this`pool, this`running, this`stuck, this`tick, this`run
      ensures Valid() && Extends(old(run), run)
      ensures running == old(running) - multiset{id}
      ensures ok <==> !fault(old(tick)) && (id in old(taskMap) ==> !fault(old(tick) + 1))
      ensures ok ==> pool == old(pool) - {id}
      ensures !ok ==> pool == old(pool)
      ensures id in old(taskMap) && !fault(old(tick)) ==> saved == old(saved)[id := old(taskMap)[id]]
      ensures id in old(taskMap) && fault(old(tick)) ==> taskMap == old(taskMap)
      ensures id !in old(taskMap) || !fault(old(tick)) ==> taskMap == old(taskMap) - {id}
    {
      ok := CleanUp(id);
      EndToken(id, ok);
    }

    /** One goroutine of InitTaskMg: the id is taken apart, put into the map and sent. */
    method AddAndSend(id: string)
      requires IsTaskId(id) && id !in taskMap && AllRestored(taskMap)
      modifies this`taskMap, this`sending
      ensures sending == old(sending) + multiset{id} && taskMap.Keys == old(taskMap).Keys + {id}
      ensures AllRestored(taskMap)
    {
      hide SplitTaskId, AssembleTaskId, IsTaskId, Restored, AllRestored;
      PooledIdSplits(id);
      var parts := SplitTaskId(id);
      if parts.Some? {
        OneMoreRestored(taskMap, id, Task(parts.value.0, parts.value.1, 0, 0, 0, 0, false));
        AddTask(AssembleTaskId(parts.value.0, parts.value.1), parts.value.0, parts.value.1);
        sending := sending + multiset{AssembleTaskId(parts.value.0, parts.value.1)};
      }
    }

    /** The goroutines of InitTaskMg, in whatever order they run. */
    method SendAll(ids: set<string>)
      requires TaskIds(ids) && taskMap == map[] && sending == multiset{}
      modifies this`taskMap, this`sending
      ensures sending == multiset(ids) && taskMap.Keys == ids
      ensures AllRestored(taskMap)
    {
      assert AllRestored(taskMap);
      hide AllRestored;
      var rest := ids;
      ghost var done: set<string> := {};
      while rest != {}
        invariant done !! rest && done + rest == ids
        invariant sending == multiset(done)
        invariant taskMap.Keys == done && AllRestored(taskMap)
        decreases rest
      {
        var id :| id in rest;
        AddAndSend(id);
        OneMoreSent(done, id);
        rest, done := rest - {id}, done + {id};
      }
      assert done == ids;
    }

    /**
     Start-up after a crash at any point: every pooled id is back in the map and sent once, also those whose cleanup
     had failed.
     */
    method InitTaskMg()
      requires Valid()
      modifies this`taskMap, this`sending, this`running, this`stuck, this`run
      ensures Valid() && run == Then(old(run), Restart)
      ensures sending == multiset(pool) && running == multiset{} && stuck == {}
      ensures taskMap.Keys == pool
      ensures forall id :: id in taskMap ==>
                var t := taskMap[id];
                && AssembleTaskId(t.arId, t.taskType) == id && '-' !in t.taskType
                && t.succeeded == 0 && t.failed == 0 && t.totalPeer == 0 && t.timestamp == 0 && !t.closed
    {
      hide AssembleTaskId;
      ghost var s := View();
      taskMap, sending, running, stuck := map[], multiset{}, multiset{}, {};
      SendAll(pool);
      Log(s, Restart);
    }

    // ---- broadcasting ----

    /** What others may do to the task between two instructions of its processor: close it. */
    method Interfere(id: string)
      requires id in taskMap
      modifies this`taskMap, this`clock
      ensures clock == old(clock) + 1
      ensures taskMap == if kill(old(clock)) then old(taskMap)[id := old(taskMap)[id].(closed := true)]
                         else old(taskMap)
    {
      if kill(clock) {
        var ok := CloseTask(id);
      }
      clock := clock + 1;
    }

    /** One peer is contacted and counted, then the task is looked at; others may close it before and after. */
    method Contact(id: string, answer: bool) returns (late: bool, closed: bool)
      requires id in taskMap
      modifies this`taskMap, this`clock
      ensures clock == old(clock) + 2
      ensures late == (old(taskMap)[id].closed || kill(old(clock)))
      ensures closed == (late || kill(old(clock) + 1))
      ensures var t := old(taskMap)[id];
              taskMap == old(taskMap)[id := if answer then t.(succeeded := t.succeeded + 1, closed := closed)
                                            else t.(failed := t.failed + 1, closed := closed)]
    {
      Interfere(id);
      late := taskMap[id].closed;
      Inc(id, answer);
      Interfere(id);
      closed := IsClosed(id);
    }

    /**
     Every contacted peer is counted exactly once. The run ends closed, and stops early only for a close; after a
     close at most one more peer is started.
     */
    method BroadcastTxMeta(id: string, answers: seq<bool>) returns (contacted: nat, lateStarts: nat)
      requires id in taskMap
      modifies this`taskMap, this`clock
      ensures contacted <= |answers| && lateStarts <= 1
      ensures id in taskMap && taskMap == old(taskMap)[id := taskMap[id]]
      ensures taskMap[id] == Counted(old(taskMap)[id], answers, contacted).(closed := true)
      ensures !old(taskMap)[id].closed && Quiet(kill, old(clock), clock) ==> contacted == |answers| && lateStarts == 0
      ensures contacted < |answers| ==> contacted > 0
    {
      contacted, lateStarts := 0, 0;
      while contacted < |answers|
        invariant 0 <= contacted <= |answers| && old(clock) <= clock
        invariant id in taskMap && taskMap == old(taskMap)[id := taskMap[id]]
        invariant taskMap[id] == Counted(old(taskMap)[id], answers, contacted).(closed := taskMap[id].closed)
        invariant lateStarts == 0
        invariant contacted > 0 ==> !taskMap[id].closed
        invariant !old(taskMap)[id].closed && Quiet(kill, old(clock), clock) ==> !taskMap[id].closed
      {
        var late, closed := Contact(id, answers[contacted]);
        lateStarts := lateStarts + if late then 1 else 0;
        contacted := contacted + 1;
        if closed {
          return;
        }
      }
      var ok := CloseTask(id);
    }

    /**
     BroadcastData counts the same way. A peer whose uploader cannot be created is counted as failed and skips the
     check for a close, so only of the peers that are uploaded to at most one is started after it.
     */
    method BroadcastData(id: string, created: seq<bool>, uploaded: seq<bool>) returns (contacted: nat, lateUploads: nat)
      requires id in taskMap && |created| == |uploaded|
      modifies this`taskMap, this`clock
      ensures contacted <= |created| && lateUploads <= 1
      ensures id in taskMap && taskMap == old(taskMap)[id := taskMap[id]]
      ensures taskMap[id] == Counted(old(taskMap)[id], Both(created, uploaded), contacted).(closed := true)
      ensures !old(taskMap)[id].closed && Quiet(kill, old(clock), clock) ==> contacted == |created| && lateUploads == 0
    {
      ghost var answers := Both(created, uploaded);
      contacted, lateUploads := 0, 0;
      while contacted < |created|
        invariant 0 <= contacted <= |created| && old(clock) <= clock
        invariant id in taskMap && taskMap == old(taskMap)[id := taskMap[id]]
        invariant taskMap[id] == Counted(old(taskMap)[id], answers, contacted).(closed := taskMap[id].closed)
        invariant lateUploads == 0
        invariant !old(taskMap)[id].closed && Quiet(kill, old(clock), clock) ==> !taskMap[id].closed
      {
        if !created[contacted] {
          Interfere(id);
          Inc(id, false);
          contacted := contacted + 1;
          continue;
        }
        var late, closed := Contact(id, uploaded[contacted]);
        lateUploads := lateUploads + if late then 1 else 0;
        contacted := contacted + 1;
        if closed {
          return;
        }
      }
      var ok := CloseTask(id);
    }

    // ---- task functions ----

    /** syncTask: a closed task is left alone; a task that begins is counted and closed only by a success. */
    method SyncTask(id: string, now: int, peers: nat, fetched: bool) returns (err: bool)
      modifies this`taskMap
      ensures id in old(taskMap) && old(taskMap)[id].closed ==> taskMap == old(taskMap) && !err
      ensures id !in old(taskMap) ==> taskMap == old(taskMap) && err
      ensures id in old(taskMap) && !old(taskMap)[id].closed ==>
                var begun := old(taskMap)[id].(timestamp := now, totalPeer := peers);
                && err == !fetched
                && taskMap == old(taskMap)[
                     id := if fetched then begun.(succeeded := begun.succeeded + 1, closed := true) else begun]
    {
      var closed := IsClosed(id);
      if closed {
        return false;
      }
      var begun := TaskBeginSet(id, now, peers);
      if !begun {
        return true;
      }
      err := !fetched;
      if fetched {
        Inc(id, true);
        var ok := CloseTask(id);
      }
    }

    /**
     broadcastTxMetaTask, with one answer for each peer of the list: if nobody closes the task meanwhile, it ends
     closed, with as many new successes and failures together as it has peers.
     */
    method BroadcastTxMetaTask(id: string, known: bool, now: int, answers: seq<bool>) returns (err: bool)
      modifies this`taskMap, this`clock
      ensures err <==> !known || id !in old(taskMap)
      ensures err || old(taskMap)[id].closed ==> taskMap == old(taskMap)
      ensures !err ==> id in taskMap && taskMap == old(taskMap)[id := taskMap[id]]
      ensures !err && !old(taskMap)[id].closed ==>
                && taskMap[id].closed && taskMap[id].totalPeer == |answers| && taskMap[id].timestamp == now
                && (Quiet(kill, old(clock), clock) ==>
                      && taskMap[id].succeeded == old(taskMap)[id].succeeded + Count(answers, |answers|, true)
                      && taskMap[id].succeeded + taskMap[id].failed
                         == old(taskMap)[id].succeeded + old(taskMap)[id].failed + taskMap[id].totalPeer)
    {
      if !known {
        return true;
      }
      var closed := IsClosed(id);
      if closed {
        return false;
      }
      var begun := TaskBeginSet(id, now, |answers|);
      if !begun {
        return true;
      }
      var contacted, lateStarts := BroadcastTxMeta(id, answers);
      CountsAddUp(answers, contacted);
      return false;
    }
  }

  /** Successes and failures together are the contacted peers. */
  lemma {:induction false} CountsAddUp(answers: seq<bool>, n: nat)
    requires n <= |answers|
    ensures Count(answers, n, true) + Count(answers, n, false) == n
  {
    if n > 0 {
      CountsAddUp(answers, n - 1);
    }
  }

  /** One more true answer raises the successes and one more false answer the failures. */
  lemma CountsFollow(answers: seq<bool>, n: nat)
    requires n < |answers|
    ensures Count(answers, n + 1, true) == Count(answers, n, true) + if answers[n] then 1 else 0
    ensures Count(answers, n + 1, false) == Count(answers, n, false) + if answers[n] then 0 else 1
  {}

  lemma {:induction false} AllSucceed(answers: seq<bool>, n: nat)
    requires n <= |answers| && forall i :: 0 <= i < n ==> answers[i]
    ensures Count(answers, n, true) == n && Count(answers, n, false) == 0
  {
    if n > 0 {
      AllSucceed(answers, n - 1);
    }
  }

  /** What is counted for a task is added to what it has, successes to successes. */
  lemma CountedIs(t: Task, answers: seq<bool>, n: nat)
    requires n <= |answers|
    ensures var u := Counted(t, answers, n);
            && u.succeeded - t.succeeded == Count(answers, n, true) && u.failed - t.failed == Count(answers, n, false)
            && u == t.(succeeded := u.succeeded, failed := u.failed)
  {}
}
