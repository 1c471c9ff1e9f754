/**
 The durable pending pool of task ids. A token is one goroutine's promise to process an id: a registration or a
 restart about to send it over the channel, or a processor that has taken it. A step is one pool write or one hand-over.
 */
module TaskPool {
  import opened Basics

  datatype State = State(
    pool: set<string>,           // TaskIdPendingPoolBucket
    sending: multiset<string>,   // tokens about to be sent
    running: multiset<string>,   // tokens taken by processTask
    stuck: set<string>)          // ids whose cleanup failed since the last restart

  datatype Action =
    | Register(id: string)       // PutTaskPendingPool succeeds; a failed put leaves no trace
    | Take(id: string)           // the channel hands a token to a processor
    | Finish(id: string)         // setProcessedTask deletes the id from the pool
    | FinishFails(id: string)    // SaveTask or the delete fails
    | Restart                    // a crash at any point, then InitTaskMg

  const INIT: State := State({}, multiset{}, multiset{}, {})

  predicate Enabled(s: State, a: Action) {
    match a
    case Register(_) => true
    case Take(id) => id in s.sending
    case Finish(id) => id in s.running
    case FinishFails(id) => id in s.running
    case Restart => true
  }

  function Next(s: State, a: Action): State
    requires Enabled(s, a)
  {
    match a
    case Register(id) => s.(pool := s.pool + {id}, sending := s.sending + multiset{id})
    case Take(id) => s.(sending := s.sending - multiset{id}, running := s.running + multiset{id})
    case Finish(id) => s.(running := s.running - multiset{id}, pool := s.pool - {id}, stuck := s.stuck - {id})
    case FinishFails(id) => s.(running := s.running - multiset{id}, stuck := s.stuck + {id})
    case Restart => State(s.pool, multiset(s.pool), multiset{}, {})
  }

  ghost predicate IsRun(s: State, run: Run<Action>)
    decreases run, 0
  {
    run.Then? ==> IsRun(s, run.before) && Enabled(Exec(s, run.before), run.act)
  }

  ghost function Exec(s: State, run: Run<Action>): State
    requires IsRun(s, run)
    decreases run, 1
  {
    if run.Begin? then s else Next(Exec(s, run.before), run.act)
  }

  function Tokens(s: State): multiset<string> {
    s.sending + s.running
  }

  /** How a step changes the number of tokens of one id. */
  lemma TokensAfter(s: State, a: Action, id: string)
    requires Enabled(s, a)
    ensures Tokens(Next(s, a))[id] ==
            match a
            case Register(x) => Tokens(s)[id] + (if x == id then 1 else 0)
            case Take(_) => Tokens(s)[id]
            case Finish(x) => Tokens(s)[id] - (if x == id then 1 else 0)
            case FinishFails(x) => Tokens(s)[id] - (if x == id then 1 else 0)
            case Restart => if id in s.pool then 1 else 0
  {
    match a
    case Register(x) =>
    case Take(x) =>
      assert s.sending[x] >= 1;
    case Finish(x) =>
      assert s.running[x] >= 1;
    case FinishFails(x) =>
      assert s.running[x] >= 1;
    case Restart =>
  }

  /** Under every interleaving, with restarts at any point, a pooled id has a token or a cleanup of it has failed. */
  lemma {:induction false} PooledHasToken(run: Run<Action>, id: string)
    requires IsRun(INIT, run)
    ensures id in Exec(INIT, run).pool ==> id in Tokens(Exec(INIT, run)) || id in Exec(INIT, run).stuck
  {
    if run.Then? {
      PooledHasToken(run.before, id);
      TokensAfter(Exec(INIT, run.before), run.act, id);
    }
  }

  /** The cleanups of a run since its last restart all succeeded. */
  predicate CleanSinceRestart(run: Run<Action>) {
    run.Begin? || run.act.Restart? || (!run.act.FinishFails? && CleanSinceRestart(run.before))
  }

  lemma {:induction false} CleanMeansNothingStuck(run: Run<Action>)
    requires IsRun(INIT, run) && CleanSinceRestart(run)
    ensures Exec(INIT, run).stuck == {}
  {
    if run.Then? && !run.act.Restart? {
      CleanMeansNothingStuck(run.before);
    }
  }

  /** Once the work has drained the pool is empty. */
  lemma DrainedPoolIsEmpty(run: Run<Action>)
    requires IsRun(INIT, run) && CleanSinceRestart(run) && Tokens(Exec(INIT, run)) == multiset{}
    ensures Exec(INIT, run).pool == {}
  {
    CleanMeansNothingStuck(run);
    forall id ensures id !in Exec(INIT, run).pool {
      PooledHasToken(run, id);
    }
  }

  // ---- accepted tasks stay pooled until they are finished ----

  /** Every task under way would be found again after a crash. */
  ghost predicate AllPooled(s: State) {
    forall id :: id in Tokens(s) ==> id in s.pool
  }

  /** Finish(id) while another token of id is outstanding. */
  predicate DoubleFinish(s: State, a: Action) {
    a.Finish? && Tokens(s)[a.id] >= 2
  }

  /** Exactly the finishing of one of several tokens of an id takes a task under way out of the pool. */
  lemma StepPooledExact(s: State, a: Action)
    requires AllPooled(s) && Enabled(s, a)
    ensures AllPooled(Next(s, a)) <==> !DoubleFinish(s, a)
  {
    if DoubleFinish(s, a) {
      TokensAfter(s, a, a.id);
      assert a.id in Tokens(Next(s, a));
    } else {
      forall id | id in Tokens(Next(s, a)) ensures id in Next(s, a).pool {
        TokensAfter(s, a, id);
        if Tokens(s)[id] > 0 {
          assert id in Tokens(s);
        }
      }
    }
  }

  /** The run's tasks under way are pooled at every point of it. */
  ghost predicate PooledThroughout(run: Run<Action>)
    requires IsRun(INIT, run)
  {
    AllPooled(Exec(INIT, run)) && (run.Then? ==> PooledThroughout(run.before))
  }

  ghost predicate NoDoubleFinish(run: Run<Action>)
    requires IsRun(INIT, run)
  {
    run.Then? ==> NoDoubleFinish(run.before) && !DoubleFinish(Exec(INIT, run.before), run.act)
  }

  lemma {:induction false} PooledThroughoutExact(run: Run<Action>)
    requires IsRun(INIT, run)
    ensures PooledThroughout(run) <==> NoDoubleFinish(run)
  {
    if run.Then? {
      PooledThroughoutExact(run.before);
      if PooledThroughout(run.before) {
        StepPooledExact(Exec(INIT, run.before), run.act);
      }
    }
  }

  /** Registrations of one id do not overlap: the next comes when no token of the id is outstanding. */
  ghost predicate NoOverlap(s: State, run: Run<Action>)
    requires IsRun(s, run)
  {
    run.Then? ==>
      && NoOverlap(s, run.before)
      && (run.act.Register? ==> run.act.id !in Tokens(Exec(s, run.before)))
  }

  /** Without overlap every accepted unfinished task is in the pool, with one token, at every point of the run. */
  lemma {:induction false} AcceptedTasksPooled(run: Run<Action>)
    requires IsRun(INIT, run) && NoOverlap(INIT, run)
    ensures AllPooled(Exec(INIT, run))
    ensures forall id :: Tokens(Exec(INIT, run))[id] <= 1
  {
    if run.Then? {
      var s := Exec(INIT, run.before);
      AcceptedTasksPooled(run.before);
      StepPooledExact(s, run.act);
      forall id ensures Tokens(Next(s, run.act))[id] <= 1 {
        TokensAfter(s, run.act, id);
      }
    }
  }

  /** So a crash loses none of them: each has its token again after the restart. */
  lemma CrashKeepsAccepted(run: Run<Action>, id: string)
    requires IsRun(INIT, run) && NoOverlap(INIT, run) && id in Tokens(Exec(INIT, run))
    ensures Tokens(Exec(INIT, Then(run, Restart)))[id] == 1
  {
    AcceptedTasksPooled(run);
  }

  /** With overlap one can be lost: registered twice, processed once, then a crash. */
  lemma OverlapLosesTask(id: string)
    ensures var run := Then(Then(Then(Then(Begin, Register(id)), Register(id)), Take(id)), Finish(id));
            && IsRun(INIT, run) && id in Tokens(Exec(INIT, run))
            && id !in Tokens(Exec(INIT, Then(run, Restart)))
  {
    var r1 := Then(Begin, Register(id));
    var r2 := Then(r1, Register(id));
    var r3 := Then(r2, Take(id));
    assert IsRun(INIT, r1);
    assert IsRun(INIT, r2);
    assert Exec(INIT, r2) == State({id}, multiset{id, id}, multiset{}, {});
    assert IsRun(INIT, r3);
    assert Exec(INIT, r3) == State({id}, multiset{id}, multiset{id}, {});
    assert Exec(INIT, Then(r3, Finish(id))) == State({}, multiset{id}, multiset{}, {});
  }
}
