/**
 The end of the pool: once it is stopped, every worker has a way out by steps of its own, on
 which it runs what is queued or due, and so all of them can end.
 */
module PoolShutdown {
  import opened Options
  import opened TaskPool
  import opened ThreadPool
  import opened PoolHistory

  /** A step that worker `w` takes itself. */
  predicate StepOf(e: Event, w: nat) {
    && (e.Test? || e.PopStep? || e.Finish? || e.Check? || e.Plan? || e.Sleep? || e.Rouse? || e.Resume?)
    && e.w == w
  }

  predicate OwnSteps(es: seq<Event>, w: nat) {
    forall i :: 0 <= i < |es| ==> StepOf(es[i], w)
  }

  /** A run in which only running tasks push. */
  ghost predicate Reaches(s: State, es: seq<Event>, s': State) {
    Legal(s, es, Closed) && Run(s, es, Closed) == s'
  }

  lemma ReachesNone(s: State)
    ensures Reaches(s, [], s)
  {
  }

  lemma {:induction false} ReachesThen(s: State, es: seq<Event>, m: State, es': seq<Event>, s': State)
    requires Reaches(s, es, m) && Reaches(m, es', s')
    ensures Reaches(s, es + es', s')
    decreases |es|
  {
    if es == [] {
      assert es + es' == es';
    } else {
      assert (es + es')[1..] == es[1..] + es';
      ReachesThen(After(s, es[0]), es[1..], m, es', s');
    }
  }

  /** A step of one's own that is no pop changes one's place and nothing else. */
  lemma Moves(s: State, e: Event, w: nat)
    requires StepOf(e, w) && !e.PopStep? && Enabled(s, e)
    ensures w < |s.workers| && Reaches(s, [e], At(s, w, NextPlace(s, e, s.workers[w])))
  {
    assert [e][1..] == [];
  }

  lemma TwoMoves(s: State, e: Event, e': Event, w: nat)
    requires StepOf(e, w) && !e.PopStep? && Enabled(s, e) && w < |s.workers|
    requires var m := At(s, w, NextPlace(s, e, s.workers[w])); StepOf(e', w) && !e'.PopStep? && Enabled(m, e')
    ensures var m := At(s, w, NextPlace(s, e, s.workers[w]));
      Reaches(s, [e, e'], At(s, w, NextPlace(m, e', m.workers[w])))
  {
    hide Reaches, NextPlace;
    var m := At(s, w, NextPlace(s, e, s.workers[w]));
    Moves(s, e, w);
    Moves(m, e', w);
    AtAt(s, w, m.workers[w], NextPlace(m, e', m.workers[w]));
    ReachesThen(s, [e], m, [e'], At(m, w, NextPlace(m, e', m.workers[w])));
    assert [e] + [e'] == [e, e'];
  }

  /** Nobody but, at most, `w` holds the lock. */
  predicate OthersFree(ws: seq<Worker>, w: nat) {
    forall i :: 0 <= i < |ws| && i != w ==> !Holds(ws[i])
  }

  /** The places from which a worker comes to the second loop without a pop. */
  predicate NoPopAhead(at: Worker) {
    at.Top? || at.Running? || at.Locking? || at.Checked? || at.Woken? || at.DrainRunning? || at.Draining?
  }

  /** In a stopped pool a worker comes to the second loop by steps of its own. */
  lemma ToDraining(s: State, w: nat) returns (way: seq<Event>)
    requires w < |s.workers| && !s.going && NoPopAhead(s.workers[w])
    requires s.workers[w].Locking? || s.workers[w].Woken? ==> OthersFree(s.workers, w)
    ensures OwnSteps(way, w) && Reaches(s, way, At(s, w, Draining))
  {
    hide Reaches, Ready;
    match s.workers[w]
    case Top => way := [Test(w)]; Moves(s, Test(w), w);
    case Running(_) => way := [Finish(w), Test(w)]; TwoMoves(s, Finish(w), Test(w), w);
    case Locking =>
      if Ready(s.pool, s.clock) {
        way := [Check(w), Test(w)];
        TwoMoves(s, Check(w), Test(w), w);
      } else {
        way := [Check(w), Plan(w)];
        TwoMoves(s, Check(w), Plan(w), w);
      }
    case Checked => way := [Plan(w)]; Moves(s, Plan(w), w);
    case Woken => way := [Resume(w), Test(w)]; TwoMoves(s, Resume(w), Test(w), w);
    case DrainRunning(_) => way := [Finish(w)]; Moves(s, Finish(w), w);
    case Draining =>
      way := [];
      assert At(s, w, Draining) == s;
      ReachesNone(s);
  }

  // ---- What a worker takes out on its way ----------------------------------------------------------

  function Ids(ts: seq<Timer>): multiset<TaskId> {
    if ts == [] then multiset{} else Ids(ts[..|ts| - 1]) + multiset{ts[|ts| - 1].task}
  }

  /**
   Worker `w` has ended; nothing immediate is left, of the timers exactly the first `n`, which
   are not due, and the tasks of all others have been handed out.
   */
  ghost predicate Ended(s: State, s': State, w: nat, n: nat) {
    var p := s.pool;
    && w < |s.workers| && n <= |p.timers|
    && s'.workers == s.workers[w := Exited] && s'.clock == s.clock && !s'.going
    && s'.pool == Pool([], p.timers[..n])
    && (forall i :: 0 <= i < n ==> s.clock < p.timers[i].deadline)
    && (forall i :: n <= i < |p.timers| ==> p.timers[i].deadline <= s.clock)
    && s'.handed == s.handed + multiset(p.tasks) + Ids(p.timers[n..])
  }

  /** What an end depends on. */
  lemma SameEnd(s: State, m: State, s': State, w: nat, n: nat, at: Worker)
    requires Ended(m, s', w, n) && w < |s.workers| && m.workers == s.workers[w := at]
    requires m.pool == s.pool && m.clock == s.clock && m.handed == s.handed
    ensures Ended(s, s', w, n)
  {
    assert s.workers[w := at][w := Exited] == s.workers[w := Exited];
  }

  /** With an immediate task run first. */
  lemma EndAfterTask(s: State, m: State, s': State, w: nat, n: nat, at: Worker)
    requires Ended(m, s', w, n) && w < |s.workers| && m.workers == s.workers[w := at]
    requires s.pool.tasks != [] && m.pool == s.pool.(tasks := s.pool.tasks[1..]) && m.clock == s.clock
    requires m.handed == s.handed + multiset{s.pool.tasks[0]}
    ensures Ended(s, s', w, n)
  {
    assert s.workers[w := at][w := Exited] == s.workers[w := Exited];
    assert s.pool.tasks == [s.pool.tasks[0]] + s.pool.tasks[1..];
  }

  /** With a due timer run first. */
  lemma EndAfterTimer(s: State, m: State, s': State, w: nat, n: nat, at: Worker)
    requires Ended(m, s', w, n) && w < |s.workers| && m.workers == s.workers[w := at]
    requires s.pool.tasks == [] && s.pool.timers != [] && m.clock == s.clock
    requires var last := |s.pool.timers| - 1;
      && m.pool == s.pool.(timers := s.pool.timers[..last])
      && s.pool.timers[last].deadline <= s.clock
      && m.handed == s.handed + multiset{s.pool.timers[last].task}
    ensures Ended(s, s', w, n)
  {
    var ts, last := s.pool.timers, |s.pool.timers| - 1;
    assert s.workers[w := at][w := Exited] == s.workers[w := Exited];
    assert ts[..last][..n] == ts[..n];
    assert ts[n..][..|ts[n..]| - 1] == ts[..last][n..];
    assert forall i :: n <= i < last ==> ts[i] == ts[..last][i];
    assert forall i :: 0 <= i < n ==> ts[i] == ts[..last][i];
  }

  /** One pop that finds something, up to the state in which the task runs. */
  ghost predicate TookOne(s: State, m: State, w: nat) {
    && w < |s.workers| && m.clock == s.clock && m.going == s.going
    && |m.workers| == |s.workers| && m.workers == s.workers[w := m.workers[w]]
    && (m.workers[w].Running? || m.workers[w].DrainRunning?)
    && (if s.pool.tasks != [] then
          m.pool == s.pool.(tasks := s.pool.tasks[1..]) && m.handed == s.handed + multiset{s.pool.tasks[0]}
        else
          var last := |s.pool.timers| - 1;
          && s.pool.timers != [] && s.pool.timers[last].deadline <= s.clock
          && m.pool == s.pool.(timers := s.pool.timers[..last])
          && m.handed == s.handed + multiset{s.pool.timers[last].task})
  }

  lemma PopTakes(s: State, w: nat)
    requires Enabled(s, PopStep(w)) && Ready(s.pool, s.clock)
    ensures TookOne(s, After(s, PopStep(w)), w) && Reaches(s, [PopStep(w)], After(s, PopStep(w)))
  {
    assert [PopStep(w)][1..] == [];
  }

  lemma EndAfterPop(s: State, m: State, d: State, s': State, w: nat, n: nat)
    requires TookOne(s, m, w) && w < |m.workers| && d == At(m, w, Draining) && Ended(d, s', w, n)
    ensures Ended(s, s', w, n)
  {
    hide Ended;
    assert d.workers == s.workers[w := Draining];
    if s.pool.tasks != [] {
      EndAfterTask(s, d, s', w, n, Draining);
    } else {
      EndAfterTimer(s, d, s', w, n, Draining);
    }
  }

  lemma NothingToPop(s: State, w: nat)
    requires w < |s.workers| && s.workers[w] == Draining && !s.going && Sorted(s.pool.timers)
    requires !Ready(s.pool, s.clock)
    ensures var s' := After(s, PopStep(w));
      Reaches(s, [PopStep(w)], s') && Ended(s, s', w, |s.pool.timers|)
  {
    var ts := s.pool.timers;
    assert [PopStep(w)][1..] == [];
    assert ts[..|ts|] == ts && ts[|ts|..] == [];
    if ts != [] {
      assert s.clock < ts[|ts| - 1].deadline;
    }
  }

  lemma TookOneLess(s: State, m: State, w: nat)
    requires TookOne(s, m, w) && Sorted(s.pool.timers)
    ensures |m.pool.tasks| + |m.pool.timers| < |s.pool.tasks| + |s.pool.timers| && Sorted(m.pool.timers)
  {
  }

  /** The second loop, to its end. */
  lemma DrainOut(s: State, w: nat) returns (way: seq<Event>, s': State, n: nat)
    requires w < |s.workers| && s.workers[w] == Draining && !s.going && Sorted(s.pool.timers)
    ensures OwnSteps(way, w) && Reaches(s, way, s') && Ended(s, s', w, n)
    decreases |s.pool.tasks| + |s.pool.timers|, 1
  {
    hide Reaches, Ended, Ready, Sorted;
    if Ready(s.pool, s.clock) {
      way, s', n := PopAndDrain(s, w);
    } else {
      NothingToPop(s, w);
      way, s', n := [PopStep(w)], After(s, PopStep(w)), |s.pool.timers|;
    }
  }

  /** From a pop that finds something: the task is run, and then the second loop to its end. */
  lemma PopAndDrain(s: State, w: nat) returns (way: seq<Event>, s': State, n: nat)
    requires Enabled(s, PopStep(w)) && !s.going && Sorted(s.pool.timers) && Ready(s.pool, s.clock)
    ensures OwnSteps(way, w) && Reaches(s, way, s') && Ended(s, s', w, n)
    decreases |s.pool.tasks| + |s.pool.timers|, 0
  {
    hide Reaches, Ended, Ready, Sorted, Pop;
    var m := After(s, PopStep(w));
    PopTakes(s, w);
    TookOneLess(s, m, w);
    hide TookOne;
    var toDrain := ToDraining(m, w);
    var d := At(m, w, Draining);
    var drain;
    drain, s', n := DrainOut(d, w);
    EndAfterPop(s, m, d, s', w, n);
    ReachesThen(s, [PopStep(w)], m, toDrain, d);
    ReachesThen(s, [PopStep(w)] + toDrain, d, drain, s');
    way := [PopStep(w)] + toDrain + drain;
  }

  lemma NothingFound(s: State, w: nat)
    requires w < |s.workers| && s.workers[w] == Popping && !Ready(s.pool, s.clock)
    ensures Reaches(s, [PopStep(w)], At(s, w, Locking))
  {
    assert [PopStep(w)][1..] == [];
  }

  lemma Drain(s: State, m: State, way: seq<Event>, w: nat) returns (all: seq<Event>, s': State, n: nat)
    requires w < |s.workers| && !s.going && Sorted(s.pool.timers)
    requires OwnSteps(way, w) && m == At(s, w, Draining) && Reaches(s, way, m)
    ensures OwnSteps(all, w) && Reaches(s, all, s') && Ended(s, s', w, n)
  {
    hide Reaches, Ended, Sorted;
    var rest;
    rest, s', n := DrainOut(m, w);
    SameEnd(s, m, s', w, n, Draining);
    ReachesThen(s, way, m, rest, s');
    all := way + rest;
  }

  /**
   In a stopped pool whose lock no other worker holds, a worker at any place of the loops ends by
   finitely many steps of its own, all of them possible. On the way it runs every immediate task
   and every timer that is due.
   */
  lemma WayOut(s: State, w: nat) returns (way: seq<Event>, s': State, n: nat)
    requires Sorted(s.pool.timers) && !s.going && w < |s.workers| && OthersFree(s.workers, w)
    requires !s.workers[w].Exited? && Fits(s.workers[w], s.going, s.pool.tasks)
    ensures OwnSteps(way, w) && Reaches(s, way, s') && Ended(s, s', w, n)
  {
    hide Reaches, Ended, Ready, Sorted;
    if s.workers[w].Popping? {
      if Ready(s.pool, s.clock) {
        way, s', n := PopAndDrain(s, w);
      } else {
        NothingFound(s, w);
        var l := At(s, w, Locking);
        var more := ToDraining(l, w);
        AtAt(s, w, Locking, Draining);
        ReachesThen(s, [PopStep(w)], l, more, At(s, w, Draining));
        way, s', n := Drain(s, At(s, w, Draining), [PopStep(w)] + more, w);
      }
    } else {
      var more := ToDraining(s, w);
      way, s', n := Drain(s, At(s, w, Draining), more, w);
    }
  }

  // ---- All workers ---------------------------------------------------------------------------------

  /** Nothing is left that could be run now. */
  ghost predicate Clear(s: State) {
    s.pool.tasks == [] && forall t :: t in s.pool.timers ==> s.clock < t.deadline
  }

  /** The first `k` have ended, the others are on their way, and nobody holds the lock. */
  ghost predicate Ending(s: State, k: nat) {
    && !s.going && Sorted(s.pool.timers) && k <= |s.workers| && LockFree(s.workers)
    && (forall i :: 0 <= i < k ==> s.workers[i].Exited?)
    && (forall i :: k <= i < |s.workers| ==>
          !s.workers[i].Exited? && !s.workers[i].Asleep? && !s.workers[i].Planned?)
    && (0 < k ==> Clear(s))
  }

  lemma EndedNext(s: State, s': State, k: nat, n: nat)
    requires Ending(s, k) && k < |s.workers| && Ended(s, s', k, n)
    ensures Ending(s', k + 1) && |s'.workers| == |s.workers|
  {
    assert s'.pool.timers == s.pool.timers[..n];
  }

  lemma EndingFits(s: State, k: nat)
    requires Ending(s, k) && k < |s.workers|
    ensures OthersFree(s.workers, k) && Sorted(s.pool.timers) && !s.going && !s.workers[k].Exited?
    ensures Fits(s.workers[k], s.going, s.pool.tasks)
  {
  }

  lemma {:induction false} AllOut(s: State, k: nat) returns (way: seq<Event>, s': State)
    requires Ending(s, k) && s.workers != []
    ensures Reaches(s, way, s') && AllExited(s'.workers) && Clear(s')
    decreases |s.workers| - k
  {
    hide Reaches, Ended, Sorted;
    if k == |s.workers| {
      ReachesNone(s);
      way, s' := [], s;
    } else {
      EndingFits(s, k);
      var first, m, n := WayOut(s, k);
      EndedNext(s, m, k, n);
      var rest;
      rest, s' := AllOut(m, k + 1);
      ReachesThen(s, first, m, rest, s');
      way := first + rest;
    }
  }

  lemma {:induction false} DrainedRun(s: State, es: seq<Event>)
    requires Drained(s) && Legal(s, es, Closed)
    ensures Drained(Run(s, es, Closed)) && |Run(s, es, Closed).workers| == |s.workers|
    decreases |es|
  {
    hide Drained;
    if es != [] {
      DrainedStep(s, es[0]);
      SameWorkers(s, es[0]);
      DrainedRun(After(s, es[0]), es[1..]);
    }
  }

  lemma StopsEnding(s: State)
    requires Phases(s) && s.going && Enabled(s, Stop)
    ensures Ending(After(s, Stop), 0) && |After(s, Stop).workers| == |s.workers|
  {
    forall i | 0 <= i < |s.workers|
      ensures var at := After(s, Stop).workers[i];
        !at.Exited? && !at.Asleep? && !at.Planned? && !Holds(at)
    {
      assert Fits(s.workers[i], s.going, s.pool.tasks);
    }
  }

  /**
   From the start, whatever happened before: once the pool is stopped all its workers can end,
   and when they have, nothing that was queued or due is left.
   */
  lemma StopEndsAll(n: nat, now: int, es: seq<Event>) returns (way: seq<Event>, s': State)
    requires 0 < n && Legal(Init(n, now), es, Closed)
    requires var s := Run(Init(n, now), es, Closed); s.going && LockFree(s.workers)
    ensures var s := Run(Init(n, now), es, Closed);
      && Enabled(s, Stop) && Reaches(After(s, Stop), way, s')
      && AllExited(s'.workers)
      && s'.pool.tasks == [] && forall t :: t in s'.pool.timers ==> s'.clock < t.deadline
  {
    hide Ending, Reaches, LockFree, Legal, Run;
    var s := Run(Init(n, now), es, Closed);
    InitMeetsAll(n, now);
    DrainedRun(Init(n, now), es);
    StopsEnding(s);
    way, s' := AllOut(After(s, Stop), 0);
  }

  // ---- The moment of the last exit -----------------------------------------------------------------

  lemma ExitedStep(s: State, e: Event)
    requires Phases(s) && AllExited(s.workers) && Enabled(s, e) && Closed(s, e)
    ensures After(s, e).lastEmpty == s.lastEmpty && AllExited(After(s, e).workers)
  {
    assert Fits(s.workers[0], s.going, s.pool.tasks);
    assert !s.going;
  }

  lemma {:induction false} ExitedStays(s: State, es: seq<Event>)
    requires Drained(s) && AllExited(s.workers) && Legal(s, es, Closed)
    ensures var s' := Run(s, es, Closed); s'.lastEmpty == s.lastEmpty && AllExited(s'.workers)
    decreases |es|
  {
    if es != [] {
      ExitedStep(s, es[0]);
      DrainedStep(s, es[0]);
      ExitedStays(After(s, es[0]), es[1..]);
    }
  }

  /** The last worker to exit has popped nothing at that moment. */
  lemma LastExit(s: State, w: nat)
    requires Enabled(s, PopStep(w)) && !AllExited(s.workers) && AllExited(After(s, PopStep(w)).workers)
    ensures After(s, PopStep(w)).lastEmpty == s.clock
  {
    assert After(s, PopStep(w)).workers[w].Exited?;
  }

  /**
   From the start: after the pop with which the last worker ends, however the run goes on, no
   immediate task is left and every timer left is later than that moment.
   */
  lemma LeftAfterLastExit(n: nat, now: int, es: seq<Event>, w: nat, es': seq<Event>)
    requires Legal(Init(n, now), es, Closed)
    requires var s := Run(Init(n, now), es, Closed);
      && Enabled(s, PopStep(w)) && !AllExited(s.workers) && AllExited(After(s, PopStep(w)).workers)
      && Legal(After(s, PopStep(w)), es', Closed)
    ensures var s := Run(Init(n, now), es, Closed);
      var s' := Run(After(s, PopStep(w)), es', Closed);
      s'.pool.tasks == [] && forall t :: t in s'.pool.timers ==> s.clock < t.deadline
  {
    hide Drained, AllExited, Legal, Run;
    var s := Run(Init(n, now), es, Closed);
    InitMeetsAll(n, now);
    DrainedRun(Init(n, now), es);
    DrainedStep(s, PopStep(w));
    LastExit(s, w);
    ExitedStays(After(s, PopStep(w)), es');
    ShutdownDrains(After(s, PopStep(w)), es');
  }
}
