/**
 The worker pool as a machine of atomic steps.

 `_lock` is held by a worker from its readiness check until the condition variable
 releases it (`Checked`, `Planned`); pushes and `stop` need it too. `pop`, `cancel` and
 `delay` only take the inner `_task_mutex`, so they run between any two steps, also while
 another worker holds `_lock`.
 */
module ThreadPool {
  import opened Options
  import opened TaskPool

  /** Where a worker stands in `_main`. */
  datatype Worker =
    | Top                         // at the test of `_continue`
    | Popping                     // about to pop
    | Running(task: TaskId)
    | Locking                     // popped nothing, waiting for `_lock`
    | Checked                     // holds `_lock`; nothing was ready
    | Planned(until: Option<int>) // holds `_lock`; has read the next deadline
    | Asleep(until: Option<int>)
    | Woken                       // notified or timed out, waiting for `_lock` again
    | Draining                    // in the second loop, about to pop
    | DrainRunning(task: TaskId)
    | Exited

  datatype Firing = Firing(deadline: int, at: int)

  /** `nextId` to `lastEmpty` are history: they record what happened and steer no step. */
  datatype State = State(
    pool: Pool, workers: seq<Worker>, going: bool, clock: int,
    nextId: TaskId, handed: multiset<TaskId>, cancelled: multiset<TaskId>, delayed: set<TaskId>,
    fired: seq<Firing>, lastEmpty: int)

  datatype Event =
    | Tick(now: int)
    | Push(notified: nat)
    | PushDelayed(sampled: int, duration: int)
    | Cancel(id: TaskId)
    | Delay(id: TaskId, deadline: int)
    | Stop
    | Test(w: nat)
    | PopStep(w: nat)
    | Finish(w: nat)
    | Check(w: nat)
    | Plan(w: nat)
    | Sleep(w: nat)
    | Rouse(w: nat)
    | Resume(w: nat)

  function Init(workers: nat, now: int): State {
    State(Pool([], []), seq(workers, _ => Top), true, now, 0, multiset{}, multiset{}, {}, [], now)
  }

  predicate Holds(w: Worker) {
    w.Checked? || w.Planned?
  }

  predicate LockFree(ws: seq<Worker>) {
    forall i :: 0 <= i < |ws| ==> !Holds(ws[i])
  }

  predicate SomeAsleep(ws: seq<Worker>) {
    exists i :: 0 <= i < |ws| && ws[i].Asleep?
  }

  predicate SomeRunning(ws: seq<Worker>) {
    exists i :: 0 <= i < |ws| && (ws[i].Running? || ws[i].DrainRunning?)
  }

  /** The test a step must meet; a notification reaches a sleeper whenever there is one. */
  predicate Enabled(s: State, e: Event) {
    match e
    case Tick(now) => s.clock <= now
    case Push(n) => LockFree(s.workers) && (SomeAsleep(s.workers) ==> n < |s.workers| && s.workers[n].Asleep?)
    case PushDelayed(sampled, _) => LockFree(s.workers) && sampled <= s.clock
    case Cancel(_) => true
    case Delay(_, _) => true
    case Stop => LockFree(s.workers)
    case Test(w) => w < |s.workers| && s.workers[w].Top?
    case PopStep(w) => w < |s.workers| && (s.workers[w].Popping? || s.workers[w].Draining?)
    case Finish(w) => w < |s.workers| && (s.workers[w].Running? || s.workers[w].DrainRunning?)
    case Check(w) => w < |s.workers| && s.workers[w].Locking? && LockFree(s.workers)
    case Plan(w) => w < |s.workers| && s.workers[w].Checked?
    case Sleep(w) => w < |s.workers| && s.workers[w].Planned?
    case Rouse(w) => w < |s.workers| && s.workers[w].Asleep?
    case Resume(w) => w < |s.workers| && s.workers[w].Woken? && LockFree(s.workers)
  }

  function NotifyAll(ws: seq<Worker>): (r: seq<Worker>)
    ensures |r| == |ws|
    ensures forall i :: 0 <= i < |ws| ==> r[i] == if ws[i].Asleep? then Woken else ws[i]
  {
    seq(|ws|, i requires 0 <= i < |ws| => if ws[i].Asleep? then Woken else ws[i])
  }

  /** The effect on the two containers. */
  function PoolAfter(s: State, e: Event): Pool {
    match e
    case Push(_) => s.pool.(tasks := s.pool.tasks + [s.nextId])
    case PushDelayed(sampled, duration) =>
      s.pool.(timers := Insert(s.pool.timers, Timer(sampled + duration, s.nextId)))
    case Cancel(id) => s.pool.(timers := Cancelled(s.pool.timers, id))
    case Delay(id, deadline) => s.pool.(timers := Bubbled(s.pool.timers, id, deadline))
    case PopStep(_) => Pop(s.pool, s.clock).0
    case _ => s.pool
  }

  /** The effect on the program counter of worker `w`. */
  function NextPlace(s: State, e: Event, w: Worker): Worker {
    match e
    case Push(_) => Woken
    case Test(_) => if s.going then Popping else Draining
    case PopStep(_) =>
      (match Pop(s.pool, s.clock).1
       case Nothing => if w.Draining? then Exited else Locking
       case Immediate(id) => if w.Draining? then DrainRunning(id) else Running(id)
       case Due(t) => if w.Draining? then DrainRunning(t.task) else Running(t.task))
    case Finish(_) => if w.Running? then Top else Draining
    case Check(_) => if Ready(s.pool, s.clock) then Top else Checked
    case Plan(_) => if s.going then Planned(Next(s.pool)) else Draining
    case Sleep(_) => if w.Planned? then Asleep(w.until) else w
    case Rouse(_) => Woken
    case Resume(_) => Top
    case _ => w
  }

  function WorkersAfter(s: State, e: Event): seq<Worker>
    requires Enabled(s, e)
  {
    match e
    case Tick(_) => s.workers
    case Push(n) => if SomeAsleep(s.workers) then s.workers[n := NextPlace(s, e, s.workers[n])] else s.workers
    case PushDelayed(_, _) => NotifyAll(s.workers)
    case Cancel(_) => s.workers
    case Delay(_, _) => s.workers
    case Stop => NotifyAll(s.workers)
    case _ => s.workers[e.w := NextPlace(s, e, s.workers[e.w])]
  }

  /** The history and the two scalars. */
  function After(s: State, e: Event): State
    requires Enabled(s, e)
  {
    var s' := s.(pool := PoolAfter(s, e), workers := WorkersAfter(s, e));
    match e
    case Tick(now) => s'.(clock := now)
    case Push(_) => s'.(nextId := s.nextId + 1)
    case PushDelayed(_, _) => s'.(nextId := s.nextId + 1)
    case Cancel(id) =>
      if IndexOf(s.pool.timers, id) < |s.pool.timers| then s'.(cancelled := s.cancelled + multiset{id}) else s'
    case Delay(id, _) => s'.(delayed := s.delayed + {id})
    case Stop => s'.(going := false)
    case PopStep(w) =>
      (match Pop(s.pool, s.clock).1
       case Nothing => if s.workers[w].Draining? then s'.(lastEmpty := s.clock) else s'
       case Immediate(id) => s'.(handed := s.handed + multiset{id})
       case Due(t) => s'.(handed := s.handed + multiset{t.task}, fired := s.fired + [Firing(t.deadline, s.clock)]))
    case _ => s'
  }

  // ---- Runs ------------------------------------------------------------------------

  /** Every event is enabled when its turn comes and meets the discipline `g`. */
  ghost predicate Legal(s: State, es: seq<Event>, g: (State, Event) -> bool)
    decreases |es|
  {
    es == [] || (Enabled(s, es[0]) && g(s, es[0]) && Legal(After(s, es[0]), es[1..], g))
  }

  ghost function Run(s: State, es: seq<Event>, g: (State, Event) -> bool): State
    requires Legal(s, es, g)
    decreases |es|
  {
    if es == [] then s else Run(After(s, es[0]), es[1..], g)
  }

  /** No deadline is brought forward. */
  predicate Calm(s: State, e: Event) {
    e.Delay? ==> forall t :: t in s.pool.timers && t.task == e.id ==> t.deadline <= e.deadline
  }

  /** In addition, no timer is pushed with a deadline before the last one fired. */
  predicate InOrder(s: State, e: Event) {
    && Calm(s, e)
    && (e.PushDelayed? && s.fired != [] ==> s.fired[|s.fired| - 1].deadline <= e.sampled + e.duration)
  }

  /** In addition, no timer has fired since the clock was read for a push, and the delay is not negative. */
  predicate Fresh(s: State, e: Event) {
    && Calm(s, e)
    && (e.PushDelayed? ==>
          0 <= e.duration && (s.fired != [] ==> s.fired[|s.fired| - 1].at <= e.sampled))
  }

  /** In addition, once stopped only running tasks push. */
  predicate Closed(s: State, e: Event) {
    && Calm(s, e)
    && ((e.Push? || e.PushDelayed?) && !s.going ==> SomeRunning(s.workers))
  }

  // ---- No wake-up is lost ------------------------------------------------------------

  /** Awake and on the way to the next pop. */
  predicate Idle(w: Worker) {
    w.Top? || w.Popping? || w.Locking? || w.Woken? || Holds(w)
  }

  function CountIdle(ws: seq<Worker>): nat {
    if ws == [] then 0 else (if Idle(ws[0]) then 1 else 0) + CountIdle(ws[1..])
  }

  /** A sleeper with this wake-up time does not oversleep any timer. */
  ghost predicate Covers(until: Option<int>, timers: seq<Timer>) {
    match until
    case None => timers == []
    case Some(d) => forall t :: t in timers ==> d <= t.deadline
  }

  /** What the program counters allow together. */
  predicate Fits(w: Worker, going: bool, tasks: seq<TaskId>) {
    && (Holds(w) ==> tasks == [])
    && (going ==> !w.Draining? && !w.DrainRunning? && !w.Exited?)
    && (!going ==> !w.Planned? && !w.Asleep?)
  }

  ghost predicate Phases(s: State) {
    && Sorted(s.pool.timers)
    && (forall i :: 0 <= i < |s.workers| ==> Fits(s.workers[i], s.going, s.pool.tasks))
  }

  ghost predicate Sleepless(w: Worker, timers: seq<Timer>) {
    w.Planned? || w.Asleep? ==> Covers(w.until, timers)
  }

  ghost predicate SleepersCovered(s: State) {
    forall i :: 0 <= i < |s.workers| ==> Sleepless(s.workers[i], s.pool.timers)
  }

  /** While somebody sleeps, every queued task has a worker of its own on the way to pop it. */
  ghost predicate TasksAwaited(s: State) {
    SomeAsleep(s.workers) ==> |s.pool.tasks| <= CountIdle(s.workers)
  }

  ghost predicate Awake(s: State) {
    Phases(s) && SleepersCovered(s) && TasksAwaited(s)
  }

  lemma {:induction false} CountIdleUpdate(ws: seq<Worker>, i: nat, w: Worker)
    requires i < |ws|
    ensures CountIdle(ws[i := w]) == CountIdle(ws) - (if Idle(ws[i]) then 1 else 0) + (if Idle(w) then 1 else 0)
  {
    if i > 0 {
      assert ws[i := w][1..] == ws[1..][i - 1 := w];
      CountIdleUpdate(ws[1..], i - 1, w);
    }
  }

  /** Every entry of the delayed vector was there before or is the delayed timer. */
  lemma DelayedMembers(timers: seq<Timer>, id: TaskId, deadline: int)
    requires Sorted(timers)
    ensures var r := Bubbled(timers, id, deadline);
      && (forall t :: t in r ==> t in timers || (t == Timer(deadline, id) && IndexOf(timers, id) < |timers|))
      && (IndexOf(timers, id) < |timers| ==> Timer(deadline, id) in r && timers[IndexOf(timers, id)] in timers)
  {
    var k := IndexOf(timers, id);
    BubbledIsDelayed(timers, id, deadline);
    if k < |timers| {
      var j := DelayedMoves(timers, id, deadline);
    }
  }

  lemma DelayCovers(until: Option<int>, timers: seq<Timer>, id: TaskId, deadline: int)
    requires Sorted(timers) && Covers(until, timers)
    requires forall t :: t in timers && t.task == id ==> t.deadline <= deadline
    ensures Covers(until, Bubbled(timers, id, deadline))
  {
    DelayedMembers(timers, id, deadline);
  }

  lemma CalmDelaySorted(timers: seq<Timer>, id: TaskId, deadline: int)
    requires Sorted(timers)
    requires forall t :: t in timers && t.task == id ==> t.deadline <= deadline
    ensures Sorted(Bubbled(timers, id, deadline))
  {
    BubbledIsDelayed(timers, id, deadline);
    DelayedSortedIff(timers, id, deadline);
    var k := IndexOf(timers, id);
    if k < |timers| {
      assert timers[k] in timers;
    }
  }

  lemma CancelledSorted(ts: seq<Timer>, id: TaskId)
    requires Sorted(ts)
    ensures Sorted(Cancelled(ts, id))
  {
    CancelledOrder(ts, id, set t | t in ts :: t.task);
  }

  lemma SortedStep(s: State, e: Event)
    requires Sorted(s.pool.timers) && Calm(s, e)
    ensures Sorted(PoolAfter(s, e).timers)
  {
    hide Sorted, Insert, Bubbled, IndexOf;
    var ts := s.pool.timers;
    match e
    case PushDelayed(sampled, duration) => InsertSorted(ts, Timer(sampled + duration, s.nextId));
    case Delay(id, deadline) => CalmDelaySorted(ts, id, deadline);
    case Cancel(id) => CancelledSorted(ts, id);
    case PopStep(_) =>
      if ts != [] {
        DropLast(ts);
      }
    case _ =>
  }

  /** At most one worker changes its place in any step that is not a broadcast. */
  lemma OneMoves(s: State, e: Event) returns (w: nat)
    requires Enabled(s, e) && !e.PushDelayed? && !e.Stop? && WorkersAfter(s, e) != s.workers
    ensures w < |s.workers| && w == (if e.Push? then e.notified else e.w)
    ensures WorkersAfter(s, e) == s.workers[w := NextPlace(s, e, s.workers[w])]
    ensures e.Push? ==> s.workers[w].Asleep?
  {
    w := if e.Push? then e.notified else e.w;
  }

  /** The worker a step is about fits its new place. */
  lemma MoverFits(s: State, e: Event, w: nat)
    requires Enabled(s, e) && !e.PushDelayed? && !e.Stop? && w < |s.workers|
    requires w == (if e.Push? then e.notified else if e.Tick? || e.Cancel? || e.Delay? then w else e.w)
    requires e.Push? ==> s.workers[w].Asleep?
    requires Fits(s.workers[w], s.going, s.pool.tasks)
    ensures Fits(NextPlace(s, e, s.workers[w]), s.going, PoolAfter(s, e).tasks)
  {
    hide Insert, Bubbled, Cancelled;
  }

  /** A worker a step is not about still fits; a push finds the lock free. */
  lemma OtherFits(s: State, e: Event, w: Worker)
    requires Enabled(s, e) && Fits(w, s.going, s.pool.tasks) && (Holds(w) ==> !LockFree(s.workers))
    requires !e.Stop?
    ensures Fits(w, s.going, PoolAfter(s, e).tasks)
  {
    hide Insert, Bubbled, Cancelled, LockFree;
  }

  /** Woken by a broadcast, or not asleep. */
  lemma NotifiedFits(s: State, e: Event, i: nat)
    requires (e.PushDelayed? || e.Stop?) && Enabled(s, e) && i < |s.workers|
    requires Fits(s.workers[i], s.going, s.pool.tasks)
    ensures var s' := After(s, e); |s'.workers| == |s.workers| && Fits(s'.workers[i], s'.going, s'.pool.tasks)
  {
    hide Insert;
  }

  lemma WorkerFits(s: State, e: Event, i: nat)
    requires Enabled(s, e) && i < |s.workers| && Fits(s.workers[i], s.going, s.pool.tasks)
    ensures var s' := After(s, e); |s'.workers| == |s.workers| && Fits(s'.workers[i], s'.going, s'.pool.tasks)
  {
    hide Insert, Bubbled, Cancelled, Pop, Fits, NextPlace;
    var ws, s' := s.workers, After(s, e);
    if e.PushDelayed? || e.Stop? {
      NotifiedFits(s, e, i);
    } else {
      OtherFits(s, e, ws[i]);
      if s'.workers != ws {
        var w := OneMoves(s, e);
        if w == i {
          MoverFits(s, e, w);
        }
      }
    }
  }

  lemma SameWorkers(s: State, e: Event)
    requires Enabled(s, e)
    ensures |After(s, e).workers| == |s.workers|
    ensures After(s, e).pool == PoolAfter(s, e)
  {
    hide PoolAfter;
  }

  lemma PhasesStep(s: State, e: Event)
    requires Phases(s) && Enabled(s, e) && Calm(s, e)
    ensures Phases(After(s, e))
  {
    hide Sorted, Insert, Bubbled, Cancelled, WorkersAfter, Enabled, Fits, Calm;
    SortedStep(s, e);
    SameWorkers(s, e);
    forall i | 0 <= i < |s.workers|
      ensures Fits(After(s, e).workers[i], After(s, e).going, After(s, e).pool.tasks)
    {
      WorkerFits(s, e, i);
    }
  }

  /** Removing a timer cannot uncover a sleeper. */
  lemma FewerCovers(until: Option<int>, timers: seq<Timer>, k: nat)
    requires k < |timers| && Covers(until, timers)
    ensures Covers(until, timers[..k] + timers[k + 1..])
  {
  }

  /** What a step does to the timers leaves covered every sleeper it does not wake. */
  lemma StillCovered(s: State, e: Event, until: Option<int>)
    requires Sorted(s.pool.timers) && Calm(s, e) && !e.PushDelayed?
    requires Covers(until, s.pool.timers)
    ensures Covers(until, PoolAfter(s, e).timers)
  {
    var ts := s.pool.timers;
    match e
    case Delay(id, deadline) => DelayCovers(until, ts, id, deadline);
    case Cancel(id) =>
      if IndexOf(ts, id) < |ts| {
        FewerCovers(until, ts, IndexOf(ts, id));
      }
    case PopStep(w) =>
      if ts != [] {
        FewerCovers(until, ts, |ts| - 1);
        assert ts[..|ts| - 1] + ts[|ts| - 1 + 1..] == ts[..|ts| - 1];
      }
    case _ =>
  }

  lemma NextCovers(p: Pool)
    requires Sorted(p.timers)
    ensures Covers(Next(p), p.timers)
  {
    if p.timers != [] {
      LastIsLeast(p.timers);
      assert forall t :: t in p.timers ==> t in multiset(p.timers);
    }
  }

  lemma CoveredStep(s: State, e: Event)
    requires Phases(s) && SleepersCovered(s) && Enabled(s, e) && Calm(s, e)
    ensures SleepersCovered(After(s, e))
  {
    var s' := After(s, e);
    forall i | 0 <= i < |s'.workers|
      ensures Sleepless(s'.workers[i], s'.pool.timers)
    {
      if s'.workers[i].Planned? || s'.workers[i].Asleep? {
        if e == Plan(i) {
          NextCovers(s.pool);
        } else {
          assert Sleepless(s.workers[i], s.pool.timers);
          StillCovered(s, e, s'.workers[i].until);
        }
      }
    }
  }

  /** Nobody falls or stays asleep once the pool is stopped. */
  lemma GoingIfAsleep(s: State, e: Event, i: nat)
    requires Phases(s) && Enabled(s, e) && i < |WorkersAfter(s, e)| && WorkersAfter(s, e)[i].Asleep?
    ensures s.going
  {
    hide Sorted, Insert, Pop;
    assert i < |s.workers| && (s.workers[i].Asleep? || s.workers[i].Planned?);
    assert Fits(s.workers[i], s.going, s.pool.tasks);
  }

  /** Only a pop takes an idle worker away from the tasks, and it takes a task along or finds none. */
  lemma MoverAwaits(s: State, e: Event, w: nat)
    requires Enabled(s, e) && s.going && !e.PushDelayed? && !e.Stop? && w < |s.workers|
    requires !e.Tick? && !e.Cancel? && !e.Delay? && w == (if e.Push? then e.notified else e.w)
    requires e.Push? ==> s.workers[w].Asleep?
    requires Fits(s.workers[w], s.going, s.pool.tasks)
    ensures var from, to := s.workers[w], NextPlace(s, e, s.workers[w]);
      var left, idle := (if Idle(from) then 1 else 0), (if Idle(to) then 1 else 0);
      PoolAfter(s, e).tasks != [] ==> left - idle <= |s.pool.tasks| - |PoolAfter(s, e).tasks| && !to.Asleep?
  {
    hide Insert, Bubbled, Cancelled;
  }

  /** A step that moves nobody adds no task while somebody sleeps. */
  lemma NobodyMoves(s: State, e: Event)
    requires Enabled(s, e) && SomeAsleep(s.workers) && WorkersAfter(s, e) == s.workers
    ensures |PoolAfter(s, e).tasks| <= |s.pool.tasks|
  {
    hide Insert, Bubbled, Cancelled;
  }

  lemma AwaitedStep(s: State, e: Event)
    requires Phases(s) && TasksAwaited(s) && Enabled(s, e)
    ensures TasksAwaited(After(s, e))
  {
    hide Sorted, Insert, Bubbled, Cancelled, NextPlace, Idle, Pop;
    var ws := WorkersAfter(s, e);
    if SomeAsleep(ws) && ws == s.workers {
      NobodyMoves(s, e);
    } else if SomeAsleep(ws) && !e.PushDelayed? && !e.Stop? {
      var i :| 0 <= i < |ws| && ws[i].Asleep?;
      GoingIfAsleep(s, e, i);
      var w := OneMoves(s, e);
      assert Fits(s.workers[w], s.going, s.pool.tasks);
      CountIdleUpdate(s.workers, w, NextPlace(s, e, s.workers[w]));
      MoverAwaits(s, e, w);
      if i != w {
        assert s.workers[i].Asleep?;
      }
    }
  }

  lemma AwakeStep(s: State, e: Event)
    requires Awake(s) && Enabled(s, e) && Calm(s, e)
    ensures Awake(After(s, e))
  {
    PhasesStep(s, e);
    CoveredStep(s, e);
    AwaitedStep(s, e);
  }

  lemma {:induction false} AwakeRun(s: State, es: seq<Event>)
    requires Awake(s) && Legal(s, es, Calm)
    ensures Awake(Run(s, es, Calm))
    decreases |es|
  {
    if es != [] {
      AwakeStep(s, es[0]);
      AwakeRun(After(s, es[0]), es[1..]);
    }
  }

  lemma ReachableAwake(n: nat, now: int, es: seq<Event>)
    requires Legal(Init(n, now), es, Calm)
    ensures Awake(Run(Init(n, now), es, Calm))
  {
    AwakeRun(Init(n, now), es);
  }

  /** In every interleaving: no queued task and no timer is left to sleeping workers. */
  lemma NoLostWakeup(n: nat, now: int, es: seq<Event>)
    requires Legal(Init(n, now), es, Calm)
    ensures var s := Run(Init(n, now), es, Calm);
      && (SomeAsleep(s.workers) ==> s.going && |s.pool.tasks| <= CountIdle(s.workers))
      && (forall i :: 0 <= i < |s.workers| && s.workers[i].Asleep? ==> Covers(s.workers[i].until, s.pool.timers))
  {
    ReachableAwake(n, now, es);
  }

  /**
   Whether a delay may bring a deadline forward: the workers then asleep keep covering the
   timers exactly when none of them sleeps past the new deadline.
   */
  lemma DelayKeepsCoverIff(s: State, id: TaskId, deadline: int)
    requires Phases(s) && SleepersCovered(s)
    requires IndexOf(s.pool.timers, id) < |s.pool.timers|
    ensures SleepersCovered(After(s, Delay(id, deadline))) <==>
      forall i :: 0 <= i < |s.workers| && (s.workers[i].Planned? || s.workers[i].Asleep?)
        ==> s.workers[i].until.Some? && s.workers[i].until.value <= deadline
  {
    var ts, r, t := s.pool.timers, Bubbled(s.pool.timers, id, deadline), Timer(deadline, id);
    DelayedMembers(ts, id, deadline);
    var s' := After(s, Delay(id, deadline));
    assert s'.workers == s.workers && s'.pool.timers == r;
    forall i | 0 <= i < |s.workers| && (s.workers[i].Planned? || s.workers[i].Asleep?)
      ensures Sleepless(s'.workers[i], r) <==> s.workers[i].until.Some? && s.workers[i].until.value <= deadline
    {
      assert Sleepless(s.workers[i], ts);
    }
  }

  // ---- One worker's round ----------------------------------------------------------------------

  function At(s: State, w: nat, at: Worker): State
    requires w < |s.workers|
  {
    s.(workers := s.workers[w := at])
  }

  lemma AtAt(s: State, w: nat, a: Worker, b: Worker)
    requires w < |s.workers|
    ensures At(At(s, w, a), w, b) == At(s, w, b)
  {
    assert s.workers[w := a][w := b] == s.workers[w := b];
  }

  lemma Ahead(s: State, e: Event, es: seq<Event>)
    requires Enabled(s, e) && Calm(s, e) && Legal(After(s, e), es, Calm)
    ensures Legal(s, [e] + es, Calm) && Run(s, [e] + es, Calm) == Run(After(s, e), es, Calm)
  {
    assert ([e] + es)[1..] == es;
  }

  lemma OneStep(s: State, e: Event)
    requires Enabled(s, e) && Calm(s, e)
    ensures Legal(s, [e], Calm) && Run(s, [e], Calm) == After(s, e)
  {
    assert [e][1..] == [];
  }

  lemma ReadyIsPop(p: Pool, now: int)
    ensures !Ready(p, now) ==> Pop(p, now) == (p, Nothing)
  {
  }

  /** The steps that take a worker, wherever it waits, to its next pop. */
  function WayToPop(at: Worker, w: nat): seq<Event> {
    match at
    case Popping => [PopStep(w)]
    case Top => [Test(w)] + [PopStep(w)]
    case Locking => [Check(w)] + ([Test(w)] + [PopStep(w)])
    case Woken => [Resume(w)] + ([Test(w)] + [PopStep(w)])
    case Asleep(_) => [Rouse(w)] + ([Resume(w)] + ([Test(w)] + [PopStep(w)]))
    case _ => []
  }

  /** The state after `w` has popped, whatever place it came from. */
  function AfterPop(s: State, w: nat): State
    requires w < |s.workers|
  {
    After(At(s, w, Popping), PopStep(w))
  }

  predicate Waits(w: Worker) {
    w.Top? || w.Popping? || w.Locking? || w.Woken? || w.Asleep?
  }

  lemma FromTop(s: State, w: nat)
    requires w < |s.workers| && s.workers[w] == Top && s.going
    ensures Legal(s, [Test(w)] + [PopStep(w)], Calm)
    ensures Run(s, [Test(w)] + [PopStep(w)], Calm) == AfterPop(s, w)
  {
    OneStep(At(s, w, Popping), PopStep(w));
    Ahead(s, Test(w), [PopStep(w)]);
  }

  lemma FromWoken(s: State, w: nat)
    requires w < |s.workers| && s.workers[w] == Woken && s.going && LockFree(s.workers)
    ensures Legal(s, WayToPop(Woken, w), Calm) && Run(s, WayToPop(Woken, w), Calm) == AfterPop(s, w)
  {
    FromTop(At(s, w, Top), w);
    AtAt(s, w, Top, Popping);
    Ahead(s, Resume(w), [Test(w)] + [PopStep(w)]);
  }

  lemma SamePop(s: State, w: nat, at: Worker)
    requires w < |s.workers|
    ensures AfterPop(At(s, w, at), w) == AfterPop(s, w)
  {
    AtAt(s, w, at, Popping);
  }

  lemma FromLocking(s: State, w: nat)
    requires w < |s.workers| && s.workers[w] == Locking && s.going && LockFree(s.workers) && Ready(s.pool, s.clock)
    ensures Legal(s, WayToPop(Locking, w), Calm) && Run(s, WayToPop(Locking, w), Calm) == AfterPop(s, w)
  {
    hide Pop, Legal, Run, AfterPop;
    FromTop(At(s, w, Top), w);
    SamePop(s, w, Top);
    Ahead(s, Check(w), [Test(w)] + [PopStep(w)]);
  }

  lemma FromAsleep(s: State, w: nat)
    requires w < |s.workers| && s.workers[w].Asleep? && s.going && LockFree(s.workers)
    ensures Legal(s, WayToPop(s.workers[w], w), Calm) && Run(s, WayToPop(s.workers[w], w), Calm) == AfterPop(s, w)
  {
    hide Pop, Legal, Run, AfterPop;
    FromWoken(At(s, w, Woken), w);
    SamePop(s, w, Woken);
    Ahead(s, Rouse(w), WayToPop(Woken, w));
  }

  /** With the lock free and something ready, no other worker is needed for the next pop. */
  lemma WayServes(s: State, w: nat)
    requires w < |s.workers| && Waits(s.workers[w]) && s.going && LockFree(s.workers) && Ready(s.pool, s.clock)
    ensures var way := WayToPop(s.workers[w], w);
      Legal(s, way, Calm) && Run(s, way, Calm) == AfterPop(s, w)
  {
    hide Pop, Legal, Run, Ready, LockFree;
    match s.workers[w]
    case Popping =>
      assert At(s, w, Popping) == s;
      OneStep(s, PopStep(w));
    case Top => FromTop(s, w);
    case Locking => FromLocking(s, w);
    case Woken => FromWoken(s, w);
    case Asleep(_) => FromAsleep(s, w);
  }

  lemma {:induction false} SomeIdle(ws: seq<Worker>) returns (w: nat)
    requires 0 < CountIdle(ws)
    ensures w < |ws| && Idle(ws[w])
  {
    if Idle(ws[0]) {
      w := 0;
    } else {
      w := SomeIdle(ws[1..]);
      w := w + 1;
    }
  }

  lemma SomeoneIdle(s: State) returns (w: nat)
    requires Awake(s) && SomeAsleep(s.workers) && s.pool.tasks != []
    ensures w < |s.workers| && Idle(s.workers[w]) && Waits(s.workers[w])
    ensures s.going && LockFree(s.workers) && Ready(s.pool, s.clock)
  {
    w := SomeIdle(s.workers);
    assert forall i :: 0 <= i < |s.workers| ==> Fits(s.workers[i], s.going, s.pool.tasks);
  }

  lemma PopFirst(s: State, w: nat)
    requires w < |s.workers| && s.pool.tasks != []
    ensures var s' := AfterPop(s, w);
      && s'.workers == s.workers[w := Running(s.pool.tasks[0])]
      && s'.pool == s.pool.(tasks := s.pool.tasks[1..])
  {
    assert s.workers[w := Popping][w := Running(s.pool.tasks[0])] == s.workers[w := Running(s.pool.tasks[0])];
  }

  /**
   In every interleaving that leaves a task queued while somebody sleeps, there is a worker that
   is awake and whose own next steps, all of them possible, run the oldest task.
   */
  lemma QueuedTaskServed(n: nat, now: int, es: seq<Event>) returns (w: nat)
    requires Legal(Init(n, now), es, Calm)
    requires var s := Run(Init(n, now), es, Calm); SomeAsleep(s.workers) && s.pool.tasks != []
    ensures var s := Run(Init(n, now), es, Calm);
      && w < |s.workers| && Idle(s.workers[w])
      && var way := WayToPop(s.workers[w], w);
      && Legal(s, way, Calm)
      && var s' := Run(s, way, Calm);
      && s'.workers == s.workers[w := Running(s.pool.tasks[0])]
      && s'.pool == s.pool.(tasks := s.pool.tasks[1..])
  {
    hide LockFree, WayToPop, Legal, Run, Pop, AfterPop, Awake, Idle, Waits;
    var s := Run(Init(n, now), es, Calm);
    ReachableAwake(n, now, es);
    w := SomeoneIdle(s);
    PopFirst(s, w);
    WayServes(s, w);
  }

  lemma PushWakes(s: State, k: nat)
    requires Awake(s) && k < |s.workers| && s.workers[k].Asleep? && LockFree(s.workers)
    ensures Enabled(s, Push(k))
    ensures var s' := After(s, Push(k));
      && s'.workers == s.workers[k := Woken] && s'.pool == s.pool.(tasks := s.pool.tasks + [s.nextId])
      && s'.going && LockFree(s'.workers) && Ready(s'.pool, s'.clock)
  {
    assert Fits(s.workers[k], s.going, s.pool.tasks);
  }

  /**
   In every interleaving: while somebody sleeps and the lock is free a push is possible, it wakes
   a sleeper, and that worker's own next steps, all of them possible, run the oldest task.
   */
  lemma PushServed(n: nat, now: int, es: seq<Event>, k: nat)
    requires Legal(Init(n, now), es, Calm)
    requires var s := Run(Init(n, now), es, Calm); k < |s.workers| && s.workers[k].Asleep? && LockFree(s.workers)
    ensures var s := Run(Init(n, now), es, Calm);
      && Enabled(s, Push(k))
      && var s' := After(s, Push(k));
      && s'.workers == s.workers[k := Woken] && s'.pool == s.pool.(tasks := s.pool.tasks + [s.nextId])
      && Legal(s', WayToPop(Woken, k), Calm)
      && Run(s', WayToPop(Woken, k), Calm).workers == s.workers[k := Running((s.pool.tasks + [s.nextId])[0])]
  {
    hide Legal, Run, Pop, AfterPop, WayToPop, Awake;
    var s := Run(Init(n, now), es, Calm);
    ReachableAwake(n, now, es);
    PushWakes(s, k);
    var s' := After(s, Push(k));
    PopFirst(s', k);
    WayServes(s', k);
    assert s.workers[k := Woken][k := Running(s'.pool.tasks[0])] == s.workers[k := Running(s'.pool.tasks[0])];
  }

  /** Worker `w` has taken out and runs a timer of least deadline, and this is on record. */
  ghost predicate FiredLeast(s: State, s': State, w: nat)
    requires w < |s.workers|
  {
    exists u :: u in s.pool.timers && (forall v :: v in s.pool.timers ==> u.deadline <= v.deadline)
      && s'.workers == s.workers[w := Running(u.task)]
      && multiset(s'.pool.timers) == multiset(s.pool.timers) - multiset{u}
      && s'.fired == s.fired + [Firing(u.deadline, s.clock)]
  }

  lemma PopLast(s: State, w: nat)
    requires w < |s.workers| && s.pool.tasks == [] && s.pool.timers != [] && Next(s.pool).value <= s.clock
    ensures var u := s.pool.timers[|s.pool.timers| - 1];
      var s' := AfterPop(s, w);
      && s'.workers == s.workers[w := Running(u.task)]
      && s'.pool.timers == s.pool.timers[..|s.pool.timers| - 1]
      && s'.fired == s.fired + [Firing(u.deadline, s.clock)]
  {
    assert s.workers[w := Popping][w := Running(s.pool.timers[|s.pool.timers| - 1].task)]
        == s.workers[w := Running(s.pool.timers[|s.pool.timers| - 1].task)];
  }

  lemma PopFiresLeast(s: State, w: nat)
    requires w < |s.workers| && Sorted(s.pool.timers) && s.pool.tasks == []
    requires s.pool.timers != [] && Next(s.pool).value <= s.clock
    ensures FiredLeast(s, AfterPop(s, w), w)
  {
    hide Sorted, AfterPop;
    var ts := s.pool.timers;
    PopLast(s, w);
    NextCovers(s.pool);
    DropLast(ts);
    assert ts[|ts| - 1] in ts;
  }

  lemma SleeperWithDue(s: State, w: nat, t: Timer)
    requires Awake(s) && w < |s.workers| && s.workers[w].Asleep? && t in s.pool.timers && t.deadline <= s.clock
    ensures s.going && s.workers[w].until.Some? && s.workers[w].until.value <= s.clock
    ensures Ready(s.pool, s.clock) && s.pool.timers != [] && Next(s.pool).value <= s.clock
  {
    assert Sleepless(s.workers[w], s.pool.timers);
    assert Fits(s.workers[w], s.going, s.pool.tasks);
    NextCovers(s.pool);
  }

  /**
   In every interleaving: a sleeper with a timer due has passed its own wake-up time, and with
   the lock free its next steps, all of them possible, fire a timer of least deadline.
   */
  lemma DueTimerServed(n: nat, now: int, es: seq<Event>, w: nat, t: Timer)
    requires Legal(Init(n, now), es, Calm)
    requires var s := Run(Init(n, now), es, Calm);
      && w < |s.workers| && s.workers[w].Asleep? && LockFree(s.workers) && s.pool.tasks == []
      && t in s.pool.timers && t.deadline <= s.clock
    ensures var s := Run(Init(n, now), es, Calm);
      && s.workers[w].until.Some? && s.workers[w].until.value <= s.clock
      && var way := WayToPop(s.workers[w], w);
      && Legal(s, way, Calm) && FiredLeast(s, Run(s, way, Calm), w)
  {
    hide Sorted, FiredLeast, LockFree, WayToPop, Legal, Run, Pop;
    var s := Run(Init(n, now), es, Calm);
    ReachableAwake(n, now, es);
    SleeperWithDue(s, w, t);
    PopFiresLeast(s, w);
    WayServes(s, w);
  }

  lemma FromChecked(s: State, w: nat)
    requires w < |s.workers| && s.workers[w] == Checked && s.going
    ensures Legal(s, [Plan(w)] + [Sleep(w)], Calm)
    ensures Run(s, [Plan(w)] + [Sleep(w)], Calm) == At(s, w, Asleep(Next(s.pool)))
  {
    AtAt(s, w, Planned(Next(s.pool)), Asleep(Next(s.pool)));
    OneStep(At(s, w, Planned(Next(s.pool))), Sleep(w));
    Ahead(s, Plan(w), [Sleep(w)]);
  }

  lemma LaterThanNow(p: Pool, now: int)
    requires !Ready(p, now)
    ensures Next(p).Some? ==> now < Next(p).value
  {
  }

  /**
   With nothing ready, one round takes a worker from the loop test to sleep until the least
   deadline, which is still to come, and changes nothing else.
   */
  lemma IdleRoundSleeps(s: State, w: nat)
    requires Phases(s) && w < |s.workers| && s.workers[w] == Top && s.going && LockFree(s.workers)
    requires !Ready(s.pool, s.clock)
    ensures var round := [Test(w)] + ([PopStep(w)] + ([Check(w)] + ([Plan(w)] + [Sleep(w)])));
      Legal(s, round, Calm) && Run(s, round, Calm) == At(s, w, Asleep(Next(s.pool)))
    ensures Covers(Next(s.pool), s.pool.timers) && (Next(s.pool).Some? ==> s.clock < Next(s.pool).value)
  {
    hide Next, Sorted;
    ReadyIsPop(s.pool, s.clock);
    NextCovers(s.pool);
    LaterThanNow(s.pool, s.clock);
    AtAt(s, w, Popping, Locking);
    AtAt(s, w, Locking, Checked);
    AtAt(s, w, Checked, Asleep(Next(s.pool)));
    FromChecked(At(s, w, Checked), w);
    Ahead(At(s, w, Locking), Check(w), [Plan(w)] + [Sleep(w)]);
    Ahead(At(s, w, Popping), PopStep(w), [Check(w)] + ([Plan(w)] + [Sleep(w)]));
    Ahead(s, Test(w), [PopStep(w)] + ([Check(w)] + ([Plan(w)] + [Sleep(w)])));
  }
}
