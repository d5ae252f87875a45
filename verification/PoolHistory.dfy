/**
 What whole runs of the pool keep: where each task is, in which order timers fire, and what
 is left after shutdown.
 */
module PoolHistory {
  import opened Options
  import opened TaskPool
  import opened ThreadPool

  // ---- Every task is in exactly one place ----------------------------------------------

  /** How many timers carry this id. */
  ghost function Timed(ts: seq<Timer>, id: TaskId): nat {
    if ts == [] then 0 else (if ts[0].task == id then 1 else 0) + Timed(ts[1..], id)
  }

  ghost function InPool(p: Pool, id: TaskId): nat {
    multiset(p.tasks)[id] + Timed(p.timers, id)
  }

  /** How often the id occurs among the queued, timed, handed out and cancelled tasks. */
  ghost function Occurrences(s: State, id: TaskId): nat {
    InPool(s.pool, id) + s.handed[id] + s.cancelled[id]
  }

  /** Each id given out so far is in exactly one of the four places, and there once. */
  ghost predicate OnePlace(s: State) {
    forall id: TaskId :: Occurrences(s, id) == if id < s.nextId then 1 else 0
  }

  lemma {:induction false} TimedConcat(a: seq<Timer>, b: seq<Timer>, id: TaskId)
    ensures Timed(a + b, id) == Timed(a, id) + Timed(b, id)
  {
    if a == [] {
      assert a + b == b;
    } else {
      assert (a + b)[1..] == a[1..] + b;
      TimedConcat(a[1..], b, id);
    }
  }

  lemma TimedAt(ts: seq<Timer>, k: nat, id: TaskId)
    requires k < |ts|
    ensures Timed(ts, id) == Timed(ts[..k] + ts[k + 1..], id) + if ts[k].task == id then 1 else 0
  {
    assert ts == ts[..k] + ([ts[k]] + ts[k + 1..]);
    TimedConcat(ts[..k], [ts[k]] + ts[k + 1..], id);
    TimedConcat([ts[k]], ts[k + 1..], id);
    TimedConcat(ts[..k], ts[k + 1..], id);
  }

  lemma {:induction false} TimedOfContents(a: seq<Timer>, b: seq<Timer>, id: TaskId)
    requires multiset(a) == multiset(b)
    ensures Timed(a, id) == Timed(b, id)
    decreases |a|
  {
    if a == [] {
      assert |multiset(b)| == 0;
    } else {
      assert a[0] in multiset(b);
      var k :| 0 <= k < |b| && b[k] == a[0];
      RemoveAt(b, k);
      assert a == [a[0]] + a[1..];
      TimedOfContents(a[1..], b[..k] + b[k + 1..], id);
      TimedAt(b, k, id);
    }
  }

  lemma TimedInsert(ts: seq<Timer>, t: Timer, id: TaskId)
    ensures Timed(Insert(ts, t), id) == Timed(ts, id) + if t.task == id then 1 else 0
  {
    InsertContents(ts, t);
    assert multiset([t] + ts) == multiset(ts) + multiset{t};
    TimedOfContents(Insert(ts, t), [t] + ts, id);
  }

  lemma TimedBubbled(ts: seq<Timer>, id: TaskId, deadline: int, other: TaskId)
    ensures Timed(Bubbled(ts, id, deadline), other) == Timed(ts, other)
  {
    var k := IndexOf(ts, id);
    if k < |ts| {
      var r := ts[k := Timer(deadline, id)];
      BubbledContents(ts, id, deadline);
      TimedOfContents(Bubbled(ts, id, deadline), r, other);
      TimedAt(r, k, other);
      TimedAt(ts, k, other);
      assert r[..k] + r[k + 1..] == ts[..k] + ts[k + 1..];
    }
  }

  lemma TimedPop(ts: seq<Timer>, id: TaskId)
    requires ts != []
    ensures var n := |ts| - 1;
      Timed(ts, id) == Timed(ts[..n], id) + if ts[n].task == id then 1 else 0
  {
    var n := |ts| - 1;
    TimedAt(ts, n, id);
    assert ts[..n] + ts[n + 1..] == ts[..n];
  }

  /** What leaves the pool by a pop is what is handed out. */
  lemma PopConserves(p: Pool, now: int, id: TaskId)
    ensures var (p', got) := Pop(p, now);
      InPool(p, id) == InPool(p', id) +
        match got
        case Nothing => 0
        case Immediate(t) => if t == id then 1 else 0
        case Due(t) => if t.task == id then 1 else 0
  {
    if p.tasks != [] {
      assert p.tasks == [p.tasks[0]] + p.tasks[1..];
    } else if p.timers != [] {
      TimedPop(p.timers, id);
    }
  }

  /** The change in the pool, before hand-outs and cancellations are counted. */
  lemma InPoolStep(s: State, e: Event, id: TaskId)
    requires !e.PopStep?
    ensures InPool(PoolAfter(s, e), id) ==
      InPool(s.pool, id)
      + (if (e.Push? || e.PushDelayed?) && id == s.nextId then 1 else 0)
      - (if e.Cancel? && e.id == id && IndexOf(s.pool.timers, id) < |s.pool.timers| then 1 else 0)
  {
    hide Insert, Bubbled, Timed, Pop;
    var ts := s.pool.timers;
    match e
    case PushDelayed(sampled, duration) => TimedInsert(ts, Timer(sampled + duration, s.nextId), id);
    case Delay(t, deadline) => TimedBubbled(ts, t, deadline, id);
    case Cancel(t) =>
      if IndexOf(ts, t) < |ts| {
        TimedAt(ts, IndexOf(ts, t), id);
      }
    case _ =>
  }

  lemma PopOccurrences(s: State, w: nat, id: TaskId)
    requires Enabled(s, PopStep(w))
    ensures Occurrences(After(s, PopStep(w)), id) == Occurrences(s, id)
  {
    PopConserves(s.pool, s.clock, id);
  }

  lemma OccurrencesStep(s: State, e: Event, id: TaskId)
    requires Enabled(s, e)
    ensures Occurrences(After(s, e), id) ==
      Occurrences(s, id) + if (e.Push? || e.PushDelayed?) && id == s.nextId then 1 else 0
  {
    if e.PopStep? {
      PopOccurrences(s, e.w, id);
    } else {
      InPoolStep(s, e, id);
      assert After(s, e).handed == s.handed;
      assert !e.Cancel? ==> After(s, e).cancelled == s.cancelled;
    }
  }

  /** In any run, disciplined or not: nothing is lost and nothing is handed out twice. */
  lemma {:induction false} EachTaskOnce(s: State, es: seq<Event>, g: (State, Event) -> bool)
    requires OnePlace(s) && Legal(s, es, g)
    ensures OnePlace(Run(s, es, g))
    decreases |es|
  {
    if es != [] {
      forall id: TaskId
        ensures Occurrences(After(s, es[0]), id) == if id < After(s, es[0]).nextId then 1 else 0
      {
        OccurrencesStep(s, es[0], id);
      }
      EachTaskOnce(After(s, es[0]), es[1..], g);
    }
  }

  // ---- The order in which timers fire ----------------------------------------------------

  ghost predicate Nondecreasing(fired: seq<Firing>) {
    forall i, j :: 0 <= i < j < |fired| ==> fired[i].deadline <= fired[j].deadline
  }

  predicate Fires(s: State, e: Event) {
    e.PopStep? && Pop(s.pool, s.clock).1.Due?
  }

  ghost predicate Ordered(s: State) {
    && Sorted(s.pool.timers)
    && Nondecreasing(s.fired)
    && (forall i :: 0 <= i < |s.fired| ==> s.fired[i].deadline <= s.fired[i].at <= s.clock)
    && (s.fired != [] ==> forall t :: t in s.pool.timers ==> s.fired[|s.fired| - 1].deadline <= t.deadline)
  }

  lemma InsertMembers(ts: seq<Timer>, t: Timer)
    ensures forall u :: u in Insert(ts, t) <==> u in ts || u == t
  {
    InsertContents(ts, t);
    assert forall u :: u in Insert(ts, t) <==> u in multiset(Insert(ts, t));
  }

  /** A floor under all deadlines stays one unless a timer is pushed below it. */
  lemma FloorStep(s: State, e: Event, floor: int)
    requires Sorted(s.pool.timers) && Enabled(s, e) && Calm(s, e)
    requires Covers(Some(floor), s.pool.timers)
    requires e.PushDelayed? ==> floor <= e.sampled + e.duration
    ensures Covers(Some(floor), PoolAfter(s, e).timers)
  {
    if e.PushDelayed? {
      InsertMembers(s.pool.timers, Timer(e.sampled + e.duration, s.nextId));
    } else {
      StillCovered(s, e, Some(floor));
    }
  }

  lemma AppendInOrder(fired: seq<Firing>, f: Firing)
    requires Nondecreasing(fired) && fired != []
    ensures Nondecreasing(fired + [f]) <==> fired[|fired| - 1].deadline <= f.deadline
  {
    var r := fired + [f];
    assert r[|fired|] == f && r[|fired| - 1] == fired[|fired| - 1];
  }

  lemma FiringOrdered(s: State, w: nat)
    requires Ordered(s) && Enabled(s, PopStep(w)) && Fires(s, PopStep(w))
    ensures Ordered(After(s, PopStep(w)))
  {
    var ts := s.pool.timers;
    var f := Firing(ts[|ts| - 1].deadline, s.clock);
    NextCovers(s.pool);
    assert ts[|ts| - 1] in ts;
    if s.fired != [] {
      AppendInOrder(s.fired, f);
    }
    assert After(s, PopStep(w)).fired == s.fired + [f];
    FewerCovers(Next(s.pool), ts, |ts| - 1);
    assert ts[..|ts| - 1] + ts[|ts| - 1 + 1..] == ts[..|ts| - 1];
  }

  lemma OrderedStep(s: State, e: Event)
    requires Ordered(s) && Enabled(s, e) && InOrder(s, e)
    ensures Ordered(After(s, e))
  {
    hide Sorted, Nondecreasing, Insert, Bubbled, Cancelled, WorkersAfter;
    if Fires(s, e) {
      FiringOrdered(s, e.w);
    } else {
      SortedStep(s, e);
      assert After(s, e).fired == s.fired;
      if s.fired != [] {
        FloorStep(s, e, s.fired[|s.fired| - 1].deadline);
      }
    }
  }

  /** No timer fires early, and over a whole run the deadlines fired never go back. */
  lemma {:induction false} FiringOrder(s: State, es: seq<Event>)
    requires Ordered(s) && Legal(s, es, InOrder)
    ensures Ordered(Run(s, es, InOrder))
    decreases |es|
  {
    if es != [] {
      OrderedStep(s, es[0]);
      FiringOrder(After(s, es[0]), es[1..]);
    }
  }

  /** Reading the clock in the same step as the insertion is always fresh. */
  lemma FreshSampleInOrder(s: State, duration: nat)
    requires Ordered(s)
    ensures Fresh(s, PushDelayed(s.clock, duration)) && InOrder(s, PushDelayed(s.clock, duration))
  {
  }

  /**
   As long as no timer fires between the clock reading of a push and its insertion, whatever the
   delays: no timer fires early, and over a whole run the deadlines fired never go back.
   */
  lemma {:induction false} FreshFiringOrder(s: State, es: seq<Event>)
    requires Ordered(s) && Legal(s, es, Fresh)
    ensures Ordered(Run(s, es, Fresh))
    decreases |es|
  {
    if es != [] {
      OrderedStep(s, es[0]);
      FreshFiringOrder(After(s, es[0]), es[1..]);
    }
  }

  lemma FiresNext(s: State, w: nat)
    requires Enabled(s, PopStep(w)) && Fires(s, PopStep(w))
    ensures After(s, PopStep(w)).fired == s.fired + [Firing(Next(s.pool).value, s.clock)]
  {
  }

  lemma LeastAfterInsert(ts: seq<Timer>, t: Timer)
    requires Sorted(ts)
    ensures var next := Next(Pool([], Insert(ts, t)));
      && next.Some? && next.value <= t.deadline
      && (next.value == t.deadline || exists u :: u in ts && u.deadline == next.value)
  {
    InsertSorted(ts, t);
    InsertMembers(ts, t);
    var r := Insert(ts, t);
    NextCovers(Pool([], r));
    assert t in r && r[|r| - 1] in r;
  }

  /**
   `pushDelayed` reads the clock before it takes the inner mutex, so a worker may fire a timer
   in between. The next firing is then in order exactly when the new deadline is not before
   the last one fired.
   */
  lemma StaleSampleIff(s: State, sampled: int, duration: int, now: int, w: nat)
    requires Ordered(s) && s.fired != [] && s.pool.tasks == []
    requires Enabled(s, PushDelayed(sampled, duration)) && Enabled(s, PopStep(w))
    requires s.clock <= now && sampled + duration <= now
    ensures var s1 := After(s, PushDelayed(sampled, duration));
      var s2 := After(s1, Tick(now));
      && Enabled(s2, PopStep(w))
      && (Nondecreasing(After(s2, PopStep(w)).fired)
          <==> s.fired[|s.fired| - 1].deadline <= sampled + duration)
  {
    var t := Timer(sampled + duration, s.nextId);
    var s2 := After(After(s, PushDelayed(sampled, duration)), Tick(now));
    LeastAfterInsert(s.pool.timers, t);
    var last := Next(s2.pool).value;
    assert s2.pool.tasks == [] && s2.fired == s.fired && s2.workers[w] == s.workers[w];
    FiresNext(s2, w);
    AppendInOrder(s.fired, Firing(last, now));
  }

  // ---- Equal deadlines ---------------------------------------------------------------------

  ghost predicate Arrivals(ts: seq<Timer>, delayed: set<TaskId>, next: TaskId) {
    Sorted(ts) && ArrivalOrder(ts, delayed) && forall t :: t in ts ==> t.task < next
  }

  lemma InsertArrivals(ts: seq<Timer>, t: Timer, delayed: set<TaskId>)
    requires Arrivals(ts, delayed, t.task)
    ensures Arrivals(Insert(ts, t), delayed, t.task + 1)
  {
    InsertSorted(ts, t);
    InsertArrival(ts, t, delayed);
    InsertMembers(ts, t);
  }

  lemma DelayedArrivals(ts: seq<Timer>, id: TaskId, deadline: int, delayed: set<TaskId>, next: TaskId)
    requires Arrivals(ts, delayed, next)
    requires forall t :: t in ts && t.task == id ==> t.deadline <= deadline
    ensures Arrivals(Bubbled(ts, id, deadline), delayed + {id}, next)
  {
    CalmDelaySorted(ts, id, deadline);
    BubbledIsDelayed(ts, id, deadline);
    DelayedArrival(ts, id, deadline, delayed);
    DelayedMembers(ts, id, deadline);
  }

  lemma RemovalArrivals(ts: seq<Timer>, id: TaskId, delayed: set<TaskId>, next: TaskId)
    requires Arrivals(ts, delayed, next)
    ensures Arrivals(Cancelled(ts, id), delayed, next)
    ensures ts != [] ==> Arrivals(ts[..|ts| - 1], delayed, next)
  {
    CancelledOrder(ts, id, delayed);
  }

  lemma TimersKept(s: State, e: Event)
    requires Arrivals(s.pool.timers, s.delayed, s.nextId)
    requires Enabled(s, e) && !e.PushDelayed? && !e.Delay? && !e.Cancel? && !Fires(s, e)
    ensures var s' := After(s, e); Arrivals(s'.pool.timers, s'.delayed, s'.nextId)
  {
    hide Sorted, ArrivalOrder;
    assert After(s, e).pool.timers == s.pool.timers;
  }

  lemma ArrivalsStep(s: State, e: Event)
    requires Arrivals(s.pool.timers, s.delayed, s.nextId) && Enabled(s, e) && Calm(s, e)
    ensures var s' := After(s, e); Arrivals(s'.pool.timers, s'.delayed, s'.nextId)
  {
    hide Arrivals, Sorted, ArrivalOrder, Insert, Bubbled, Cancelled;
    var ts, s' := s.pool.timers, After(s, e);
    if e.PushDelayed? {
      InsertArrivals(ts, Timer(e.sampled + e.duration, s.nextId), s.delayed);
    } else if e.Delay? {
      DelayedArrivals(ts, e.id, e.deadline, s.delayed, s.nextId);
    } else if e.Cancel? {
      RemovalArrivals(ts, e.id, s.delayed, s.nextId);
    } else if Fires(s, e) {
      RemovalArrivals(ts, 0, s.delayed, s.nextId);
      assert s'.pool.timers == ts[..|ts| - 1];
    } else {
      TimersKept(s, e);
    }
  }

  /** Over a whole run, the timer fired is the newest undelayed one of its deadline. */
  lemma {:induction false} NewestFirst(s: State, es: seq<Event>)
    requires Arrivals(s.pool.timers, s.delayed, s.nextId) && Legal(s, es, Calm)
    ensures var p := Run(s, es, Calm);
      forall t, u | Pop(p.pool, p.clock).1 == Due(t) && u in p.pool.timers && u.deadline == t.deadline ::
        t.task in p.delayed || u.task in p.delayed || u == t || u.task < t.task
    decreases |es|
  {
    if es != [] {
      ArrivalsStep(s, es[0]);
      NewestFirst(After(s, es[0]), es[1..]);
    } else if Pop(s.pool, s.clock).1.Due? && Pop(s.pool, s.clock).1.timer.task !in s.delayed {
      PopNewestFirst(s.pool, s.clock, s.delayed);
    }
  }

  // ---- Shutting down -------------------------------------------------------------------------

  predicate AllExited(ws: seq<Worker>) {
    ws != [] && forall i :: 0 <= i < |ws| ==> ws[i].Exited?
  }

  ghost predicate Drained(s: State) {
    && Phases(s)
    && (AllExited(s.workers) ==>
          s.pool.tasks == [] && Covers(Some(s.lastEmpty + 1), s.pool.timers))
  }

  lemma DrainedStep(s: State, e: Event)
    requires Drained(s) && Enabled(s, e) && Closed(s, e)
    ensures Drained(After(s, e))
  {
    PhasesStep(s, e);
    var s' := After(s, e);
    if AllExited(s'.workers) {
      if e.PopStep? {
        assert s'.workers[e.w].Exited?;
        NextCovers(s.pool);
      } else {
        forall i | 0 <= i < |s.workers|
          ensures s.workers[i].Exited?
        {
          assert s'.workers[i].Exited?;
        }
        assert Fits(s.workers[0], s.going, s.pool.tasks);
        StillCovered(s, e, Some(s.lastEmpty + 1));
      }
    }
  }

  /**
   Once all workers have exited, no immediate task is left, and every timer left has a
   deadline after the last worker's final pop.
   */
  lemma {:induction false} ShutdownDrains(s: State, es: seq<Event>)
    requires Drained(s) && Legal(s, es, Closed)
    ensures var s' := Run(s, es, Closed);
      AllExited(s'.workers) ==>
        s'.pool.tasks == [] && forall t :: t in s'.pool.timers ==> s'.lastEmpty < t.deadline
    decreases |es|
  {
    if es != [] {
      DrainedStep(s, es[0]);
      ShutdownDrains(After(s, es[0]), es[1..]);
    }
  }

  // ---- Refinement over runs --------------------------------------------------------------------

  ghost function Redated(a: Abstract, t: Timer, deadline: int): Abstract {
    a.(timed := a.timed - multiset{t} + multiset{Timer(deadline, t.task)})
  }

  /** What each event does to a FIFO and a bag of timers; `got` is what a pop hands out. */
  ghost predicate AbstractStep(a: Abstract, nextId: TaskId, clock: int, e: Event, got: Popped, a': Abstract) {
    match e
    case Push(_) => a' == a.(fifo := a.fifo + [nextId])
    case PushDelayed(sampled, duration) => a' == a.(timed := a.timed + multiset{Timer(sampled + duration, nextId)})
    case Cancel(id) =>
      if exists t :: t in a.timed && t.task == id
      then exists t :: t in a.timed && t.task == id && a' == a.(timed := a.timed - multiset{t})
      else a' == a
    case Delay(id, deadline) =>
      if exists t :: t in a.timed && t.task == id
      then exists t :: t in a.timed && t.task == id && a' == Redated(a, t, deadline)
      else a' == a
    case PopStep(_) => AbstractPop(a, clock, got, a')
    case _ => a' == a
  }

  lemma IndexIff(ts: seq<Timer>, id: TaskId)
    ensures var k := IndexOf(ts, id);
      && (k < |ts| <==> exists t :: t in multiset(ts) && t.task == id)
      && (k < |ts| ==> ts[k] in multiset(ts) && ts[k].task == id)
  {
    var k := IndexOf(ts, id);
    if t :| t in multiset(ts) && t.task == id {
      var i :| 0 <= i < |ts| && ts[i] == t;
    }
    if k < |ts| {
      assert ts[k] in multiset(ts);
    }
  }

  lemma CancelRefines(s: State, id: TaskId)
    ensures AbstractStep(Abs(s.pool), s.nextId, s.clock, Cancel(id), Nothing, Abs(PoolAfter(s, Cancel(id))))
  {
    IndexIff(s.pool.timers, id);
    CancelledContents(s.pool.timers, id);
  }

  lemma DelayRefines(s: State, id: TaskId, deadline: int)
    ensures AbstractStep(
      Abs(s.pool), s.nextId, s.clock, Delay(id, deadline), Nothing, Abs(PoolAfter(s, Delay(id, deadline))))
  {
    var ts, k := s.pool.timers, IndexOf(s.pool.timers, id);
    IndexIff(ts, id);
    BubbledContents(ts, id, deadline);
    if k < |ts| {
      assert multiset(ts[k := Timer(deadline, id)]) == multiset(ts) - multiset{ts[k]} + multiset{Timer(deadline, id)};
    }
  }

  function Got(s: State, e: Event): Popped {
    if e.PopStep? then Pop(s.pool, s.clock).1 else Nothing
  }

  /** Pushes and pops, and the events that leave the containers alone. */
  lemma OtherRefines(s: State, e: Event)
    requires Sorted(s.pool.timers) && !e.Cancel? && !e.Delay?
    ensures AbstractStep(Abs(s.pool), s.nextId, s.clock, e, Got(s, e), Abs(PoolAfter(s, e)))
  {
    hide Sorted, Insert, Pop, AbstractPop;
    match e
    case PushDelayed(sampled, duration) => InsertContents(s.pool.timers, Timer(sampled + duration, s.nextId));
    case PopStep(_) => PopRefines(s.pool, s.clock);
    case _ =>
  }

  lemma StepRefines(s: State, e: Event)
    requires Sorted(s.pool.timers) && Enabled(s, e)
    ensures AbstractStep(Abs(s.pool), s.nextId, s.clock, e, Got(s, e), Abs(After(s, e).pool))
  {
    hide Sorted, AbstractStep, PoolAfter, WorkersAfter, Abs, Enabled;
    assert After(s, e).pool == PoolAfter(s, e);
    match e
    case Cancel(id) => CancelRefines(s, id);
    case Delay(id, deadline) => DelayRefines(s, id, deadline);
    case _ => OtherRefines(s, e);
  }

  /** Every step of the run is one of the FIFO and the bag. */
  ghost predicate RunRefines(s: State, es: seq<Event>, g: (State, Event) -> bool)
    requires Legal(s, es, g)
    decreases |es|
  {
    es == [] || (
      && AbstractStep(Abs(s.pool), s.nextId, s.clock, es[0], Got(s, es[0]), Abs(After(s, es[0]).pool))
      && RunRefines(After(s, es[0]), es[1..], g))
  }

  /** In any run without a deadline brought forward, the two containers act as a FIFO and a bag. */
  lemma {:induction false} CalmRunRefines(s: State, es: seq<Event>)
    requires Sorted(s.pool.timers) && Legal(s, es, Calm)
    ensures RunRefines(s, es, Calm)
    decreases |es|
  {
    hide Sorted, AbstractStep, PoolAfter, WorkersAfter, Enabled, Calm, Got, Abs;
    if es != [] {
      StepRefines(s, es[0]);
      SortedStep(s, es[0]);
      CalmRunRefines(After(s, es[0]), es[1..]);
    }
  }

  // ---- From the start -----------------------------------------------------------------------------

  lemma {:induction false} LegalWeaker(
    s: State, es: seq<Event>, g: (State, Event) -> bool, g': (State, Event) -> bool)
    requires Legal(s, es, g) && forall r, e :: g(r, e) ==> g'(r, e)
    ensures Legal(s, es, g') && Run(s, es, g') == Run(s, es, g)
    decreases |es|
  {
    if es != [] {
      LegalWeaker(After(s, es[0]), es[1..], g, g');
    }
  }

  predicate DelayedBy(es: seq<Event>, id: TaskId) {
    exists i :: 0 <= i < |es| && es[i].Delay? && es[i].id == id
  }

  lemma DelayedFirst(es: seq<Event>, id: TaskId)
    requires es != []
    ensures DelayedBy(es, id) <==> (es[0].Delay? && es[0].id == id) || DelayedBy(es[1..], id)
  {
    if DelayedBy(es[1..], id) {
      var i :| 0 <= i < |es| - 1 && es[1..][i].Delay? && es[1..][i].id == id;
      assert es[i + 1].Delay? && es[i + 1].id == id;
    }
    if i :| 0 < i < |es| && es[i].Delay? && es[i].id == id {
      assert es[1..][i - 1].Delay? && es[1..][i - 1].id == id;
    }
  }

  /** The tasks on record as delayed are those that the run delayed. */
  lemma {:induction false} DelayedIff(s: State, es: seq<Event>, g: (State, Event) -> bool, id: TaskId)
    requires Legal(s, es, g)
    ensures id in Run(s, es, g).delayed <==> id in s.delayed || DelayedBy(es, id)
    decreases |es|
  {
    if es != [] {
      DelayedIff(After(s, es[0]), es[1..], g, id);
      DelayedFirst(es, id);
      assert id in After(s, es[0]).delayed <==> id in s.delayed || (es[0].Delay? && es[0].id == id);
    }
  }

  /** The pool as constructed meets every invariant above. */
  lemma InitMeetsAll(n: nat, now: int)
    ensures var s := Init(n, now);
      Awake(s) && OnePlace(s) && Ordered(s) && Arrivals(s.pool.timers, s.delayed, s.nextId) && Drained(s)
  {
    var s := Init(n, now);
    assert s.workers != [] ==> s.workers[0].Top?;
    assert forall id: TaskId :: Occurrences(s, id) == 0;
  }

  /**
   From the start, with any number of workers, whatever they, the callers and the clock do:
   every task is in one place, the deadlines fired never go back and none fires early, no
   worker oversleeps, and the containers act as a FIFO and a bag.
   */
  lemma FromTheStart(n: nat, now: int, es: seq<Event>)
    requires Legal(Init(n, now), es, Fresh)
    ensures var s := Run(Init(n, now), es, Fresh);
      OnePlace(s) && Ordered(s) && Awake(s)
    ensures Legal(Init(n, now), es, Calm) && RunRefines(Init(n, now), es, Calm)
    ensures var s := Run(Init(n, now), es, Fresh);
      forall t, u | Pop(s.pool, s.clock).1 == Due(t) && u in s.pool.timers && u.deadline == t.deadline ::
        DelayedBy(es, t.task) || DelayedBy(es, u.task) || u == t || u.task < t.task
  {
    hide Legal, Run, OnePlace, Awake, Ordered, Arrivals, DelayedBy;
    InitMeetsAll(n, now);
    EachTaskOnce(Init(n, now), es, Fresh);
    FreshFiringOrder(Init(n, now), es);
    LegalWeaker(Init(n, now), es, Fresh, Calm);
    AwakeRun(Init(n, now), es);
    CalmRunRefines(Init(n, now), es);
    NewestFirst(Init(n, now), es);
    forall id: TaskId
      ensures id in Run(Init(n, now), es, Fresh).delayed <==> DelayedBy(es, id)
    {
      DelayedIff(Init(n, now), es, Fresh, id);
    }
  }

  /** When after `stop` only running tasks push, the pool has drained once all workers are gone. */
  lemma DrainedFromTheStart(n: nat, now: int, es: seq<Event>)
    requires Legal(Init(n, now), es, Closed)
    ensures var s := Run(Init(n, now), es, Closed);
      AllExited(s.workers) ==> s.pool.tasks == [] && forall t :: t in s.pool.timers ==> s.lastEmpty < t.deadline
  {
    InitMeetsAll(n, now);
    ShutdownDrains(Init(n, now), es);
  }

  // ---- Runs in which the code does less ---------------------------------------------------------

  /** One worker, the clock, the pool, ids given out, and what is on record as handed out and fired. */
  function Single(
    w: Worker, now: int, ts: seq<Timer>, nextId: TaskId, handed: multiset<TaskId>, fired: seq<Firing>): State
  {
    State(Pool([], ts), [w], true, now, nextId, handed, multiset{}, {}, fired, 0)
  }

  lemma InitSingle()
    ensures Init(1, 0) == Single(Top, 0, [], 0, multiset{}, [])
  {
    assert seq<Worker>(1, _ => Top) == [Top];
  }

  lemma PushesFirst(
    w: Worker, now: int, sampled: int, duration: int, nextId: TaskId, handed: multiset<TaskId>, fired: seq<Firing>)
    requires !Holds(w) && !w.Asleep? && sampled <= now
    ensures var s := Single(w, now, [], nextId, handed, fired);
      && Enabled(s, PushDelayed(sampled, duration))
      && After(s, PushDelayed(sampled, duration))
         == Single(w, now, [Timer(sampled + duration, nextId)], nextId + 1, handed, fired)
  {
    assert NotifyAll([w]) == [w];
  }

  lemma PopsOnly(now: int, t: Timer, nextId: TaskId, handed: multiset<TaskId>, fired: seq<Firing>)
    requires t.deadline <= now
    ensures var s := Single(Popping, now, [t], nextId, handed, fired);
      && Enabled(s, PopStep(0))
      && After(s, PopStep(0))
         == Single(Running(t.task), now, [], nextId, handed + multiset{t.task}, fired + [Firing(t.deadline, now)])
  {
    assert [Popping][0 := Running(t.task)] == [Running(t.task)];
    assert [t][..0] == [];
  }

  lemma Tests(now: int, ts: seq<Timer>, nextId: TaskId, handed: multiset<TaskId>, fired: seq<Firing>)
    ensures var s := Single(Top, now, ts, nextId, handed, fired);
      Enabled(s, Test(0)) && After(s, Test(0)) == Single(Popping, now, ts, nextId, handed, fired)
  {
    assert [Top][0 := Popping] == [Popping];
  }

  lemma Finishes(now: int, ts: seq<Timer>, nextId: TaskId, handed: multiset<TaskId>, fired: seq<Firing>)
    ensures var s := Single(Running(0), now, ts, nextId, handed, fired);
      Enabled(s, Finish(0)) && After(s, Finish(0)) == Single(Top, now, ts, nextId, handed, fired)
  {
    assert [Running(0)][0 := Top] == [Top];
  }

  /** From a run that has fired a timer at 5: a push whose deadline is 4, and its firing. */
  lemma StaleTail(handed: multiset<TaskId>, fired: seq<Firing>)
    ensures var es := [PushDelayed(1, 3)] + ([Finish(0)] + ([Test(0)] + [PopStep(0)]));
      var s := Single(Running(0), 5, [], 1, handed, fired);
      Legal(s, es, Calm) && Run(s, es, Calm).fired == fired + [Firing(4, 5)]
  {
    hide Pop, PoolAfter, WorkersAfter, Legal, Run;
    var ts := [Timer(4, 1)];
    var s, s1, s2 := Single(Running(0), 5, [], 1, handed, fired), Single(Running(0), 5, ts, 2, handed, fired),
                     Single(Top, 5, ts, 2, handed, fired);
    PushesFirst(Running(0), 5, 1, 3, 1, handed, fired);
    Finishes(5, ts, 2, handed, fired);
    Tests(5, ts, 2, handed, fired);
    PopsOnly(5, ts[0], 2, handed, fired);
    FromTop(s2, 0);
    assert At(s2, 0, Popping) == Single(Popping, 5, ts, 2, handed, fired);
    Ahead(s1, Finish(0), [Test(0)] + [PopStep(0)]);
    Ahead(s, PushDelayed(1, 3), [Finish(0)] + ([Test(0)] + [PopStep(0)]));
  }

  lemma Ticks(ts: seq<Timer>, handed: multiset<TaskId>)
    ensures var s := Single(Top, 0, ts, 1, handed, []);
      Enabled(s, Tick(5)) && After(s, Tick(5)) == Single(Top, 5, ts, 1, handed, [])
  {
  }

  /** A clock read before a firing, its timer pushed after it: the deadlines fired go back. */
  lemma StaleSampleExample()
    ensures var es := [PushDelayed(0, 5)] + ([Tick(5)] + ([Test(0)] + ([PopStep(0)] + ([PushDelayed(1, 3)]
                      + ([Finish(0)] + ([Test(0)] + [PopStep(0)]))))));
      Legal(Init(1, 0), es, Calm) && Run(Init(1, 0), es, Calm).fired == [Firing(5, 5)] + [Firing(4, 5)]
  {
    hide Pop, PoolAfter, WorkersAfter, Init, Legal, Run;
    var t, none := Timer(5, 0), multiset{};
    var tail := [PushDelayed(1, 3)] + ([Finish(0)] + ([Test(0)] + [PopStep(0)]));
    InitSingle();
    PushesFirst(Top, 0, 0, 5, 0, none, []);
    Tests(5, [t], 1, none, []);
    PopsOnly(5, t, 1, none, []);
    assert [] + [Firing(5, 5)] == [Firing(5, 5)];
    StaleTail(none + multiset{0}, [Firing(5, 5)]);
    Ahead(Single(Popping, 5, [t], 1, none, []), PopStep(0), tail);
    Ahead(Single(Top, 5, [t], 1, none, []), Test(0), [PopStep(0)] + tail);
    Ticks([t], none);
    Ahead(Single(Top, 0, [t], 1, none, []), Tick(5), [Test(0)] + ([PopStep(0)] + tail));
    Ahead(Init(1, 0), PushDelayed(0, 5), [Tick(5)] + ([Test(0)] + ([PopStep(0)] + tail)));
  }

  lemma DelaysOnly(s: State)
    requires s.workers == [Asleep(Some(10))] && s.pool == Pool([], [Timer(10, 0)])
    ensures var s' := After(s, Delay(0, 5));
      && s'.workers == s.workers && s'.pool == Pool([], [Timer(5, 0)])
      && SleepersCovered(s) && !SleepersCovered(s')
  {
    var s' := After(s, Delay(0, 5));
    assert Bubbled([Timer(10, 0)], 0, 5) == [Timer(5, 0)] by {
      assert IndexOf([Timer(10, 0)], 0) == 0;
    }
    assert Sleepless(s.workers[0], s.pool.timers);
    assert Timer(5, 0) in s'.pool.timers;
    assert !Sleepless(s'.workers[0], s'.pool.timers);
  }

  /**
   A worker asleep until 10 behind the only timer, which is then brought forward to 5: at 5 it
   is due, and nobody wakes before 10.
   */
  lemma UncoveredSleeper()
    ensures var es := [PushDelayed(0, 10)] + ([Test(0)] + ([PopStep(0)] + ([Check(0)] + ([Plan(0)] + [Sleep(0)]))));
      && Legal(Init(1, 0), es, Calm)
      && var s := Run(Init(1, 0), es, Calm);
      && Enabled(s, Delay(0, 5))
      && var s' := After(s, Delay(0, 5));
      && s'.workers == [Asleep(Some(10))] && s'.pool == Pool([], [Timer(5, 0)])
      && SleepersCovered(s) && !SleepersCovered(s')
  {
    hide PoolAfter, WorkersAfter, Legal, Run;
    var s1 := Single(Top, 0, [Timer(10, 0)], 1, multiset{}, []);
    var round := [Test(0)] + ([PopStep(0)] + ([Check(0)] + ([Plan(0)] + [Sleep(0)])));
    InitSingle();
    PushesFirst(Top, 0, 0, 10, 0, multiset{}, []);
    IdleRoundSleeps(s1, 0);
    Ahead(Init(1, 0), PushDelayed(0, 10), round);
    assert At(s1, 0, Asleep(Some(10))) == Single(Asleep(Some(10)), 0, [Timer(10, 0)], 1, multiset{}, []);
    DelaysOnly(Single(Asleep(Some(10)), 0, [Timer(10, 0)], 1, multiset{}, []));
  }
}
