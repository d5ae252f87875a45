/**
 The scheduler behind the thread pool: a FIFO of immediate tasks and a vector of
 timers kept in descending deadline order, so that the next timer is the last one.

 `Pool` is the value of the two containers; `Scheduler` is the class whose methods
 update them in place. Clock readings are parameters.
 */
module TaskPool {
  import opened Options

  type TaskId = nat

  datatype Timer = Timer(deadline: int, task: TaskId)

  datatype Pool = Pool(tasks: seq<TaskId>, timers: seq<Timer>)

  datatype Popped = Nothing | Immediate(task: TaskId) | Due(timer: Timer)

  ghost predicate Sorted(ts: seq<Timer>) {
    forall i, j :: 0 <= i < j < |ts| ==> ts[i].deadline >= ts[j].deadline
  }

  // ---- What the operations do to the containers -------------------------------

  /** Insertion in front of the first timer that fires strictly earlier. */
  function Insert(ts: seq<Timer>, t: Timer): (r: seq<Timer>)
    ensures |r| == |ts| + 1
  {
    if ts == [] || ts[0].deadline < t.deadline then [t] + ts else [ts[0]] + Insert(ts[1..], t)
  }

  function IndexOf(ts: seq<Timer>, id: TaskId): (k: nat)
    ensures k <= |ts|
    ensures k < |ts| ==> ts[k].task == id
    ensures forall i :: 0 <= i < k ==> ts[i].task != id
  {
    if ts == [] || ts[0].task == id then 0 else 1 + IndexOf(ts[1..], id)
  }

  /** The delayed timer is re-inserted among the timers that stood before it; those behind it stay. */
  function Delayed(ts: seq<Timer>, id: TaskId, deadline: int): seq<Timer> {
    var k := IndexOf(ts, id);
    if k == |ts| then ts else Insert(ts[..k], Timer(deadline, id)) + ts[k + 1..]
  }

  function Cancelled(ts: seq<Timer>, id: TaskId): seq<Timer> {
    var k := IndexOf(ts, id);
    if k == |ts| then ts else ts[..k] + ts[k + 1..]
  }

  function Pop(p: Pool, now: int): (Pool, Popped) {
    if p.tasks != [] then
      (p.(tasks := p.tasks[1..]), Immediate(p.tasks[0]))
    else if p.timers != [] && p.timers[|p.timers| - 1].deadline <= now then
      (p.(timers := p.timers[..|p.timers| - 1]), Due(p.timers[|p.timers| - 1]))
    else
      (p, Nothing)
  }

  predicate Ready(p: Pool, now: int) {
    Pop(p, now).1 != Nothing
  }

  function Next(p: Pool): Option<int> {
    if p.timers == [] then None else Some(p.timers[|p.timers| - 1].deadline)
  }

  // ---- Sortedness and contents ---------------------------------------------------

  /** Where the inserted timer lands: after everything that is not earlier, before everything earlier. */
  lemma {:induction false} InsertSplits(ts: seq<Timer>, t: Timer) returns (k: nat)
    ensures k <= |ts|
    ensures Insert(ts, t) == ts[..k] + [t] + ts[k..]
    ensures forall i :: 0 <= i < k ==> ts[i].deadline >= t.deadline
    ensures k < |ts| ==> ts[k].deadline < t.deadline
  {
    if ts == [] || ts[0].deadline < t.deadline {
      k := 0;
    } else {
      var j := InsertSplits(ts[1..], t);
      k := j + 1;
      assert ts[..k] == [ts[0]] + ts[1..][..j];
      assert ts[k..] == ts[1..][j..];
    }
  }

  lemma InsertAt(ts: seq<Timer>, t: Timer, k: nat)
    requires k <= |ts| && (k < |ts| ==> ts[k].deadline < t.deadline)
    requires forall i :: 0 <= i < k ==> ts[i].deadline >= t.deadline
    ensures Insert(ts, t) == ts[..k] + [t] + ts[k..]
  {
    var j := InsertSplits(ts, t);
    assert j == k;
  }

  lemma InsertSorted(ts: seq<Timer>, t: Timer)
    requires Sorted(ts)
    ensures Sorted(Insert(ts, t))
  {
    var k := InsertSplits(ts, t);
  }

  lemma InsertContents(ts: seq<Timer>, t: Timer)
    ensures multiset(Insert(ts, t)) == multiset(ts) + multiset{t}
  {
    var k := InsertSplits(ts, t);
    assert ts == ts[..k] + ts[k..];
  }

  /** Entry by entry: `t` left position `k` for `j`, those it overtook moved back by one, the rest stand. */
  ghost predicate Moved(ts: seq<Timer>, r: seq<Timer>, t: Timer, j: nat, k: nat) {
    && j <= k < |ts| == |r| && r[j] == t
    && (forall i :: 0 <= i < j ==> r[i] == ts[i] && ts[i].deadline >= t.deadline)
    && (forall i :: j < i <= k ==> r[i] == ts[i - 1])
    && (forall i :: k < i < |ts| ==> r[i] == ts[i])
    && (j < k ==> ts[j].deadline < t.deadline)
  }

  lemma MovedParts(ts: seq<Timer>, a: seq<Timer>, b: seq<Timer>, t: Timer, j: nat, k: nat)
    requires j <= k < |ts| && a == ts[..k] && b == ts[k + 1..]
    requires forall i :: 0 <= i < j ==> a[i].deadline >= t.deadline
    requires j < k ==> a[j].deadline < t.deadline
    ensures Moved(ts, a[..j] + [t] + a[j..] + b, t, j, k)
  {
  }

  lemma DelayedMoves(ts: seq<Timer>, id: TaskId, deadline: int) returns (j: nat)
    requires IndexOf(ts, id) < |ts|
    ensures Moved(ts, Delayed(ts, id, deadline), Timer(deadline, id), j, IndexOf(ts, id))
  {
    hide Insert, IndexOf, Moved;
    var k, t := IndexOf(ts, id), Timer(deadline, id);
    var a, b := ts[..k], ts[k + 1..];
    assert Delayed(ts, id, deadline) == Insert(a, t) + b;
    j := InsertSplits(a, t);
    MovedParts(ts, a, b, t, j, k);
  }

  lemma MovedSorted(ts: seq<Timer>, r: seq<Timer>, t: Timer, j: nat, k: nat)
    requires Sorted(ts) && Moved(ts, r, t, j, k)
    ensures Sorted(r) <==> (k + 1 < |ts| ==> ts[k + 1].deadline <= t.deadline)
  {
    if k + 1 < |ts| {
      assert r[k + 1] == ts[k + 1];
      if ts[k + 1].deadline <= t.deadline {
        forall x, y | 0 <= x < y < |r|
          ensures r[x].deadline >= r[y].deadline
        {
          if y > k && x <= k {
            assert ts[k + 1].deadline >= ts[y].deadline;
          }
        }
      }
    }
  }

  /**
   `delay` only moves an entry towards the front, so the vector stays sorted exactly when
   the new deadline is not earlier than that of the entry just behind.
   */
  lemma DelayedSortedIff(ts: seq<Timer>, id: TaskId, deadline: int)
    requires Sorted(ts)
    ensures var k := IndexOf(ts, id);
      Sorted(Delayed(ts, id, deadline)) <==> (k + 1 < |ts| ==> ts[k + 1].deadline <= deadline)
  {
    var k := IndexOf(ts, id);
    if k < |ts| {
      var j := DelayedMoves(ts, id, deadline);
      MovedSorted(ts, Delayed(ts, id, deadline), Timer(deadline, id), j, k);
    }
  }

  /** A concrete delay to an earlier deadline after which the earliest timer is no longer last. */
  lemma DelayForwardExample()
    ensures var ts := [Timer(30, 0), Timer(20, 1)];
      Sorted(ts) && !Sorted(Delayed(ts, 0, 10)) && Next(Pool([], Delayed(ts, 0, 10))) == Some(20)
  {
    var ts := [Timer(30, 0), Timer(20, 1)];
    assert IndexOf(ts, 0) == 0;
    assert ts[..0] == [];
    assert Insert([], Timer(10, 0)) == [Timer(10, 0)];
    var r := Delayed(ts, 0, 10);
    assert r == [Timer(10, 0), Timer(20, 1)];
    assert r[0].deadline < r[1].deadline;
  }

  lemma RemoveAt(ts: seq<Timer>, k: nat)
    requires k < |ts|
    ensures multiset(ts[..k] + ts[k + 1..]) == multiset(ts) - multiset{ts[k]}
  {
    assert ts == ts[..k] + [ts[k]] + ts[k + 1..];
  }

  lemma CancelledContents(ts: seq<Timer>, id: TaskId)
    ensures var k := IndexOf(ts, id);
      multiset(Cancelled(ts, id)) == if k == |ts| then multiset(ts) else multiset(ts) - multiset{ts[k]}
  {
    var k := IndexOf(ts, id);
    if k < |ts| {
      RemoveAt(ts, k);
    }
  }

  // ---- Refinement of an abstract scheduler ---------------------------------------

  /** A FIFO and a bag of timers: no order among the timers is left. */
  datatype Abstract = Abstract(fifo: seq<TaskId>, timed: multiset<Timer>)

  ghost function Abs(p: Pool): Abstract {
    Abstract(p.tasks, multiset(p.timers))
  }

  /** The abstract scheduler serves the oldest immediate task, else any due timer of least deadline. */
  ghost predicate AbstractPop(a: Abstract, now: int, r: Popped, a': Abstract) {
    match r
    case Immediate(id) =>
      && a.fifo != [] && id == a.fifo[0]
      && a' == a.(fifo := a.fifo[1..])
    case Due(t) =>
      && a.fifo == [] && t in a.timed && t.deadline <= now
      && (forall u :: u in a.timed ==> t.deadline <= u.deadline)
      && a' == a.(timed := a.timed - multiset{t})
    case Nothing =>
      && a.fifo == [] && (forall u :: u in a.timed ==> now < u.deadline)
      && a' == a
  }

  /** In a sorted vector the last timer has the least deadline. */
  lemma LastIsLeast(ts: seq<Timer>)
    requires Sorted(ts) && ts != []
    ensures ts[|ts| - 1] in multiset(ts)
    ensures forall u :: u in multiset(ts) ==> ts[|ts| - 1].deadline <= u.deadline
  {
    forall u | u in multiset(ts)
      ensures ts[|ts| - 1].deadline <= u.deadline
    {
      var i :| 0 <= i < |ts| && ts[i] == u;
    }
  }

  lemma DropLast(ts: seq<Timer>)
    requires ts != []
    ensures multiset(ts[..|ts| - 1]) == multiset(ts) - multiset{ts[|ts| - 1]}
    ensures Sorted(ts) ==> Sorted(ts[..|ts| - 1])
  {
    assert ts == ts[..|ts| - 1] + [ts[|ts| - 1]];
  }

  lemma DueRefines(p: Pool, now: int)
    requires p.tasks == [] && p.timers != [] && p.timers[|p.timers| - 1].deadline <= now
    requires Sorted(p.timers)
    ensures AbstractPop(Abs(p), now, Pop(p, now).1, Abs(Pop(p, now).0)) && Sorted(Pop(p, now).0.timers)
  {
    hide Sorted;
    var ts, t := p.timers, p.timers[|p.timers| - 1];
    LastIsLeast(ts);
    DropLast(ts);
    assert Pop(p, now) == (p.(timers := ts[..|ts| - 1]), Due(t));
    assert Abs(Pop(p, now).0) == Abs(p).(timed := Abs(p).timed - multiset{t});
  }

  lemma NothingRefines(p: Pool, now: int)
    requires p.tasks == [] && (p.timers != [] ==> now < p.timers[|p.timers| - 1].deadline)
    requires Sorted(p.timers)
    ensures AbstractPop(Abs(p), now, Pop(p, now).1, Abs(Pop(p, now).0)) && Pop(p, now).0 == p
  {
    hide Sorted;
    if p.timers != [] {
      LastIsLeast(p.timers);
    }
  }

  lemma PopRefines(p: Pool, now: int)
    requires Sorted(p.timers)
    ensures AbstractPop(Abs(p), now, Pop(p, now).1, Abs(Pop(p, now).0))
    ensures Sorted(Pop(p, now).0.timers)
  {
    hide Sorted;
    if p.tasks == [] {
      if p.timers != [] && p.timers[|p.timers| - 1].deadline <= now {
        DueRefines(p, now);
      } else {
        NothingRefines(p, now);
      }
    }
  }

  /** The abstract scheduler's wake-up time: the least deadline, if there is one. */
  lemma NextIsLeast(p: Pool)
    requires Sorted(p.timers)
    ensures match Next(p)
      case None => Abs(p).timed == multiset{}
      case Some(d) => && (exists t :: t in Abs(p).timed && t.deadline == d)
                      && (forall u :: u in Abs(p).timed ==> d <= u.deadline)
  {
    if p.timers != [] {
      LastIsLeast(p.timers);
    }
  }

  // ---- Equal deadlines: newest first ------------------------------------------------

  /** With ids given out in order, undelayed timers of one deadline stand oldest first. */
  ghost predicate ArrivalOrder(ts: seq<Timer>, delayed: set<TaskId>) {
    forall i, j | 0 <= i < j < |ts| && ts[i].deadline == ts[j].deadline ::
      ts[i].task in delayed || ts[j].task in delayed || ts[i].task < ts[j].task
  }

  /** Removing one entry leaves the order of the others. */
  lemma RemovedOrder(ts: seq<Timer>, k: nat, delayed: set<TaskId>)
    requires k < |ts| && Sorted(ts) && ArrivalOrder(ts, delayed)
    ensures Sorted(ts[..k] + ts[k + 1..]) && ArrivalOrder(ts[..k] + ts[k + 1..], delayed)
  {
    var r := ts[..k] + ts[k + 1..];
    forall x, y | 0 <= x < y < |r|
      ensures r[x].deadline >= r[y].deadline
      ensures r[x].deadline == r[y].deadline ==>
        r[x].task in delayed || r[y].task in delayed || r[x].task < r[y].task
    {
      var x', y' := if x < k then x else x + 1, if y < k then y else y + 1;
      assert r[x] == ts[x'] && r[y] == ts[y'] && x' < y';
    }
  }

  lemma CancelledOrder(ts: seq<Timer>, id: TaskId, delayed: set<TaskId>)
    requires Sorted(ts) && ArrivalOrder(ts, delayed)
    ensures Sorted(Cancelled(ts, id)) && ArrivalOrder(Cancelled(ts, id), delayed)
  {
    hide Sorted, ArrivalOrder;
    if IndexOf(ts, id) < |ts| {
      RemovedOrder(ts, IndexOf(ts, id), delayed);
    }
  }

  lemma InsertArrival(ts: seq<Timer>, t: Timer, delayed: set<TaskId>)
    requires Sorted(ts) && ArrivalOrder(ts, delayed)
    requires forall u :: u in ts ==> u.task < t.task
    ensures ArrivalOrder(Insert(ts, t), delayed)
  {
    var k := InsertSplits(ts, t);
    assert forall i :: 0 <= i < |ts| ==> ts[i] in ts;
  }

  lemma MovedArrival(ts: seq<Timer>, r: seq<Timer>, t: Timer, j: nat, k: nat, delayed: set<TaskId>)
    requires Moved(ts, r, t, j, k) && ArrivalOrder(ts, delayed)
    ensures ArrivalOrder(r, delayed + {t.task})
  {
    forall x, y | 0 <= x < y < |r| && r[x].deadline == r[y].deadline && x != j && y != j
      ensures r[x].task in delayed || r[y].task in delayed || r[x].task < r[y].task
    {
      var x' := if j < x <= k then x - 1 else x;
      var y' := if j < y <= k then y - 1 else y;
      assert r[x] == ts[x'] && r[y] == ts[y'] && x' < y';
    }
  }

  lemma DelayedArrival(ts: seq<Timer>, id: TaskId, deadline: int, delayed: set<TaskId>)
    requires ArrivalOrder(ts, delayed)
    ensures ArrivalOrder(Delayed(ts, id, deadline), delayed + {id})
  {
    if IndexOf(ts, id) < |ts| {
      var j := DelayedMoves(ts, id, deadline);
      MovedArrival(ts, Delayed(ts, id, deadline), Timer(deadline, id), j, IndexOf(ts, id), delayed);
    }
  }

  /** The due timer that is served is the newest of the undelayed timers sharing its deadline. */
  lemma PopNewestFirst(p: Pool, now: int, delayed: set<TaskId>)
    requires Sorted(p.timers) && ArrivalOrder(p.timers, delayed)
    requires Pop(p, now).1.Due? && Pop(p, now).1.timer.task !in delayed
    ensures var t := Pop(p, now).1.timer;
      forall u :: u in p.timers && u.deadline == t.deadline && u.task !in delayed ==> u == t || u.task < t.task
  {
    var n := |p.timers|;
    forall u | u in p.timers && u.deadline == p.timers[n - 1].deadline && u.task !in delayed
      ensures u == p.timers[n - 1] || u.task < p.timers[n - 1].task
    {
      var i :| 0 <= i < n && p.timers[i] == u;
    }
  }

  // ---- The bubbling loop of `delay` -----------------------------------------------

  /** The effect of one comparison at `it`. */
  function Compared(s: seq<Timer>, it: nat): (r: seq<Timer>)
    requires 0 < it < |s|
    ensures |r| == |s|
  {
    if s[it].deadline > s[it - 1].deadline then s[it := s[it - 1]][it - 1 := s[it]] else s
  }

  /** Comparisons at `it`, `it - 1`, .., 1. */
  function Bubble(s: seq<Timer>, it: nat): seq<Timer>
    requires it == 0 || it < |s|
    decreases it
  {
    if it == 0 then s else Bubble(Compared(s, it), it - 1)
  }

  /** What the loop computes on any vector, sorted or not. */
  function Bubbled(ts: seq<Timer>, id: TaskId, deadline: int): seq<Timer> {
    var k := IndexOf(ts, id);
    if k == |ts| then ts else Bubble(ts[k := Timer(deadline, id)], k)
  }

  lemma {:induction false} BubbleContents(s: seq<Timer>, it: nat)
    requires it == 0 || it < |s|
    ensures multiset(Bubble(s, it)) == multiset(s)
    decreases it
  {
    if it > 0 {
      BubbleContents(Compared(s, it), it - 1);
    }
  }

  /** A delay replaces one entry's deadline and neither adds nor drops a timer. */
  lemma BubbledContents(ts: seq<Timer>, id: TaskId, deadline: int)
    ensures var k := IndexOf(ts, id);
      multiset(Bubbled(ts, id, deadline)) == multiset(if k == |ts| then ts else ts[k := Timer(deadline, id)])
  {
    var k := IndexOf(ts, id);
    if k < |ts| {
      BubbleContents(ts[k := Timer(deadline, id)], k);
    }
  }

  /** Once the front is sorted up to and including `it`, nothing moves any more. */
  lemma {:induction false} BubbleRests(s: seq<Timer>, it: nat)
    requires it == 0 || it < |s|
    requires Sorted(s[..if it < |s| then it + 1 else |s|])
    ensures Bubble(s, it) == s
    decreases it
  {
    if it > 0 {
      assert s[it - 1] == s[..it + 1][it - 1] && s[it] == s[..it + 1][it];
      BubbleRests(s, it - 1);
    }
  }

  lemma ComparedSwaps(a: seq<Timer>, last: Timer, t: Timer, b: seq<Timer>)
    requires last.deadline < t.deadline
    ensures Compared(a + [last] + [t] + b, |a| + 1) == a + [t] + ([last] + b)
  {
  }

  lemma InsertLast(a: seq<Timer>, t: Timer)
    requires Sorted(a) && (a != [] ==> a[|a| - 1].deadline >= t.deadline)
    ensures Insert(a, t) == a + [t]
  {
    var k := InsertSplits(a, t);
    assert k == |a|;
  }

  lemma {:induction false} InsertBeforeLast(a: seq<Timer>, t: Timer)
    requires a != [] && a[|a| - 1].deadline < t.deadline
    ensures Insert(a, t) == Insert(a[..|a| - 1], t) + [a[|a| - 1]]
  {
    if |a| > 1 && a[0].deadline >= t.deadline {
      InsertBeforeLast(a[1..], t);
      assert a[1..][..|a| - 2] == a[..|a| - 1][1..];
    } else {
      assert a == a[..|a| - 1] + [a[|a| - 1]];
    }
  }

  lemma LastRests(a: seq<Timer>, t: Timer, b: seq<Timer>)
    requires Sorted(a) && (a != [] ==> a[|a| - 1].deadline >= t.deadline)
    ensures Bubble(a + [t] + b, |a|) == a + [t] + b
  {
    hide Bubble;
    var s, n := a + [t] + b, |a|;
    assert s[..if n < |s| then n + 1 else |s|] == a + [t];
    BubbleRests(s, n);
  }

  /** An entry placed behind a sorted front `a` bubbles to where insertion into `a` would put it. */
  lemma {:induction false} BubbleInserts(a: seq<Timer>, t: Timer, b: seq<Timer>)
    requires Sorted(a)
    ensures Bubble(a + [t] + b, |a|) == Insert(a, t) + b
  {
    hide Insert, Compared;
    var n := |a|;
    if n == 0 || a[n - 1].deadline >= t.deadline {
      InsertLast(a, t);
      LastRests(a, t, b);
    } else {
      var a', last := a[..n - 1], a[n - 1];
      assert a == a' + [last];
      ComparedSwaps(a', last, t, b);
      BubbleInserts(a', t, [last] + b);
      InsertBeforeLast(a, t);
      assert Insert(a', t) + ([last] + b) == Insert(a', t) + [last] + b;
    }
  }

  /** On a sorted vector the loop is removal followed by insertion among the timers in front. */
  lemma BubbledIsDelayed(ts: seq<Timer>, id: TaskId, deadline: int)
    requires Sorted(ts)
    ensures Bubbled(ts, id, deadline) == Delayed(ts, id, deadline)
  {
    var k, t := IndexOf(ts, id), Timer(deadline, id);
    if k < |ts| {
      assert ts[k := t] == ts[..k] + [t] + ts[k + 1..];
      BubbleInserts(ts[..k], t, ts[k + 1..]);
    }
  }

  // ---- The class --------------------------------------------------------------------

  class Scheduler {
    var tasks: seq<TaskId>
    var timers: seq<Timer>

    function Value(): Pool
      reads this
    {
      Pool(tasks, timers)
    }

    constructor ()
      ensures Value() == Pool([], [])
    {
      tasks, timers := [], [];
    }

    method Push(id: TaskId)
      modifies this
      ensures Value() == old(Value()).(tasks := old(tasks) + [id])
    {
      tasks := tasks + [id];
    }

    method PushDelayed(t: Timer)
      modifies this
      ensures Value() == old(Value()).(timers := Insert(old(timers), t))
    {
      var it := 0;
      while it < |timers|
        invariant 0 <= it <= |timers|
        invariant Value() == old(Value())
        invariant forall i :: 0 <= i < it ==> timers[i].deadline >= t.deadline
      {
        if timers[it].deadline < t.deadline {
          break;
        }
        it := it + 1;
      }
      InsertAt(timers, t, it);
      timers := timers[..it] + [t] + timers[it..];
    }

    /** `delay`: set the new deadline, then bubble the entry towards the front. */
    method Delay(id: TaskId, now: int, duration: int)
      modifies this
      ensures Value() == old(Value()).(timers := Bubbled(old(timers), id, now + duration))
    {
      var it := 0;
      while it < |timers| && timers[it].task != id
        invariant 0 <= it <= |timers|
        invariant Value() == old(Value())
        invariant forall i :: 0 <= i < it ==> timers[i].task != id
      {
        it := it + 1;
      }
      assert it == IndexOf(timers, id);
      if it == |timers| {
        return;
      }
      timers := timers[it := Timer(now + duration, id)];
      var prev := it - 1;
      while it > 0
        invariant prev == it - 1 && 0 <= it < |timers| && tasks == old(tasks)
        invariant Bubble(timers, it) == Bubbled(old(timers), id, now + duration)
        decreases it
      {
        if timers[it].deadline > timers[prev].deadline {
          timers := timers[it := timers[prev]][prev := timers[it]];
        }
        prev := prev - 1;
        it := it - 1;
      }
    }

    method Cancel(id: TaskId) returns (found: bool)
      modifies this
      ensures Value() == old(Value()).(timers := Cancelled(old(timers), id))
      ensures found <==> exists t :: t in old(timers) && t.task == id
    {
      var it := 0;
      while it < |timers|
        invariant 0 <= it <= |timers|
        invariant timers == old(timers)
        invariant forall i :: 0 <= i < it ==> timers[i].task != id
      {
        if timers[it].task == id {
          assert it == IndexOf(timers, id);
          assert timers[it] in old(timers);
          timers := timers[..it] + timers[it + 1..];
          return true;
        }
        it := it + 1;
      }
      return false;
    }

    method PopTask(now: int) returns (task: Option<TaskId>)
      modifies this
      ensures Value() == Pop(old(Value()), now).0
      ensures task == match Pop(old(Value()), now).1
                      case Nothing => None
                      case Immediate(id) => Some(id)
                      case Due(t) => Some(t.task)
    {
      if tasks != [] {
        task := Some(tasks[0]);
        tasks := tasks[1..];
        return;
      }
      if timers != [] && timers[|timers| - 1].deadline <= now {
        task := Some(timers[|timers| - 1].task);
        timers := timers[..|timers| - 1];
        return;
      }
      task := None;
    }
  }
}
