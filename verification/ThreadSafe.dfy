/** Resources shared between threads: the bounded queue and the reference-counted object. */
module ThreadSafe {
  import opened Counting
  import opened Options

  // ---- queue_t ------------------------------------------------------------------------------

  /** The queue with its history: everything accepted, and the positions handed out. */
  datatype Queue<T> = Queue(items: seq<T>, going: bool, accepted: seq<T>, head: nat, delivered: seq<nat>)

  datatype QueueOp<T> = Raise(item: T) | Pop | Halt

  function EmptyQueue<T>(): Queue<T> {
    Queue([], true, [], 0, [])
  }

  /** A full queue drops everything it holds before taking the new item; a stopped one takes nothing. */
  function Apply<T>(q: Queue<T>, max: nat, op: QueueOp<T>): Queue<T> {
    match op
    case Raise(item) =>
      if !q.going then q
      else
        var full := |q.items| == max;
        q.(items := if full then [item] else q.items + [item],
           head := if full then |q.accepted| else q.head,
           accepted := q.accepted + [item])
    case Pop =>
      if !q.going || q.items == [] then q
      else q.(items := q.items[1..], head := q.head + 1, delivered := q.delivered + [q.head])
    case Halt => q.(going := false)
  }

  function Trace<T>(q: Queue<T>, max: nat, ops: seq<QueueOp<T>>): Queue<T>
    decreases |ops|
  {
    if ops == [] then q else Trace(Apply(q, max, ops[0]), max, ops[1..])
  }

  /** The content is the run of accepted items from `head` to the newest; deliveries came before it, in order. */
  ghost predicate InOrder<T>(q: Queue<T>) {
    && q.head <= |q.accepted| && q.items == q.accepted[q.head..]
    && (forall i, j :: 0 <= i < j < |q.delivered| ==> q.delivered[i] < q.delivered[j])
    && (forall i :: 0 <= i < |q.delivered| ==> q.delivered[i] < q.head)
  }

  lemma ApplyInOrder<T>(q: Queue<T>, max: nat, op: QueueOp<T>)
    requires InOrder(q)
    ensures InOrder(Apply(q, max, op))
    ensures 0 < max && |q.items| <= max ==> |Apply(q, max, op).items| <= max
  {
  }

  /** Over any trace the order is kept, whatever the capacity; with room for one item, so is the bound. */
  lemma {:induction false} TraceInOrder<T>(q: Queue<T>, max: nat, ops: seq<QueueOp<T>>)
    requires InOrder(q)
    ensures InOrder(Trace(q, max, ops))
    ensures 0 < max && |q.items| <= max ==> |Trace(q, max, ops).items| <= max
    decreases |ops|
  {
    if ops != [] {
      ApplyInOrder(q, max, ops[0]);
      TraceInOrder(Apply(q, max, ops[0]), max, ops[1..]);
    }
  }

  /**
   The bound holds on all traces exactly when the capacity is at least one: at zero the test for
   full never fires in time.
   */
  lemma BoundIff<T(!new)>(max: nat, sample: T)
    ensures (forall ops: seq<QueueOp<T>> :: |Trace(EmptyQueue<T>(), max, ops).items| <= max) <==> 0 < max
  {
    if max == 0 {
      var ops := [Raise(sample)];
      assert ops[1..] == [];
      assert |Trace(EmptyQueue<T>(), max, ops).items| == 1;
    } else {
      forall ops: seq<QueueOp<T>>
        ensures |Trace(EmptyQueue<T>(), max, ops).items| <= max
      {
        TraceInOrder(EmptyQueue<T>(), max, ops);
      }
    }
  }

  /** A stopped queue neither takes nor gives out anything, whatever is tried afterwards. */
  lemma {:induction false} StoppedForGood<T>(q: Queue<T>, max: nat, ops: seq<QueueOp<T>>)
    requires !q.going
    ensures Trace(q, max, ops) == q
    decreases |ops|
  {
    if ops != [] {
      StoppedForGood(q, max, ops[1..]);
    }
  }

  function Raises<T>(xs: seq<T>): seq<QueueOp<T>> {
    seq(|xs|, i requires 0 <= i < |xs| => Raise(xs[i]))
  }

  /** Operations one after the other. */
  lemma {:induction false} TraceOnce<T>(q: Queue<T>, max: nat, ops: seq<QueueOp<T>>, op: QueueOp<T>)
    ensures Trace(q, max, ops + [op]) == Apply(Trace(q, max, ops), max, op)
    decreases |ops|
  {
    if ops == [] {
      assert (ops + [op])[1..] == [];
    } else {
      assert (ops + [op])[1..] == ops[1..] + [op];
      TraceOnce(Apply(q, max, ops[0]), max, ops[1..], op);
    }
  }

  lemma SmallMod(n: nat, max: nat)
    requires n < max
    ensures n % max == n
  {
    QuotientIs(n, max, 0, n);
  }

  lemma NextMod(n: nat, max: nat)
    requires 0 < max
    ensures n % max < max && n % max <= n
    ensures (n + 1) % max == if n % max + 1 == max then 0 else n % max + 1
  {
    var q, r := n / max, n % max;
    assert n == q * max + r;
    if r + 1 == max {
      assert (q + 1) * max == q * max + max by { MulOrder(q, q, max); }
      QuotientIs(n + 1, max, q + 1, 0);
    } else {
      QuotientIs(n + 1, max, q, r + 1);
    }
  }

  lemma {:induction false} RaisesGo<T>(q: Queue<T>, max: nat, xs: seq<T>)
    requires q.going
    ensures Trace(q, max, Raises(xs)).going
    decreases |xs|
  {
    if xs != [] {
      assert Raises(xs)[1..] == Raises(xs[1..]);
      RaisesGo(Apply(q, max, Raise(xs[0])), max, xs[1..]);
    }
  }

  /**
   With nobody popping, a queue of capacity `max` fills up and starts over: it holds the last one
   to `max` items, as many as are left over from whole fillings.
   */
  lemma {:induction false} RaisedOnly<T>(max: nat, xs: seq<T>)
    requires 0 < max && xs != []
    ensures var held := (|xs| - 1) % max + 1;
      held <= |xs| && Trace(EmptyQueue<T>(), max, Raises(xs)).items == xs[|xs| - held..]
    decreases |xs|
  {
    var n := |xs| - 1;
    var front, x := xs[..n], xs[n];
    assert Raises(xs) == Raises(front) + [Raise(x)];
    TraceOnce(EmptyQueue<T>(), max, Raises(front), Raise(x));
    RaisesGo(EmptyQueue<T>(), max, front);
    if n == 0 {
      assert Raises(front) == [];
      SmallMod(0, max);
    } else {
      RaisedOnly(max, front);
      NextMod(n - 1, max);
      assert front[n - ((n - 1) % max + 1)..] + [x] == xs[n - ((n - 1) % max + 1)..];
    }
  }

  class BoundedQueue<T(!new)> {
    const maxElements: nat
    var queue: seq<T>
    var going: bool
    ghost var accepted: seq<T>
    ghost var head: nat
    ghost var delivered: seq<nat>

    ghost function Value(): Queue<T>
      reads this
    {
      Queue(queue, going, accepted, head, delivered)
    }

    constructor (maxElements: nat)
      ensures this.maxElements == maxElements && Value() == EmptyQueue()
    {
      this.maxElements := maxElements;
      queue, going := [], true;
      accepted, head, delivered := [], 0, [];
    }

    method RaiseItem(item: T)
      modifies this
      ensures Value() == Apply(old(Value()), maxElements, Raise(item))
      ensures old(going) ==> queue == (if old(|queue|) == maxElements then [] else old(queue)) + [item]
      ensures !old(going) ==> queue == old(queue)
    {
      if !going {
        return;
      }
      if |queue| == maxElements {
        queue := [];
        head := |accepted|;
      }
      queue := queue + [item];
      accepted := accepted + [item];
    }

    /** `pop` after its wait: stopped or timed out it has nothing, else the front. */
    method PopItem() returns (item: Option<T>)
      requires InOrder(Value())
      modifies this
      ensures Value() == Apply(old(Value()), maxElements, Pop)
      ensures item == if old(going && queue != []) then Some(old(accepted)[old(head)]) else None
      ensures if old(going && queue != []) then item == Some(old(queue[0])) && queue == old(queue[1..])
              else queue == old(queue)
    {
      if !going || queue == [] {
        return None;
      }
      item := Some(queue[0]);
      queue := queue[1..];
      delivered := delivered + [head];
      head := head + 1;
    }

    method StopQueue()
      modifies this
      ensures Value() == Apply(old(Value()), maxElements, Halt)
      ensures forall ops: seq<QueueOp<T>> :: Trace(Value(), maxElements, ops) == Value()
    {
      going := false;
      forall ops: seq<QueueOp<T>>
        ensures Trace(Value(), maxElements, ops) == Value()
      {
        StoppedForGood(Value(), maxElements, ops);
      }
    }
  }

  // ---- shared_t -----------------------------------------------------------------------------

  datatype Life = Constructed | Destructed

  /** The counter, the `owner` fields of all handles made so far (true is non-null), and the history. */
  datatype Counted = Counted(count: int, owners: seq<bool>, log: seq<Life>)

  datatype HandleOp =
    | NewRef(constructOk: bool)
    | CopyOf(i: nat)
    | MoveOf(i: nat)
    | Assign(to: nat, from: nat)
    | Drop(i: nat)

  function Unused(): Counted {
    Counted(0, [], [])
  }

  function Live(owners: seq<bool>): nat {
    if owners == [] then 0 else (if owners[0] then 1 else 0) + Live(owners[1..])
  }

  /** Constructions that succeeded and destructions, in strict alternation. */
  ghost predicate Alternating(log: seq<Life>) {
    forall i :: 0 <= i < |log| ==> log[i] == if i % 2 == 0 then Constructed else Destructed
  }

  /** The count is the number of live handles, and the object exists exactly while it is positive. */
  ghost predicate Sound(c: Counted) {
    && c.count == Live(c.owners)
    && Alternating(c.log)
    && (c.count > 0 <==> |c.log| % 2 == 1)
  }

  /** One reference given back. */
  function Released(c: Counted, i: nat): Counted
    requires i < |c.owners|
  {
    c.(count := c.count - 1, owners := c.owners[i := false],
       log := if c.count == 1 then c.log + [Destructed] else c.log)
  }

  /** What each operation does to counter, handles and object. */
  function Handle(c: Counted, op: HandleOp): Counted {
    var n := |c.owners|;
    match op
    case NewRef(ok) =>
      if c.count == 0 && !ok then c.(owners := c.owners + [false])
      else Counted(c.count + 1, c.owners + [true], if c.count == 0 then c.log + [Constructed] else c.log)
    case CopyOf(i) =>
      if i < n && c.owners[i] then c.(count := c.count + 1, owners := c.owners + [true])
      else c.(owners := c.owners + [false])
    case MoveOf(i) =>
      if i < n then c.(owners := c.owners[i := false] + [c.owners[i]]) else c
    case Assign(to, from) =>
      if to < n && from < n then
        var c' := if c.owners[to] then Released(c, to) else c;
        c'.(owners := c'.owners[to := c'.owners[from]][from := c'.owners[to]])
      else c
    case Drop(i) =>
      if i < n && c.owners[i] then Released(c, i) else c
  }

  function Uses(c: Counted, ops: seq<HandleOp>): Counted
    decreases |ops|
  {
    if ops == [] then c else Uses(Handle(c, ops[0]), ops[1..])
  }

  lemma {:induction false} LiveUpdate(owners: seq<bool>, i: nat, b: bool)
    requires i < |owners|
    ensures Live(owners[i := b]) == Live(owners) - (if owners[i] then 1 else 0) + (if b then 1 else 0)
  {
    if i > 0 {
      assert owners[i := b][1..] == owners[1..][i - 1 := b];
      LiveUpdate(owners[1..], i - 1, b);
    }
  }

  lemma {:induction false} LiveAppend(owners: seq<bool>, b: bool)
    ensures Live(owners + [b]) == Live(owners) + if b then 1 else 0
  {
    if owners != [] {
      assert (owners + [b])[1..] == owners[1..] + [b];
      LiveAppend(owners[1..], b);
    }
  }

  lemma ReleasedSound(c: Counted, i: nat)
    requires Sound(c) && i < |c.owners| && c.owners[i]
    ensures Sound(Released(c, i))
  {
    LiveUpdate(c.owners, i, false);
  }

  lemma HandleSound(c: Counted, op: HandleOp)
    requires Sound(c)
    ensures Sound(Handle(c, op))
  {
    match op
    case NewRef(ok) => LiveAppend(c.owners, ok || c.count > 0);
    case CopyOf(i) =>
      LiveAppend(c.owners, i < |c.owners| && c.owners[i]);
      if i < |c.owners| {
        LiveUpdate(c.owners, i, false);
      }
    case MoveOf(i) =>
      if i < |c.owners| {
        LiveUpdate(c.owners, i, false);
        LiveAppend(c.owners[i := false], c.owners[i]);
      }
    case Assign(to, from) =>
      if to < |c.owners| && from < |c.owners| {
        if c.owners[to] {
          ReleasedSound(c, to);
        }
        var c' := if c.owners[to] then Released(c, to) else c;
        LiveUpdate(c'.owners, to, c'.owners[from]);
        LiveUpdate(c'.owners[to := c'.owners[from]], from, c'.owners[to]);
      }
    case Drop(i) =>
      if i < |c.owners| && c.owners[i] {
        ReleasedSound(c, i);
      }
  }

  /**
   Over any sequence of operations on any handles, failed constructions included: the count is
   the number of live handles, the object exists exactly while it is positive, and
   constructions and destructions alternate.
   */
  lemma {:induction false} UsesSound(c: Counted, ops: seq<HandleOp>)
    requires Sound(c)
    ensures Sound(Uses(c, ops))
    decreases |ops|
  {
    if ops != [] {
      HandleSound(c, ops[0]);
      UsesSound(Handle(c, ops[0]), ops[1..]);
    }
  }

  class Shared {
    var count: int
    var owners: seq<bool>  // the `owner` field of each handle
    ghost var log: seq<Life>

    ghost function Value(): Counted
      reads this
    {
      Counted(count, owners, log)
    }

    constructor ()
      ensures Value() == Unused()
    {
      count, owners, log := 0, [], [];
    }

    /** `ref`: only the first reference constructs, and a failed construction leaves nothing behind. */
    method Ref(constructOk: bool) returns (p: nat)
      modifies this
      ensures Value() == Handle(old(Value()), NewRef(constructOk))
      ensures p == |old(owners)| && |owners| == p + 1
      ensures if old(count) == 0 && !constructOk then owners == old(owners) + [false] && count == 0
              else owners == old(owners) + [true] && count == old(count) + 1
    {
      p := |owners|;
      if count == 0 {
        if !constructOk {
          owners := owners + [false];
          return;
        }
        log := log + [Constructed];
      }
      count := count + 1;
      owners := owners + [true];
    }

    /** Copy construction: takes a reference through a temporary that then forgets its own. */
    method Copy(from: nat) returns (p: nat)
      requires Sound(Value()) && from < |owners|
      modifies this
      ensures Value() == Handle(old(Value()), CopyOf(from))
      ensures p == |old(owners)| && owners == old(owners) + [old(owners[from])]
      ensures count == old(count) + if old(owners[from]) then 1 else 0
    {
      p := |owners|;
      if owners[from] {
        LiveUpdate(owners, from, false);
        var tmp := Ref(true);
        owners := owners[tmp := false];
        owners := owners[..tmp];
      }
      owners := owners + [owners[from]];
    }

    /** Move construction. */
    method Move(from: nat) returns (p: nat)
      requires from < |owners|
      modifies this`owners
      ensures Value() == Handle(old(Value()), MoveOf(from))
      ensures p == |old(owners)| && owners == old(owners)[from := false] + [old(owners[from])]
    {
      p := |owners|;
      var owner := owners[from];
      owners := owners[from := false];
      owners := owners + [owner];
    }

    /** `release`, which the destructor of a non-null handle calls. */
    method Release(i: nat)
      requires i < |owners| && owners[i]
      modifies this
      ensures Value() == Released(old(Value()), i)
      ensures count == old(count) - 1 && owners == old(owners)[i := false]
    {
      count := count - 1;
      if count == 0 {
        log := log + [Destructed];
      }
      owners := owners[i := false];
    }

    /** Move assignment: releases what the target held, then swaps; onto itself it only releases. */
    method MoveAssign(to: nat, from: nat)
      requires to < |owners| && from < |owners|
      modifies this
      ensures Value() == Handle(old(Value()), Assign(to, from))
      ensures owners[to] == (to != from && old(owners[from])) && (from != to ==> !owners[from])
      ensures forall i :: 0 <= i < |owners| == |old(owners)| && i != to && i != from ==> owners[i] == old(owners[i])
      ensures count == old(count) - if old(owners[to]) then 1 else 0
    {
      if owners[to] {
        Release(to);
      }
      owners := owners[to := owners[from]][from := owners[to]];
    }
  }
}
