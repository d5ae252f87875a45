/**
 The RTSP server's session slots: launches, announces, stops and clean-ups move the slot
 counter, the pending launch and the slots themselves.

 Every public method is one atomic step. What the network, the encoder and the application
 process answer is a parameter; so is the clock, in milliseconds.
 */
module RtspServer {
  import opened Options

  const LAUNCH_TIMEOUT := 10_000

  datatype State = Stopped | Running | Stopping

  datatype Session = Session(id: nat, state: State)

  datatype Callback = WillStart | WillStop

  datatype Reply = NotLaunched | BadRequest | OutOfSlots | StartFailed | Streaming

  datatype Action = Launch(appRunning: bool, executeError: int) | Resume(appRunning: bool)

  datatype Event =
    | Bound(channels: nat)
    | Check(action: Action, now: int)
    | Raise(argsOk: bool, now: int)
    | Announced(valid: bool, startOk: bool, sendOk: bool, now: int)
    | Stop(i: nat)
    | CleanUp(all: bool, now: int)

  /** What an event came to. */
  datatype Outcome = Done | Checked(code: int) | Failed | Raised(overwrote: bool) | Replied(reply: Reply)

  type Slots = seq<Option<Session>>

  // ---- Counting slots -------------------------------------------------------------------------

  function Occupied(slots: Slots): (n: nat)
    ensures n <= |slots|
  {
    if slots == [] then 0 else (if slots[0].Some? then 1 else 0) + Occupied(slots[1..])
  }

  lemma {:induction false} OccupiedUpdate(slots: Slots, i: nat, v: Option<Session>)
    requires i < |slots|
    ensures Occupied(slots[i := v]) ==
      Occupied(slots) - (if slots[i].Some? then 1 else 0) + (if v.Some? then 1 else 0)
  {
    if i > 0 {
      assert slots[i := v][1..] == slots[1..][i - 1 := v];
      OccupiedUpdate(slots[1..], i - 1, v);
    }
  }

  /** The first free slot, or the number of slots. */
  function FirstFree(slots: Slots): (k: nat)
    ensures k <= |slots|
    ensures k < |slots| ==> slots[k] == None
    ensures forall i :: 0 <= i < k ==> slots[i].Some?
  {
    if slots == [] || slots[0] == None then 0 else 1 + FirstFree(slots[1..])
  }

  function Placed(slots: Slots, session: Session): Slots {
    var k := FirstFree(slots);
    if k == |slots| then slots else slots[k := Some(session)]
  }

  /** The slots are all taken exactly when none is free. */
  lemma {:induction false} FullIff(slots: Slots)
    ensures Occupied(slots) == |slots| <==> FirstFree(slots) == |slots|
  {
    if slots != [] {
      FullIff(slots[1..]);
    }
  }

  lemma {:induction false} NoneOccupied(n: nat)
    ensures Occupied(seq(n, _ => None)) == 0
  {
    if n > 0 {
      assert seq<Option<Session>>(n, _ => None)[1..] == seq(n - 1, _ => None);
      NoneOccupied(n - 1);
    }
  }

  /** What `clear` removes: every session, or those already stopping. */
  predicate Cleared(slot: Option<Session>, all: bool) {
    slot.Some? && (all || slot.value.state == Stopping)
  }

  function Kept(slots: Slots, all: bool): (r: Slots)
    ensures |r| == |slots|
    ensures forall i :: 0 <= i < |slots| ==> r[i] == if Cleared(slots[i], all) then None else slots[i]
  {
    seq(|slots|, i requires 0 <= i < |slots| => if Cleared(slots[i], all) then None else slots[i])
  }

  /** Without `all` the running sessions stay where they are and the stopping ones go; with it, every session goes. */
  lemma KeptIs(slots: Slots, all: bool)
    ensures forall i :: 0 <= i < |slots| ==>
      match slots[i]
      case None => Kept(slots, all)[i] == None
      case Some(session) =>
        match session.state
        case Running => Kept(slots, all)[i] == if all then None else Some(session)
        case Stopping => Kept(slots, all)[i] == None
        case Stopped => Kept(slots, all)[i] == if all then None else Some(session)
  {
  }

  /** The platform callbacks strictly alternate, beginning with a start. */
  ghost predicate Alternating(callbacks: seq<Callback>) {
    forall i :: 0 <= i < |callbacks| ==> callbacks[i] == if i % 2 == 0 then WillStart else WillStop
  }

  // ---- The life of a session -------------------------------------------------------------------

  const FULL_LIFE := [Stopped, Running, Stopping]

  /** The states of a session that stands in this one. */
  function LifeUpTo(state: State): seq<State> {
    match state
    case Stopped => [Stopped]
    case Running => [Stopped, Running]
    case Stopping => FULL_LIFE
  }

  predicate Holds(slots: Slots, id: nat) {
    exists i :: 0 <= i < |slots| && slots[i].Some? && slots[i].value.id == id
  }

  /**
   `lives` has the states of each session so far, by id. They follow one another in order, the
   slots hold different sessions in the state they last came to, and all that are running.
   */
  ghost predicate Tracks(slots: Slots, lives: seq<seq<State>>) {
    && (forall id :: 0 <= id < |lives| ==> [] < lives[id] <= FULL_LIFE)
    && (forall i :: 0 <= i < |slots| && slots[i].Some? ==>
          slots[i].value.id < |lives| && lives[slots[i].value.id] == LifeUpTo(slots[i].value.state))
    && (forall i, j :: 0 <= i < j < |slots| && slots[i].Some? && slots[j].Some? ==>
          slots[i].value.id != slots[j].value.id)
    && (forall id :: 0 <= id < |lives| && lives[id] == [Stopped, Running] ==> Holds(slots, id))
  }

  ghost predicate Grown(before: seq<seq<State>>, after: seq<seq<State>>) {
    |before| <= |after| && forall id :: 0 <= id < |before| ==> before[id] <= after[id]
  }

  /** The clean-up has passed the first `n` slots of `was`; the sessions it removed have lived to the end. */
  ghost predicate Swept(was: Slots, slots: Slots, lives: seq<seq<State>>, all: bool, n: nat) {
    && n <= |was| == |slots|
    && slots[..n] == Kept(was[..n], all) && slots[n..] == was[n..]
    && forall k :: 0 <= k < n && Cleared(was[k], all) ==>
         was[k].value.id < |lives| && lives[was[k].value.id] == FULL_LIFE
  }

  lemma SweptNext(
    was: Slots, slots: Slots, slots': Slots, before: seq<seq<State>>, after: seq<seq<State>>, all: bool, n: nat)
    requires Swept(was, slots, before, all, n) && n < |was|
    requires slots' == if Cleared(slots[n], all) then slots[n := None] else slots
    requires Grown(before, after) && forall id :: 0 <= id < |after| ==> after[id] <= FULL_LIFE
    requires Cleared(slots[n], all) ==>
      slots[n].value.id < |after| && after[slots[n].value.id] == FULL_LIFE
    ensures Swept(was, slots', after, all, n + 1)
  {
    assert slots[n..][0] == was[n..][0];
    assert forall k :: 0 <= k < n ==> slots'[k] == slots[..n][k];
    assert slots'[n + 1..] == slots[n..][1..];
  }

  lemma SweptNone(slots: Slots, lives: seq<seq<State>>, all: bool)
    ensures Swept(slots, slots, lives, all, 0)
  {
  }

  lemma SweptAll(was: Slots, slots: Slots, lives: seq<seq<State>>, all: bool)
    requires Swept(was, slots, lives, all, |was|)
    ensures slots == Kept(was, all)
    ensures forall k :: 0 <= k < |was| && Cleared(was[k], all) ==>
      was[k].value.id < |lives| && lives[was[k].value.id] == FULL_LIFE
  {
    assert slots[..|was|] == slots && was[..|was|] == was;
  }

  lemma GrownOn(a: seq<seq<State>>, b: seq<seq<State>>, c: seq<seq<State>>)
    requires Grown(a, b) && Grown(b, c)
    ensures Grown(a, c)
  {
  }

  lemma GrownSame(a: seq<seq<State>>)
    ensures Grown(a, a)
  {
  }

  lemma GrownBy(a: seq<seq<State>>, b: seq<seq<State>>)
    ensures Grown(a, a + b)
  {
  }

  /** Whoever holds a slot goes on doing so. */
  lemma HeldStill(slots: Slots, slots': Slots, i: nat, x: nat)
    requires i < |slots| == |slots'| && slots[i].Some? && slots'[i].Some?
    requires slots'[i].value.id == slots[i].value.id && forall k :: 0 <= k < |slots| && k != i ==> slots'[k] == slots[k]
    ensures Holds(slots, x) || x == slots[i].value.id ==> Holds(slots', x)
  {
    assert slots'[i].value.id == slots[i].value.id;
    if Holds(slots, x) {
      var k :| 0 <= k < |slots| && slots[k].Some? && slots[k].value.id == x;
      assert slots'[k].Some? && slots'[k].value.id == x;
    }
  }

  /** A slot's session comes to its next state. */
  lemma TracksNext(slots: Slots, lives: seq<seq<State>>, i: nat, next: State)
    requires Tracks(slots, lives) && i < |slots| && slots[i].Some?
    requires LifeUpTo(next) == LifeUpTo(slots[i].value.state) + [next]
    ensures var id := slots[i].value.id;
      id < |lives| && Tracks(slots[i := Some(slots[i].value.(state := next))], lives[id := lives[id] + [next]])
  {
    hide Holds;
    var id := slots[i].value.id;
    var slots', lives' := slots[i := Some(slots[i].value.(state := next))], lives[id := lives[id] + [next]];
    assert lives'[id] == LifeUpTo(next) <= FULL_LIFE;
    forall x | 0 <= x < |lives'| && lives'[x] == [Stopped, Running]
      ensures Holds(slots', x)
    {
      HeldStill(slots, slots', i, x);
    }
  }

  /** A session that is not running leaves its slot. */
  lemma TracksLess(slots: Slots, lives: seq<seq<State>>, i: nat)
    requires Tracks(slots, lives) && i < |slots| && slots[i].Some? && slots[i].value.state != Running
    ensures Tracks(slots[i := None], lives)
  {
    var slots' := slots[i := None];
    forall x | 0 <= x < |lives| && lives[x] == [Stopped, Running]
      ensures Holds(slots', x)
    {
      var k :| 0 <= k < |slots| && slots[k].Some? && slots[k].value.id == x;
      assert slots'[k] == slots[k];
    }
  }

  /** A new session is on record, whether it takes a slot or not. */
  lemma TracksNew(slots: Slots, lives: seq<seq<State>>)
    requires Tracks(slots, lives)
    ensures Tracks(slots, lives + [[Stopped]])
  {
    var lives' := lives + [[Stopped]];
    assert forall x :: 0 <= x < |lives| ==> lives'[x] == lives[x];
    assert lives'[|lives|] == [Stopped];
  }

  lemma TracksPlaced(slots: Slots, lives: seq<seq<State>>, id: nat, k: nat)
    requires Tracks(slots, lives) && k < |slots| && slots[k] == None
    requires id < |lives| && lives[id] == [Stopped]
    requires forall i :: 0 <= i < |slots| && slots[i].Some? ==> slots[i].value.id != id
    ensures Tracks(slots[k := Some(Session(id, Stopped))], lives)
  {
    var slots' := slots[k := Some(Session(id, Stopped))];
    forall x | 0 <= x < |lives| && lives[x] == [Stopped, Running]
      ensures Holds(slots', x)
    {
      var i :| 0 <= i < |slots| && slots[i].Some? && slots[i].value.id == x;
      assert slots'[i] == slots[i];
    }
  }

  lemma SlotsTracked(slots: Slots, lives: seq<seq<State>>)
    requires Tracks(slots, lives)
    ensures forall i :: 0 <= i < |slots| && slots[i].Some? ==>
      slots[i].value.id < |lives| && lives[slots[i].value.id] == LifeUpTo(slots[i].value.state)
    ensures forall id :: 0 <= id < |lives| ==> lives[id] <= FULL_LIFE
  {
  }

  /** A new session takes a free slot, or none. */
  lemma TracksMore(slots: Slots, lives: seq<seq<State>>)
    requires Tracks(slots, lives)
    ensures Tracks(Placed(slots, Session(|lives|, Stopped)), lives + [[Stopped]])
  {
    hide Tracks, FirstFree;
    SlotsTracked(slots, lives);
    TracksNew(slots, lives);
    if FirstFree(slots) < |slots| {
      TracksPlaced(slots, lives + [[Stopped]], |lives|, FirstFree(slots));
    }
  }

  /** How many launches these outcomes have cost. */
  function CountLost(outcomes: seq<Outcome>): nat {
    if outcomes == [] then 0
    else
      var o := outcomes[|outcomes| - 1];
      CountLost(outcomes[..|outcomes| - 1]) + if o == Raised(true) || o == Replied(BadRequest) then 1 else 0
  }

  predicate Answers(e: Event, o: Outcome) {
    match o
    case Done => true
    case Checked(_) => e.Check?
    case Failed => e.Raise? && !e.argsOk
    case Raised(_) => e.Raise? && e.argsOk
    case Replied(reply) => e.Announced? && (reply == BadRequest ==> !e.valid)
  }

  // ---- What a run does to one session ------------------------------------------------------------

  /** A stop of this slot, a clean-up of everything, or a reply that cannot be sent, which causes one. */
  predicate Disturbs(e: Event, i: nat) {
    e == Stop(i) || (e.CleanUp? && e.all) || (e.Announced? && !e.sendOk)
  }

  /** What each event may do to the slots, `id` being that of the next session. */
  predicate Effect(e: Event, slots: Slots, id: nat, slots': Slots) {
    match e
    case Bound(_) => slots' == slots || slots == []
    case Check(_, _) => slots' == slots || slots' == Kept(slots, false)
    case Raise(_, _) => slots' == slots
    case Announced(_, _, sendOk, _) =>
      if sendOk then slots' == slots || slots' == Placed(slots, Session(id, Running))
      else |slots'| == |slots| && forall i :: 0 <= i < |slots| ==> slots'[i] == None
    case Stop(i) =>
      slots' == if i < |slots| && slots[i].Some? then slots[i := Some(slots[i].value.(state := Stopping))] else slots
    case CleanUp(all, _) => slots' == Kept(slots, all)
  }

  /** What that means for the sessions that were there. */
  ghost predicate Moves(e: Event, slots: Slots, lives: seq<seq<State>>, slots': Slots, lives': seq<seq<State>>) {
    && Tracks(slots, lives) && Tracks(slots', lives') && Grown(lives, lives')
    && (forall i :: 0 <= i < |slots| && slots[i].Some? && slots[i].value.state == Running && !Disturbs(e, i) ==>
          i < |slots'| && slots'[i] == slots[i])
    && (forall i :: 0 <= i < |slots| && slots[i].Some? && Disturbs(e, i) ==>
          slots[i].value.id < |lives'| && lives'[slots[i].value.id] == FULL_LIFE)
    && (e.CleanUp? ==> forall i :: 0 <= i < |slots'| && slots'[i].Some? ==> slots'[i].value.state == Running)
    && (forall id :: 0 <= id < |lives| && !Holds(slots, id) ==> !Holds(slots', id))
  }

  lemma EffectHolds(e: Event, slots: Slots, next: nat, slots': Slots, id: nat)
    requires Effect(e, slots, next, slots') && !Holds(slots, id) && id < next && !e.Bound?
    ensures !Holds(slots', id)
  {
    forall i | 0 <= i < |slots'| && slots'[i].Some?
      ensures slots'[i].value.id != id
    {
      assert i < |slots| && (slots[i].Some? ==> slots[i].value.id != id);
    }
  }

  lemma EffectKeeps(e: Event, slots: Slots, next: nat, slots': Slots, i: nat)
    requires Effect(e, slots, next, slots') && !Disturbs(e, i) && i < |slots|
    requires slots[i].Some? && slots[i].value.state == Running
    ensures i < |slots'| && slots'[i] == slots[i]
  {
    KeptIs(slots, false);
  }

  lemma StoppedLife(slots': Slots, lives': seq<seq<State>>, i: nat)
    requires Tracks(slots', lives') && i < |slots'| && slots'[i].Some? && slots'[i].value.state == Stopping
    ensures slots'[i].value.id < |lives'| && lives'[slots'[i].value.id] == FULL_LIFE
  {
  }

  lemma StopEffect(e: Event, slots: Slots, next: nat, slots': Slots, i: nat)
    requires Effect(e, slots, next, slots') && e.Stop? && Disturbs(e, i) && i < |slots| && slots[i].Some?
    ensures i < |slots'| && slots'[i] == Some(slots[i].value.(state := Stopping))
  {
  }

  lemma NoneHolds(slots: Slots, slots': Slots, id: nat)
    requires !Holds(slots, id) && (slots' == slots || forall i :: 0 <= i < |slots'| ==> slots'[i] == None)
    ensures !Holds(slots', id)
  {
  }

  lemma EffectMoves(e: Event, slots: Slots, lives: seq<seq<State>>, slots': Slots, lives': seq<seq<State>>)
    requires Tracks(slots, lives) && Tracks(slots', lives') && Grown(lives, lives')
    requires Effect(e, slots, |lives|, slots')
    requires !e.Stop? ==> forall i :: 0 <= i < |slots| && slots[i].Some? && Disturbs(e, i) ==>
      slots[i].value.id < |lives'| && lives'[slots[i].value.id] == FULL_LIFE
    requires e.CleanUp? ==> forall i :: 0 <= i < |slots'| && slots'[i].Some? ==> slots'[i].value.state == Running
    requires e.Bound? ==> slots' == slots || forall i :: 0 <= i < |slots'| ==> slots'[i] == None
    ensures Moves(e, slots, lives, slots', lives')
  {
    hide Tracks, Grown, Effect, Disturbs, Holds;
    forall i | 0 <= i < |slots| && slots[i].Some? && slots[i].value.state == Running && !Disturbs(e, i)
      ensures i < |slots'| && slots'[i] == slots[i]
    {
      EffectKeeps(e, slots, |lives|, slots', i);
    }
    forall i | 0 <= i < |slots| && slots[i].Some? && Disturbs(e, i)
      ensures slots[i].value.id < |lives'| && lives'[slots[i].value.id] == FULL_LIFE
    {
      if e.Stop? {
        StopEffect(e, slots, |lives|, slots', i);
        StoppedLife(slots', lives', i);
      }
    }
    forall id | 0 <= id < |lives| && !Holds(slots, id)
      ensures !Holds(slots', id)
    {
      if e.Bound? {
        NoneHolds(slots, slots', id);
      } else {
        EffectHolds(e, slots, |lives|, slots', id);
      }
    }
  }

  datatype Picture = Picture(slots: Slots, lives: seq<seq<State>>)

  /** The slots before and after each event of a run. */
  ghost predicate Story(h: seq<Picture>, events: seq<Event>) {
    && |h| == |events| + 1
    && forall n :: 0 <= n < |events| ==> Moves(events[n], h[n].slots, h[n].lives, h[n + 1].slots, h[n + 1].lives)
  }

  ghost predicate RunsIn(pic: Picture, i: nat) {
    i < |pic.slots| && pic.slots[i].Some? && pic.slots[i].value.state == Running
  }

  /** Undisturbed, a running session stays where it is. */
  lemma {:induction false} Undisturbed(h: seq<Picture>, events: seq<Event>, i: nat, n: nat)
    requires Story(h, events) && RunsIn(h[0], i) && n <= |events|
    requires forall k :: 0 <= k < n ==> !Disturbs(events[k], i)
    ensures i < |h[n].slots| && h[n].slots[i] == h[0].slots[i]
    decreases n
  {
    hide Disturbs, Tracks, Grown, Holds;
    if n > 0 {
      Undisturbed(h, events, i, n - 1);
      assert Moves(events[n - 1], h[n - 1].slots, h[n - 1].lives, h[n - 1 + 1].slots, h[n - 1 + 1].lives);
    }
  }

  /** The first event that disturbs a session ends its life. */
  lemma {:induction false} Disturbed(h: seq<Picture>, events: seq<Event>, i: nat, a: nat, n: nat)
    requires Story(h, events) && RunsIn(h[0], i) && a < n <= |events|
    requires (forall k :: 0 <= k < a ==> !Disturbs(events[k], i)) && Disturbs(events[a], i)
    ensures var id := h[0].slots[i].value.id; id < |h[n].lives| && h[n].lives[id] == FULL_LIFE
    decreases n
  {
    hide Disturbs, Holds;
    if n == a + 1 {
      Undisturbed(h, events, i, a);
      assert Moves(events[a], h[a].slots, h[a].lives, h[a + 1].slots, h[a + 1].lives);
    } else {
      Disturbed(h, events, i, a, n - 1);
      assert Moves(events[n - 1], h[n - 1].slots, h[n - 1].lives, h[n - 1 + 1].slots, h[n - 1 + 1].lives);
    }
  }

  /** A session whose life is over is in no slot when only running ones are left. */
  lemma OverIsOut(pic: Picture, id: nat)
    requires Tracks(pic.slots, pic.lives) && id < |pic.lives| && pic.lives[id] == FULL_LIFE
    requires forall i :: 0 <= i < |pic.slots| && pic.slots[i].Some? ==> pic.slots[i].value.state == Running
    ensures !Holds(pic.slots, id)
  {
  }

  /** After the next clean-up it is out of its slot, and stays out. */
  lemma {:induction false} Gone(h: seq<Picture>, events: seq<Event>, i: nat, a: nat, b: nat, n: nat)
    requires Story(h, events) && RunsIn(h[0], i) && a < b < n <= |events| && events[b].CleanUp?
    requires (forall k :: 0 <= k < a ==> !Disturbs(events[k], i)) && Disturbs(events[a], i)
    ensures !Holds(h[n].slots, h[0].slots[i].value.id)
    decreases n
  {
    hide Disturbs, Holds, Tracks, Grown;
    var id := h[0].slots[i].value.id;
    Disturbed(h, events, i, a, n);
    if n == b + 1 {
      assert Moves(events[b], h[b].slots, h[b].lives, h[b + 1].slots, h[b + 1].lives);
      OverIsOut(h[n], id);
    } else {
      Gone(h, events, i, a, b, n - 1);
      Disturbed(h, events, i, a, n - 1);
      assert Moves(events[n - 1], h[n - 1].slots, h[n - 1].lives, h[n - 1 + 1].slots, h[n - 1 + 1].lives);
    }
  }

  lemma {:induction false} FirstDisturbs(events: seq<Event>, i: nat, a: nat) returns (f: nat)
    requires a < |events| && Disturbs(events[a], i)
    ensures f <= a && Disturbs(events[f], i) && forall k :: 0 <= k < f ==> !Disturbs(events[k], i)
    decreases a
  {
    if k :| 0 <= k < a && Disturbs(events[k], i) {
      f := FirstDisturbs(events, i, k);
    } else {
      f := a;
    }
  }

  /**
   What a run makes of a session running in slot `i`: undisturbed it is still there and running;
   disturbed before a clean-up it is in no slot any more.
   */
  ghost predicate Fate(first: Picture, last: Picture, events: seq<Event>, i: nat)
    requires RunsIn(first, i)
  {
    var session := first.slots[i].value;
    && ((forall n :: 0 <= n < |events| ==> !Disturbs(events[n], i)) ==>
          && i < |last.slots| && last.slots[i] == Some(session)
          && session.id < |last.lives| && last.lives[session.id] == [Stopped, Running])
    && (forall a, b :: 0 <= a < b < |events| && Disturbs(events[a], i) && events[b].CleanUp? ==>
          !Holds(last.slots, session.id))
  }

  lemma SessionFate(h: seq<Picture>, events: seq<Event>, i: nat)
    requires Story(h, events) && RunsIn(h[0], i) && Tracks(h[|events|].slots, h[|events|].lives)
    ensures Fate(h[0], h[|events|], events, i)
  {
    hide Disturbs, Holds;
    var last := h[|events|];
    if forall n :: 0 <= n < |events| ==> !Disturbs(events[n], i) {
      Undisturbed(h, events, i, |events|);
    }
    forall a, b | 0 <= a < b < |events| && Disturbs(events[a], i) && events[b].CleanUp?
      ensures !Holds(last.slots, h[0].slots[i].value.id)
    {
      var f := FirstDisturbs(events, i, a);
      Gone(h, events, i, f, b, |events|);
    }
  }

  lemma AllFates(h: seq<Picture>, events: seq<Event>)
    requires Story(h, events) && Tracks(h[|events|].slots, h[|events|].lives)
    ensures forall i: nat :: RunsIn(h[0], i) ==> Fate(h[0], h[|events|], events, i)
  {
    hide Tracks, Fate, Moves;
    forall i: nat | RunsIn(h[0], i)
      ensures Fate(h[0], h[|events|], events, i)
    {
      SessionFate(h, events, i);
    }
  }

  lemma StoryNext(h: seq<Picture>, events: seq<Event>, n: nat, pic: Picture)
    requires n < |events| && Story(h, events[..n])
    requires Moves(events[n], h[n].slots, h[n].lives, pic.slots, pic.lives)
    ensures Story(h + [pic], events[..n + 1])
  {
    hide Moves;
    assert forall k :: 0 <= k < n ==> events[..n + 1][k] == events[..n][k];
  }

  // ---- The server -------------------------------------------------------------------------------

  class Server {
    var slots: Slots
    var slotCount: int
    var pending: bool              // a launch event is raised
    var raisedTimeout: int
    var initing: bool
    var gateOpen: bool             // a client action has passed its checks and not yet raised
    var nextId: nat                // of the next session to be allocated
    var runningSessions: int       // of the stream module, as are the callbacks made so far
    var callbacks: seq<Callback>
    ghost var lost: nat            // launches that were neither served nor discarded
    ghost var lives: seq<seq<State>>

    /** The conservation law, with `inHand` launches popped, and the session module's side of it. */
    ghost predicate Accounted(inHand: nat)
      reads this
    {
      && slotCount + Occupied(slots) + (if pending then 1 else 0) + inHand + lost == |slots|
      && runningSessions == Occupied(slots)
      && (forall i :: 0 <= i < |slots| && slots[i].Some? ==> slots[i].value.state != Stopped)
      && Alternating(callbacks)
      && (runningSessions > 0 <==> |callbacks| % 2 == 1)
      && |lives| == nextId && Tracks(slots, lives)
    }

    ghost predicate Balanced()
      reads this
    {
      Accounted(0)
    }

    /** What the launch and resume checks add: a slot is left for whoever passed them. */
    ghost predicate Gated()
      reads this
    {
      && Balanced()
      && 0 <= slotCount
      && (gateOpen ==> 0 < slotCount)
      && (initing ==> !gateOpen && !pending && slots == [])
    }

    constructor ()
      ensures Gated() && initing && lost == 0 && nextId == 0
    {
      slots, slotCount, pending, raisedTimeout := [], 0, false, 0;
      initing, gateOpen := true, false;
      nextId, runningSessions, callbacks, lost, lives := 0, 0, [], 0, [];
    }

    method Bind(channels: nat)
      requires Gated() && initing
      modifies this`slots, this`slotCount, this`initing
      ensures Gated() && !initing && slots == seq(channels, _ => None) && slotCount == channels && lost == 0
    {
      NoneOccupied(channels);
      assert forall id :: 0 <= id < |lives| ==> !Holds(slots, id);
      slots := seq(channels, _ => None);
      slotCount := channels;
      initing := false;
    }

    /** A launch that is still pending and not timed out is not overwritten. */
    method SessionRaise(now: int)
      requires Balanced()
      modifies this`slotCount, this`pending, this`raisedTimeout, this`lost
      ensures Balanced()
      ensures pending
      ensures raisedTimeout == if old(raisedTimeout > now && pending) then old(raisedTimeout) else now + LAUNCH_TIMEOUT
      ensures slotCount == old(slotCount) - if old(raisedTimeout > now && pending) then 0 else 1
      ensures lost == old(lost) + if old(pending && raisedTimeout <= now) then 1 else 0
    {
      if raisedTimeout > now && pending {
        return;
      }
      if pending {
        lost := lost + 1;
      }
      raisedTimeout := now + LAUNCH_TIMEOUT;
      slotCount := slotCount - 1;
      pending := true;
    }

    /** `session::stop`: only a running session starts stopping. */
    method StopSession(i: nat)
      requires Balanced() && i < |slots| && slots[i].Some?
      modifies this`slots, this`lives
      ensures Balanced() && |slots| == |old(slots)| && Occupied(slots) == old(Occupied(slots))
      ensures slots == old(slots)[i := Some(old(slots[i].value).(state := Stopping))]
      ensures Grown(old(lives), lives) && |lives| == |old(lives)|
    {
      hide Tracks, Occupied, Alternating;
      OccupiedUpdate(slots, i, Some(slots[i].value.(state := Stopping)));
      if slots[i].value.state == Running {
        ghost var id := slots[i].value.id;
        TracksNext(slots, lives, i, Stopping);
        lives := lives[id := lives[id] + [Stopping]];
        slots := slots[i := Some(slots[i].value.(state := Stopping))];
      }
    }

    /** The end of `session::join`. */
    method JoinSession()
      requires runningSessions > 0 && Alternating(callbacks) && |callbacks| % 2 == 1
      modifies this`runningSessions, this`callbacks
      ensures runningSessions == old(runningSessions) - 1 && Alternating(callbacks)
      ensures callbacks == old(callbacks) + if runningSessions == 0 then [WillStop] else []
    {
      runningSessions := runningSessions - 1;
      if runningSessions == 0 {
        callbacks := callbacks + [WillStop];
      }
    }

    lemma LivesInOrder()
      requires Balanced()
      ensures |lives| == nextId && forall id :: 0 <= id < |lives| ==> lives[id] <= FULL_LIFE
    {
      SlotsTracked(slots, lives);
    }

    /** A launch event that has timed out is removed and its slot given back. */
    method DiscardTimedOut(now: int)
      requires Balanced()
      modifies this`slotCount, this`pending
      ensures Balanced() && old(slotCount) <= slotCount
      ensures pending == old(pending && raisedTimeout >= now)
    {
      if raisedTimeout < now {
        if pending {
          pending := false;
          slotCount := slotCount + 1;
        }
      }
    }

    /** What `clear` does to a session it removes: stop, join, reset, and the slot is given back. */
    method EndSession(i: nat)
      requires Balanced() && i < |slots| && slots[i].Some?
      modifies this`slots, this`slotCount, this`runningSessions, this`callbacks, this`lives
      ensures Balanced() && slots == old(slots)[i := None] && slotCount == old(slotCount) + 1
      ensures 0 <= runningSessions == old(runningSessions) - 1
      ensures callbacks == old(callbacks) + if runningSessions == 0 then [WillStop] else []
      ensures Grown(old(lives), lives) && |lives| == |old(lives)|
      ensures old(slots[i].value.id) < |lives| && lives[old(slots[i].value.id)] == FULL_LIFE
    {
      hide Occupied, Alternating, Tracks;
      StopSession(i);
      SlotsTracked(slots, lives);
      OccupiedUpdate(slots, i, None);
      TracksLess(slots, lives, i);
      JoinSession();
      slots := slots[i := None];
      slotCount := slotCount + 1;
    }

    lemma RunningLives()
      requires Balanced()
      ensures forall i :: 0 <= i < |slots| && slots[i].Some? ==>
        && slots[i].value.id < |lives| && slots[i].value.state != Stopped
        && lives[slots[i].value.id] == LifeUpTo(slots[i].value.state)
    {
      SlotsTracked(slots, lives);
    }

    method Clear(all: bool, now: int)
      requires Balanced()
      modifies this`slots, this`slotCount, this`pending, this`runningSessions, this`callbacks, this`lives
      ensures Balanced() && slots == Kept(old(slots), all)
      ensures forall i :: 0 <= i < |slots| && old(slots)[i].Some? && old(slots)[i].value.state == Running && !all ==>
        slots[i] == old(slots)[i] && lives[slots[i].value.id] == [Stopped, Running]
      ensures forall i :: 0 <= i < |slots| && slots[i].Some? ==> !all && slots[i].value.state == Running
      ensures pending == old(pending && raisedTimeout >= now)
      ensures old(slotCount) <= slotCount
      ensures callbacks == old(callbacks) + if old(runningSessions) > 0 && runningSessions == 0 then [WillStop] else []
      ensures Grown(old(lives), lives) && |lives| == |old(lives)|
      ensures forall i :: 0 <= i < |slots| && old(slots)[i].Some? && (all || old(slots)[i].value.state == Stopping) ==>
        old(slots)[i].value.id < |lives| && lives[old(slots)[i].value.id] == [Stopped, Running, Stopping]
    {
      hide Balanced, Occupied, Alternating, Tracks, Swept, Grown, Kept;
      GrownSame(lives);
      SweptNone(slots, lives, all);
      DiscardTimedOut(now);
      for i := 0 to |slots|
        invariant Balanced() && |slots| == |old(slots)| && old(slotCount) <= slotCount
        invariant runningSessions <= old(runningSessions)
        invariant pending == old(pending && raisedTimeout >= now)
        invariant Swept(old(slots), slots, lives, all, i)
        invariant callbacks ==
          old(callbacks) + if old(runningSessions) > 0 && runningSessions == 0 then [WillStop] else []
        invariant Grown(old(lives), lives) && |lives| == |old(lives)|
      {
        ghost var was, before := slots, lives;
        if slots[i].Some? && (all || slots[i].value.state == Stopping) {
          EndSession(i);
        } else {
          GrownSame(lives);
        }
        LivesInOrder();
        GrownOn(old(lives), before, lives);
        SweptNext(old(slots), was, slots, before, lives, all, i);
      }
      SweptAll(old(slots), slots, lives, all);
      KeptIs(old(slots), all);
      RunningLives();
    }

    /** The overload that gives one slot back. */
    method ClearSlot(i: nat)
      requires i < |slots|
      modifies this`slots, this`slotCount
      ensures slots == old(slots)[i := None] && slotCount == old(slotCount) + 1
    {
      slots := slots[i := None];
      slotCount := slotCount + 1;
    }

    method Accept(session: Session) returns (slot: Option<nat>)
      modifies this`slots
      ensures slots == Placed(old(slots), session)
      ensures var k := FirstFree(old(slots)); slot == if k == |old(slots)| then None else Some(k)
    {
      for i := 0 to |slots|
        invariant slots == old(slots) && i <= FirstFree(slots)
      {
        if slots[i] == None {
          slots := slots[i := Some(session)];
          return Some(i);
        }
      }
      return None;
    }

    /** The end of `session::start` when it succeeds. */
    method StartSession(i: nat)
      requires i < |slots| && slots[i].Some? && slots[i].value.state == Stopped && Tracks(slots, lives)
      requires 0 <= runningSessions && (runningSessions > 0 <==> |callbacks| % 2 == 1) && Alternating(callbacks)
      modifies this`slots, this`runningSessions, this`callbacks, this`lives
      ensures slots == old(slots)[i := Some(old(slots[i].value).(state := Running))]
      ensures Tracks(slots, lives) && lives == old(lives)[old(slots[i].value.id) := [Stopped, Running]]
      ensures runningSessions == old(runningSessions) + 1 && Alternating(callbacks) && |callbacks| % 2 == 1
      ensures callbacks == old(callbacks) + if runningSessions == 1 then [WillStart] else []
    {
      ghost var id := slots[i].value.id;
      TracksNext(slots, lives, i, Running);
      lives := lives[id := lives[id] + [Running]];
      slots := slots[i := Some(slots[i].value.(state := Running))];
      runningSessions := runningSessions + 1;
      if runningSessions == 1 {
        callbacks := callbacks + [WillStart];
      }
    }

    /** `respond`: a send that fails clears all sessions. */
    method Respond(sendOk: bool, now: int)
      requires Balanced()
      modifies this`slots, this`slotCount, this`pending, this`runningSessions, this`callbacks, this`lives
      ensures Balanced() && old(slotCount) <= slotCount && |slots| == |old(slots)|
      ensures Grown(old(lives), lives) && |lives| == |old(lives)|
      ensures sendOk ==> lives == old(lives)
      ensures sendOk ==> slots == old(slots) && pending == old(pending) && callbacks == old(callbacks)
      ensures !sendOk ==> slots == Kept(old(slots), true)
      ensures !sendOk ==> forall i :: 0 <= i < |old(slots)| && old(slots)[i].Some? ==>
        old(slots)[i].value.id < |lives| && lives[old(slots)[i].value.id] == FULL_LIFE
    {
      if !sendOk {
        Clear(true, now);
      }
    }

    /** The half of `cmd_announce` behind the checks: a session is allocated, takes a slot and is started. */
    method Admit(startOk: bool) returns (reply: Reply)
      requires Accounted(1) && !pending
      modifies this`slots, this`slotCount, this`nextId, this`runningSessions, this`callbacks, this`lost, this`lives
      ensures Balanced() && old(slotCount) <= slotCount
      ensures reply == if old(Occupied(slots) == |slots|) then OutOfSlots
                       else if !startOk then StartFailed else Streaming
      ensures lost == old(lost) + if reply == OutOfSlots then 1 else 0
      ensures slots == if reply == Streaming then Placed(old(slots), Session(old(nextId), Running)) else old(slots)
      ensures nextId == old(nextId) + 1
      ensures lives == old(lives) + [if reply == Streaming then [Stopped, Running] else [Stopped]]
      ensures callbacks == old(callbacks) + if reply == Streaming && old(runningSessions) == 0 then [WillStart] else []
    {
      hide Occupied, FirstFree, Alternating, Tracks;
      FullIff(slots);
      var id := nextId;
      TracksMore(slots, lives);
      var slot := Accept(Session(id, Stopped));
      nextId := nextId + 1;
      lives := lives + [[Stopped]];
      if slot == None {
        lost := lost + 1;
        return OutOfSlots;
      }
      var i := slot.value;
      OccupiedUpdate(old(slots), i, Some(Session(id, Running)));
      if !startOk {
        TracksLess(slots, lives, i);
        ClearSlot(i);
        assert slots == old(slots);
        return StartFailed;
      }
      StartSession(i);
      assert slots == old(slots)[i := Some(Session(id, Running))];
      assert lives == old(lives) + [[Stopped, Running]];
      return Streaming;
    }

    /**
     `cmd_announce`: the launch is popped first; whatever fails before a slot is taken loses it.
     The request is `valid` when its parameters parse and its video format is allowed.
     */
    method Announce(valid: bool, startOk: bool, sendOk: bool, now: int) returns (reply: Reply)
      requires Balanced()
      modifies this`slots, this`slotCount, this`pending, this`nextId, this`runningSessions, this`callbacks
      modifies this`lost, this`lives
      ensures Balanced() && old(slotCount) <= slotCount && |slots| == |old(slots)|
      ensures reply == if !old(pending) then NotLaunched
                       else if !valid then BadRequest
                       else if old(Occupied(slots) == |slots|) then OutOfSlots
                       else if !startOk then StartFailed else Streaming
      ensures lost == old(lost) + if reply == BadRequest || reply == OutOfSlots then 1 else 0
      ensures old(0 <= slotCount) ==> reply != OutOfSlots
      ensures sendOk ==> slots == if reply == Streaming then Placed(old(slots), Session(old(nextId), Running))
                                  else old(slots)
      ensures nextId == old(nextId) + if reply == NotLaunched || reply == BadRequest then 0 else 1
      ensures Grown(old(lives), lives)
      ensures sendOk ==> lives == old(lives) + match reply
                                               case NotLaunched => []
                                               case BadRequest => []
                                               case OutOfSlots => [[Stopped]]
                                               case StartFailed => [[Stopped]]
                                               case Streaming => [[Stopped, Running]]
      ensures sendOk ==> !pending
      ensures sendOk ==>
        callbacks == old(callbacks) + if reply == Streaming && old(runningSessions) == 0 then [WillStart] else []
      ensures !sendOk ==> forall i :: 0 <= i < |slots| ==> slots[i] == None
      ensures !sendOk ==> forall i :: 0 <= i < |old(slots)| && old(slots)[i].Some? ==>
        old(slots)[i].value.id < |lives| && lives[old(slots)[i].value.id] == FULL_LIFE
    {
      hide Occupied, FirstFree, Alternating, Tracks, Grown;
      assert lives + [] == lives;
      GrownSame(lives);
      if !pending {
        Respond(sendOk, now);
        return NotLaunched;
      }
      pending := false;
      if !valid {
        lost := lost + 1;
        Respond(sendOk, now);
        return BadRequest;
      }
      reply := Admit(startOk);
      ghost var admitted := lives;
      GrownBy(old(lives), [if reply == Streaming then [Stopped, Running] else [Stopped]]);
      Respond(sendOk, now);
      GrownOn(old(lives), admitted, lives);
    }

    /** `checkLaunchArgs` and `checkResumeArgs`, up to the decision to raise a session. */
    method CheckAction(action: Action, now: int) returns (code: int)
      requires Gated() && !gateOpen
      modifies this`slots, this`slotCount, this`pending, this`runningSessions, this`callbacks, this`gateOpen, this`lives
      ensures Gated() && old(slotCount) <= slotCount && gateOpen == (code == 0)
      ensures Grown(old(lives), lives)
      ensures slots == (if initing then old(slots) else Kept(old(slots), false))
      ensures pending == old(pending && (initing || raisedTimeout >= now))
      ensures callbacks == old(callbacks) + if old(runningSessions) > 0 && runningSessions == 0 then [WillStop] else []
      ensures initing ==> code == 601
      ensures !initing && slotCount == 0 ==> code == 503
      ensures !initing && slotCount != 0 ==> code == match action
                case Launch(appRunning, executeError) => if appRunning then 400 else executeError
                case Resume(appRunning) => if appRunning then 0 else 503
    {
      if initing {
        return 601;
      }
      Clear(false, now);
      if |slots| - slotCount == |slots| {
        return 503;
      }
      match action {
        case Launch(appRunning, executeError) =>
          code := if appRunning then 400 else executeError;
        case Resume(appRunning) =>
          code := if appRunning then 0 else 503;
      }
      gateOpen := code == 0;
    }

    /**
     `RunSession`, possibly after other threads have taken steps. A missing argument throws
     before the launch is raised; either way the next client action may begin.
     */
    method RunSession(argsOk: bool, now: int) returns (o: Outcome)
      requires Gated() && gateOpen
      modifies this`slotCount, this`pending, this`raisedTimeout, this`lost, this`gateOpen
      ensures Gated() && !gateOpen && pending == (argsOk || old(pending))
      ensures o == if argsOk then Raised(old(pending && raisedTimeout <= now)) else Failed
      ensures lost == old(lost) + if o == Raised(true) then 1 else 0
      ensures slotCount == old(slotCount) - if argsOk && !old(raisedTimeout > now && pending) then 1 else 0
      ensures raisedTimeout ==
        if !argsOk || old(raisedTimeout > now && pending) then old(raisedTimeout) else now + LAUNCH_TIMEOUT
    {
      gateOpen := false;
      if !argsOk {
        return Failed;
      }
      o := Raised(pending && raisedTimeout <= now);
      SessionRaise(now);
    }

    // ---- Runs -----------------------------------------------------------------------------------

    /** One step of the client-action thread, the RTSP thread or a thread that stops sessions: what it does. */
    method Dispatch(e: Event) returns (o: Outcome)
      requires Gated()
      modifies this
      ensures Gated() && Grown(old(lives), lives)
      ensures Answers(e, o) && o != Replied(OutOfSlots)
      ensures lost == old(lost) + if o == Raised(true) || o == Replied(BadRequest) then 1 else 0
      ensures o == Raised(true) ==> e.Raise? && old(pending && raisedTimeout <= e.now)
      ensures old(!initing) ==> !initing && |slots| == |old(slots)|
      ensures old(!initing && lost == |slots|) && o.Checked? ==> o.code == 503
      ensures o.Done? <==> match e
                           case Bound(_) => true
                           case Check(_, _) => old(gateOpen)
                           case Raise(_, _) => !old(gateOpen)
                           case Announced(_, _, _, _) => old(initing)
                           case Stop(_) => true
                           case CleanUp(_, _) => true
      ensures o.Replied? ==> o.reply == if !old(pending) then NotLaunched else if !e.valid then BadRequest
                                        else if !e.startOk then StartFailed else Streaming
      ensures o == Replied(Streaming) && e.sendOk ==> slots == Placed(old(slots), Session(old(nextId), Running))
      ensures o.Replied? && e.sendOk && o.reply != Streaming ==> slots == old(slots)
      ensures o.Done? && (e.Check? || e.Raise? || e.Announced?) ==> slots == old(slots) && pending == old(pending)
      ensures e.Bound? ==> slots == if old(initing) then seq(e.channels, _ => None) else old(slots)
      ensures Effect(e, old(slots), old(|lives|), slots)
      ensures !e.Stop? ==> forall i :: 0 <= i < |old(slots)| && old(slots)[i].Some? && Disturbs(e, i) ==>
        old(slots)[i].value.id < |lives| && lives[old(slots)[i].value.id] == FULL_LIFE
      ensures e.CleanUp? ==> forall i :: 0 <= i < |slots| && slots[i].Some? ==> slots[i].value.state == Running
    {
      hide Tracks, Occupied, Alternating, Grown, Placed, Kept, FirstFree;
      GrownSame(lives);
      o := Done;
      match e {
        case Bound(channels) =>
          if initing {
            Bind(channels);
          }
        case Check(action, now) =>
          if !gateOpen {
            var code := CheckAction(action, now);
            o := Checked(code);
          }
        case Raise(argsOk, now) =>
          if gateOpen {
            o := RunSession(argsOk, now);
          }
        case Announced(valid, startOk, sendOk, now) =>
          if !initing {
            var reply := Announce(valid, startOk, sendOk, now);
            o := Replied(reply);
          }
        case Stop(i) =>
          if i < |slots| && slots[i].Some? {
            StopSession(i);
          }
        case CleanUp(all, now) => Clear(all, now);
      }
    }

    /** The same, and what it means for the sessions that were there. */
    method Step(e: Event) returns (o: Outcome)
      requires Gated()
      modifies this
      ensures Gated() && Grown(old(lives), lives)
      ensures Answers(e, o) && o != Replied(OutOfSlots)
      ensures lost == old(lost) + if o == Raised(true) || o == Replied(BadRequest) then 1 else 0
      ensures old(!initing) ==> !initing && |slots| == |old(slots)|
      ensures old(!initing && lost == |slots|) && o.Checked? ==> o.code == 503
      ensures Moves(e, old(slots), old(lives), slots, lives)
    {
      hide Tracks, Occupied, Alternating, Grown, Moves, Effect, Disturbs, Answers;
      o := Dispatch(e);
      EffectMoves(e, old(slots), old(lives), slots, lives);
    }

    /**
     Any interleaving of such steps. The counter never goes negative and no announce runs out of
     slots. Every launch lost was overwritten after its timeout or answered with a bad request,
     and is missing from the slots ever after: when all are, no client action passes its checks
     again. Every session goes from stopped to running to stopping and never back. A running session
     that nothing disturbs keeps its slot and runs on; one that is disturbed, above all stopped, is
     out of its slot after the next clean-up.
     */
    method Serve(events: seq<Event>) returns (outcomes: seq<Outcome>)
      requires Gated()
      modifies this
      ensures Gated() && Replied(OutOfSlots) !in outcomes
      ensures |outcomes| == |events| && forall n :: 0 <= n < |events| ==> Answers(events[n], outcomes[n])
      ensures lost == old(lost) + CountLost(outcomes) && Occupied(slots) + lost <= |slots|
      ensures old(!initing && lost == |slots|) ==> forall o :: o in outcomes && o.Checked? ==> o.code == 503
      ensures Grown(old(lives), lives)
      ensures var first, last := Picture(old(slots), old(lives)), Picture(slots, lives);
        forall i: nat :: RunsIn(first, i) ==> Fate(first, last, events, i)
    {
      hide Tracks, Occupied, Alternating, Grown, Moves, Fate;
      GrownSame(lives);
      outcomes := [];
      ghost var h := [Picture(slots, lives)];
      for n := 0 to |events|
        invariant Gated() && Replied(OutOfSlots) !in outcomes && Grown(old(lives), lives)
        invariant |outcomes| == n && forall k :: 0 <= k < n ==> Answers(events[k], outcomes[k])
        invariant lost == old(lost) + CountLost(outcomes)
        invariant old(!initing) ==> !initing && |slots| == |old(slots)|
        invariant old(!initing && lost == |slots|) ==> forall o :: o in outcomes && o.Checked? ==> o.code == 503
        invariant Story(h, events[..n]) && h[0] == Picture(old(slots), old(lives)) && h[n] == Picture(slots, lives)
      {
        ghost var before := lives;
        assert lost + Occupied(slots) <= |slots|;
        var o := Step(events[n]);
        GrownOn(old(lives), before, lives);
        assert (outcomes + [o])[..n] == outcomes;
        outcomes := outcomes + [o];
        StoryNext(h, events, n, Picture(slots, lives));
        h := h + [Picture(slots, lives)];
      }
      assert events[..|events|] == events;
      AllFates(h, events);
    }
  }

  // ---- Runs in which a launch is lost ----------------------------------------------------------

  /**
   One channel, a launch, a bad request: all slots are free, and every later client action is
   turned away.
   */
  method BadRequestLosesSlot(later: Action, now: int) returns (s: Server, code: int)
    ensures s.Balanced() && s.lost == 1 && s.slots == [None] && !s.pending && code == 503
  {
    hide Occupied, Tracks, Alternating, Grown;
    s := new Server();
    s.Bind(1);
    code := s.CheckAction(Resume(true), 0);
    var raised := s.RunSession(true, 0);
    var reply := s.Announce(false, true, true, 1);
    assert s.slots == [None];
    code := s.CheckAction(later, now);
  }

  /** A second launch at the moment the first one times out takes its place and a slot of its own. */
  method OverwrittenAtTimeout() returns (s: Server, o: Outcome)
    ensures s.Balanced() && s.lost == 1 && s.slotCount == 0 && s.pending && o == Raised(true)
  {
    hide Tracks, Alternating, Grown;
    s := new Server();
    s.Bind(2);
    var code := s.CheckAction(Resume(true), 0);
    var first := s.RunSession(true, 0);
    code := s.CheckAction(Resume(true), LAUNCH_TIMEOUT);
    o := s.RunSession(true, LAUNCH_TIMEOUT);
  }
}
