/**
 The audio sender: every payload is copied into the shard slot its 16-bit sequence number
 selects, and at the end of each block of `n` packets parity is computed over the slots.

 Each send may fail with an exception, which skips the rest of that packet's bookkeeping.
 */
module AudioSender {
  import opened Counting
  import opened Packetizer

  const SEQUENCE_SPACE := 0x1_0000

  /** What parity is computed over, the block it claims to belong to, and the numbers it is sent under. */
  datatype Group = Group(baseSequence: nat, baseTimestamp: nat, shards: seq<seq<Byte>>, numbers: seq<nat>)

  // ---- The slots ---------------------------------------------------------------------------

  /** `copy_n` overwrites the front of a slot and leaves the rest. */
  function Filled(slots: seq<seq<Byte>>, i: nat, payload: seq<Byte>): (r: seq<seq<Byte>>)
    requires i < |slots| && |payload| <= |slots[i]|
    ensures |r| == |slots| && forall k :: 0 <= k < |r| ==> |r[k]| == |slots[k]|
  {
    slots[i := payload + slots[i][|payload|..]]
  }

  ghost predicate Sized(slots: seq<seq<Byte>>, size: nat) {
    forall i :: 0 <= i < |slots| ==> |slots[i]| == size
  }

  lemma FilledSized(slots: seq<seq<Byte>>, size: nat, i: nat, payload: seq<Byte>)
    requires Sized(slots, size) && i < |slots| && |payload| <= size
    ensures |slots[i]| == size && Sized(Filled(slots, i, payload), size)
    ensures forall k :: 0 <= k < |slots| ==> |payload| <= |Filled(slots, i, payload)[k]|
  {
  }

  /** Byte by byte: the payload, behind it what the slot held before, and all other slots as they were. */
  lemma FilledBytes(slots: seq<seq<Byte>>, i: nat, payload: seq<Byte>)
    requires i < |slots| && |payload| <= |slots[i]|
    ensures var r := Filled(slots, i, payload);
      && (forall k :: 0 <= k < |payload| ==> r[i][k] == payload[k])
      && (forall k :: |payload| <= k < |slots[i]| ==> r[i][k] == slots[i][k])
      && (forall j :: 0 <= j < |slots| && j != i ==> r[j] == slots[j])
  {
  }

  /** The first `bytes` of every slot, which is what the encoder reads. */
  function Fronts(slots: seq<seq<Byte>>, bytes: nat): (r: seq<seq<Byte>>)
    requires forall i :: 0 <= i < |slots| ==> bytes <= |slots[i]|
    ensures |r| == |slots| && forall i :: 0 <= i < |r| ==> r[i] == slots[i][..bytes]
  {
    seq(|slots|, i requires 0 <= i < |slots| => slots[i][..bytes])
  }

  predicate Prefix(payload: seq<Byte>, slot: seq<Byte>) {
    |payload| <= |slot| && slot[..|payload|] == payload
  }

  /** The last `n` payloads are in the slots their position selects. */
  ghost predicate Latest(slots: seq<seq<Byte>>, all: seq<seq<Byte>>) {
    && 0 < |slots|
    && forall j :: 0 <= j < |all| <= j + |slots| ==> Prefix(all[j], slots[j % |slots|])
  }

  lemma ModDistinct(j: nat, t: nat, n: nat)
    requires j < t < j + n
    ensures j % n != t % n
  {
    var q, r := t / n, t % n;
    if j % n == r {
      var p := j / n;
      assert t - j == (q - p) * n by { MulMinus(q, p, n); }
      if q - p >= 1 {
        MulOrder(1, q - p, n);
      } else {
        MulOrder(q - p, 0, n);
      }
    }
  }

  lemma FilledLatest(slots: seq<seq<Byte>>, all: seq<seq<Byte>>, payload: seq<Byte>)
    requires Latest(slots, all) && |payload| <= |slots[|all| % |slots|]|
    ensures Latest(Filled(slots, |all| % |slots|, payload), all + [payload])
  {
    var n, t := |slots|, |all|;
    var slots', all' := Filled(slots, t % n, payload), all + [payload];
    forall j | 0 <= j < |all'| <= j + n
      ensures Prefix(all'[j], slots'[j % n])
    {
      if j < t {
        ModDistinct(j, t, n);
        assert Prefix(all[j], slots[j % n]);
      }
    }
  }

  /** At the end of a block, slot `i` holds the block's payload `i` in front. */
  lemma SlotOfBlock(slots: seq<seq<Byte>>, all: seq<seq<Byte>>, i: nat)
    requires Latest(slots, all) && |slots| <= |all| && |all| % |slots| == 0 && i < |slots|
    ensures Prefix(all[|all| - |slots| + i], slots[i])
  {
    var n, j := |slots|, |all| - |slots| + i;
    var q := |all| / n;
    assert |all| == q * n;
    assert (q - 1) * n == q * n - n by { MulOrder(q - 1, q, n); }
    QuotientIs(j, n, q - 1, i);
    assert Prefix(all[j], slots[j % n]);
  }

  /** The front of a slot is the payload it holds exactly when it has the payload's length. */
  lemma FrontIff(payload: seq<Byte>, slot: seq<Byte>, bytes: nat)
    requires Prefix(payload, slot) && bytes <= |slot|
    ensures slot[..bytes] == payload <==> |payload| == bytes
  {
  }

  ghost predicate SameSize(payloads: seq<seq<Byte>>, bytes: nat) {
    forall j :: 0 <= j < |payloads| ==> |payloads[j]| == bytes
  }

  /** At the end of a block the encoder sees exactly its payloads if, and only if, all have the last one's size. */
  lemma BlockInSlotsIff(slots: seq<seq<Byte>>, all: seq<seq<Byte>>, bytes: nat)
    requires Latest(slots, all) && |slots| <= |all| && |all| % |slots| == 0
    requires forall i :: 0 <= i < |slots| ==> bytes <= |slots[i]|
    ensures Fronts(slots, bytes) == all[|all| - |slots|..] <==> SameSize(all[|all| - |slots|..], bytes)
  {
    hide Latest, Prefix;
    var fronts, block := Fronts(slots, bytes), all[|all| - |slots|..];
    forall i | 0 <= i < |slots|
      ensures fronts[i] == block[i] <==> |block[i]| == bytes
    {
      SlotOfBlock(slots, all, i);
      FrontIff(block[i], slots[i], bytes);
    }
    if SameSize(block, bytes) {
      assert forall i :: 0 <= i < |slots| ==> fronts[i] == block[i];
    }
  }

  /** Block positions survive the 16-bit wrap when the block length divides 2^16. */
  lemma WrapKeepsPosition(t: nat, n: nat)
    requires 0 < n && SEQUENCE_SPACE % n == 0
    ensures t % SEQUENCE_SPACE % n == t % n
  {
    var q, r := t / SEQUENCE_SPACE, t % SEQUENCE_SPACE;
    var m := SEQUENCE_SPACE / n;
    assert q * SEQUENCE_SPACE == q * m * n;
    assert t == (q * m + r / n) * n + r % n by { Distribute(q * m, r / n, n); }
    QuotientIs(t, n, q * m + r / n, r % n);
  }

  lemma NextPosition(t: nat, n: nat)
    requires 0 < n && SEQUENCE_SPACE % n == 0
    ensures (t % SEQUENCE_SPACE + 1) % n == (t + 1) % n
  {
    WrapKeepsPosition(t, n);
    var r := t % SEQUENCE_SPACE;
    if t % n == n - 1 {
      QuotientIs(t + 1, n, t / n + 1, 0);
      QuotientIs(r + 1, n, r / n + 1, 0);
    } else {
      QuotientIs(t + 1, n, t / n, t % n + 1);
      QuotientIs(r + 1, n, r / n, r % n + 1);
    }
  }

  lemma WrapAdd(t: nat, i: nat)
    ensures (t % SEQUENCE_SPACE + i) % SEQUENCE_SPACE == (t + i) % SEQUENCE_SPACE
  {
  }

  // ---- Blocks and their bases -----------------------------------------------------------------

  /** The last packet that starts a block and was sent, or -1: the only packets that set the base. */
  function LastStart(sent: seq<bool>, n: nat): (r: int)
    requires 0 < n
    ensures -1 <= r < |sent|
    ensures 0 <= r ==> r % n == 0 && sent[r]
    ensures forall t :: r < t < |sent| && t % n == 0 ==> !sent[t]
  {
    var t := |sent| - 1;
    if sent == [] then -1
    else if t % n == 0 && sent[t] then t
    else LastStart(sent[..t], n)
  }

  /** At the end `e` of a block its own start is the last one sent exactly when it was sent at all. */
  lemma OwnStartIff(sent: seq<bool>, n: nat, e: nat)
    requires 0 < n <= e <= |sent| && e % n == 0
    ensures LastStart(sent[..e], n) == e - n <==> sent[e - n]
  {
    var q, r := e / n, LastStart(sent[..e], n);
    assert e == q * n;
    assert (q - 1) * n == q * n - n by { MulOrder(q - 1, q, n); }
    QuotientIs(e - n, n, q - 1, 0);
    assert (e - n) % n == 0;
    if sent[e - n] {
      assert sent[..e][e - n];
      assert r >= e - n;
      if r > e - n {
        ModDistinct(e - n, r, n);
      }
    }
  }

  /** The base a group carries when its block ends at `e`: that of the last start sent, else the initial one. */
  function BaseAt(sent: seq<bool>, n: nat, initial: nat): nat
    requires 0 < n
  {
    var r := LastStart(sent, n);
    if r < 0 then initial else r % SEQUENCE_SPACE
  }

  lemma BaseStep(sent: seq<bool>, n: nat, initial: nat, ok: bool)
    requires 0 < n
    ensures BaseAt(sent + [ok], n, initial) ==
      if |sent| % n == 0 && ok then |sent| % SEQUENCE_SPACE else BaseAt(sent, n, initial)
  {
    assert (sent + [ok])[..|sent|] == sent;
  }

  /** What every group says about the block that ended at packet `e`. */
  ghost predicate GroupOf(g: Group, all: seq<seq<Byte>>, sent: seq<bool>, n: nat, initial: nat, e: nat) {
    && 0 < n <= e <= |all| == |sent| && e % n == 0 && sent[e - 1]
    && g.baseSequence == BaseAt(sent[..e], n, initial)
    && |g.shards| == n
    && (g.shards == all[e - n..e] <==> SameSize(all[e - n..e], |all[e - 1]|))
  }

  /** One group for each block whose last packet was sent, in order. */
  ghost predicate GroupsOf(
    groups: seq<Group>, ends: seq<nat>, all: seq<seq<Byte>>, sent: seq<bool>, n: nat, initial: nat)
  {
    && 0 < n && |groups| == |ends| && |all| == |sent|
    && (forall i :: 0 <= i < |ends| ==> GroupOf(groups[i], all, sent, n, initial, ends[i]))
    && (forall i, j :: 0 <= i < j < |ends| ==> ends[i] < ends[j])
    && (forall e :: 0 < e <= |all| && e % n == 0 && sent[e - 1] ==> e in ends)
  }

  /** The group's shards are the `n` payloads up to `e`, whose sequence numbers count from its base. */
  ghost predicate IsBlock(g: Group, all: seq<seq<Byte>>, n: nat, e: nat) {
    && n <= e <= |all| && |g.shards| == n
    && forall i :: 0 <= i < n ==>
         g.shards[i] == all[e - n + i] && (e - n + i) % SEQUENCE_SPACE == (g.baseSequence + i) % SEQUENCE_SPACE
  }

  lemma BlockNumbers(g: Group, all: seq<seq<Byte>>, n: nat, e: nat)
    requires n <= e <= |all| && g.shards == all[e - n..e] && g.baseSequence == (e - n) % SEQUENCE_SPACE
    ensures IsBlock(g, all, n, e)
  {
    forall i | 0 <= i < n
      ensures g.shards[i] == all[e - n + i]
      ensures (e - n + i) % SEQUENCE_SPACE == (g.baseSequence + i) % SEQUENCE_SPACE
    {
      assert g.shards[i] == all[e - n..e][i];
      WrapAdd(e - n, i);
    }
  }

  /**
   A group whose block started with a packet that was sent, and whose payloads agree in size,
   holds the payloads of the `n` consecutive sequence numbers from its base, also across the wrap.
   */
  lemma GroupIsBlock(g: Group, all: seq<seq<Byte>>, sent: seq<bool>, n: nat, initial: nat, e: nat)
    requires GroupOf(g, all, sent, n, initial, e)
    requires sent[e - n] && SameSize(all[e - n..e], |all[e - 1]|)
    ensures IsBlock(g, all, n, e)
  {
    hide LastStart;
    OwnStartIff(sent, n, e);
    assert g.baseSequence == (e - n) % SEQUENCE_SPACE;
    BlockNumbers(g, all, n, e);
  }

  lemma GroupsAreBlocks(
    groups: seq<Group>, ends: seq<nat>, all: seq<seq<Byte>>, sent: seq<bool>, n: nat, initial: nat)
    requires GroupsOf(groups, ends, all, sent, n, initial)
    ensures forall k :: 0 <= k < |groups| ==> GroupOf(groups[k], all, sent, n, initial, ends[k])
    ensures forall k :: 0 <= k < |groups| ==>
      (sent[ends[k] - n] && SameSize(all[ends[k] - n..ends[k]], |all[ends[k] - 1]|)
       ==> IsBlock(groups[k], all, n, ends[k]))
  {
    hide IsBlock, SameSize;
    forall k | 0 <= k < |groups| && sent[ends[k] - n] && SameSize(all[ends[k] - n..ends[k]], |all[ends[k] - 1]|)
      ensures IsBlock(groups[k], all, n, ends[k])
    {
      GroupIsBlock(groups[k], all, sent, n, initial, ends[k]);
    }
  }

  lemma SameWrapIff(a: nat, b: nat)
    requires a <= b
    ensures a % SEQUENCE_SPACE == b % SEQUENCE_SPACE <==> (b - a) % SEQUENCE_SPACE == 0
  {
  }

  lemma ModMultiple(a: nat, n: nat, e: nat)
    requires 0 < n <= e && e % n == 0 && a == e - n
    ensures a % n == 0
  {
    var q := e / n;
    assert e == q * n;
    assert (q - 1) * n == q * n - n by { MulOrder(q - 1, q, n); }
    QuotientIs(a, n, q - 1, 0);
  }

  /**
   Exactly when the base names the block: its own start was sent, or the last start sent, or
   the initial value, happens to agree with it modulo 2^16.
   */
  lemma BaseIff(g: Group, all: seq<seq<Byte>>, sent: seq<bool>, n: nat, initial: nat, e: nat)
    requires GroupOf(g, all, sent, n, initial, e)
    ensures var last := LastStart(sent[..e], n);
      g.baseSequence == (e - n) % SEQUENCE_SPACE <==>
        || sent[e - n]
        || (0 <= last < e - n && (e - n - last) % SEQUENCE_SPACE == 0)
        || (last < 0 && initial == (e - n) % SEQUENCE_SPACE)
  {
    OwnStartIff(sent, n, e);
    var last := LastStart(sent[..e], n);
    if 0 <= last < e - n {
      SameWrapIff(last, e - n);
    } else if last > e - n {
      ModMultiple(e - n, n, e);
      ModDistinct(e - n, last, n);
    }
  }

  lemma GroupKept(
    g: Group, all: seq<seq<Byte>>, sent: seq<bool>, n: nat, initial: nat, e: nat, payload: seq<Byte>, ok: bool)
    requires GroupOf(g, all, sent, n, initial, e)
    ensures GroupOf(g, all + [payload], sent + [ok], n, initial, e)
  {
    assert (sent + [ok])[..e] == sent[..e] && (all + [payload])[e - n..e] == all[e - n..e];
  }

  /** A further packet changes no earlier group and adds one exactly when it ends a block and is sent. */
  lemma GroupsGrow(
    groups: seq<Group>, ends: seq<nat>, all: seq<seq<Byte>>, sent: seq<bool>, n: nat, initial: nat,
    payload: seq<Byte>, ok: bool, g: Group)
    requires GroupsOf(groups, ends, all, sent, n, initial)
    requires var e := |all| + 1;
      ok && e % n == 0 ==> GroupOf(g, all + [payload], sent + [ok], n, initial, e)
    ensures var e := |all| + 1;
      if ok && e % n == 0 then GroupsOf(groups + [g], ends + [e], all + [payload], sent + [ok], n, initial)
      else GroupsOf(groups, ends, all + [payload], sent + [ok], n, initial)
  {
    var all', sent', e := all + [payload], sent + [ok], |all| + 1;
    forall i | 0 <= i < |ends|
      ensures GroupOf(groups[i], all', sent', n, initial, ends[i])
    {
      GroupKept(groups[i], all, sent, n, initial, ends[i], payload, ok);
    }
    assert forall i :: 0 <= i < |ends| ==> ends[i] < e;
    assert forall x :: x in ends + [e] <==> x in ends || x == e;
  }

  /** The group made at the end of a block is one of that block. */
  lemma NewGroup(
    slots: seq<seq<Byte>>, all: seq<seq<Byte>>, sent: seq<bool>, initial: nat, g: Group)
    requires Latest(slots, all) && 0 < |all| == |sent| && |all| % |slots| == 0 && sent[|all| - 1]
    requires forall i :: 0 <= i < |slots| ==> |all[|all| - 1]| <= |slots[i]|
    requires g.shards == Fronts(slots, |all[|all| - 1]|) && g.baseSequence == BaseAt(sent, |slots|, initial)
    ensures GroupOf(g, all, sent, |slots|, initial, |all|)
  {
    var n, e := |slots|, |all|;
    if e < n {
      QuotientIs(e, n, 0, e);
    }
    BlockInSlotsIff(slots, all, |all[e - 1]|);
    assert sent[..e] == sent && all[e - n..e] == all[e - n..];
  }

  lemma SameLength(
    groups: seq<Group>, ends: seq<nat>, all: seq<seq<Byte>>, sent: seq<bool>, n: nat, initial: nat)
    requires GroupsOf(groups, ends, all, sent, n, initial)
    ensures |all| == |sent| && 0 < n
  {
  }

  /** Both together: what one packet does to the groups, given the slots after it. */
  lemma GroupsStep(
    slots: seq<seq<Byte>>, groups: seq<Group>, ends: seq<nat>, all: seq<seq<Byte>>, sent: seq<bool>, initial: nat,
    payload: seq<Byte>, ok: bool, g: Group)
    requires GroupsOf(groups, ends, all, sent, |slots|, initial)
    requires Latest(slots, all + [payload]) && forall i :: 0 <= i < |slots| ==> |payload| <= |slots[i]|
    requires g.shards == Fronts(slots, |payload|) && g.baseSequence == BaseAt(sent + [ok], |slots|, initial)
    ensures var e := |all| + 1;
      var parity := ok && e % |slots| == 0;
      GroupsOf(if parity then groups + [g] else groups, if parity then ends + [e] else ends,
               all + [payload], sent + [ok], |slots|, initial)
  {
    hide GroupsOf, GroupOf, Latest, BaseAt;
    SameLength(groups, ends, all, sent, |slots|, initial);
    if ok && (|all| + 1) % |slots| == 0 {
      NewGroup(slots, all + [payload], sent + [ok], initial, g);
    }
    GroupsGrow(groups, ends, all, sent, |slots|, initial, payload, ok, g);
  }

  /** The numbers of the first parity packets made at sequence number `s`. */
  function ParityNumbers(s: nat, count: nat): (r: seq<nat>)
    ensures |r| == count
    ensures forall x :: 0 <= x < count ==> r[x] == (s + x + 1) % SEQUENCE_SPACE
  {
    seq(count, (x: nat) => (s + x + 1) % SEQUENCE_SPACE)
  }

  // ---- The class -----------------------------------------------------------------------------

  class Sender {
    const n: nat            // data shards of a block
    const parityShards: nat
    const slotSize: nat
    ghost const initialBase: nat
    var sequenceNumber: nat
    var timestamp: nat
    var slots: seq<seq<Byte>>
    var baseSequence: nat
    var baseTimestamp: nat
    var groups: seq<Group>
    ghost var all: seq<seq<Byte>>  // every payload so far
    ghost var sent: seq<bool>      // which of them were sent
    ghost var ends: seq<nat>       // how many there were when each group was made

    ghost predicate Valid()
      reads this
    {
      && 0 < n && SEQUENCE_SPACE % n == 0 && |slots| == n
      && Sized(slots, slotSize)
      && |sent| == |all| && sequenceNumber == |all| % SEQUENCE_SPACE
      && Latest(slots, all)
      && baseSequence == BaseAt(sent, n, initialBase)
      && GroupsOf(groups, ends, all, sent, n, initialBase)
    }

    /** The base starts as whatever the memory for the parity packet holds. */
    constructor (n: nat, parityShards: nat, slotSize: nat, base: nat)
      requires 0 < n && SEQUENCE_SPACE % n == 0
      ensures Valid() && this.n == n && this.parityShards == parityShards && this.slotSize == slotSize
      ensures all == [] && groups == [] && initialBase == base == baseSequence
    {
      this.n, this.parityShards, this.slotSize, this.initialBase := n, parityShards, slotSize, base;
      sequenceNumber, timestamp, baseSequence, baseTimestamp := 0, 0, base, 0;
      slots := seq(n, _ => Zeros(slotSize));
      groups, all, sent, ends := [], [], [], [];
    }

    /** The loop that sends the parity packets behind sequence number `s`, until one throws. */
    method SendParity(s: nat, throwsAt: nat) returns (numbers: seq<nat>)
      ensures numbers == ParityNumbers(s, Shorter(throwsAt, parityShards))
    {
      numbers := [];
      for x := 0 to parityShards
        invariant x <= throwsAt && numbers == ParityNumbers(s, x)
      {
        if x == throwsAt {
          return;
        }
        numbers := numbers + [(s + x + 1) % SEQUENCE_SPACE];
      }
    }

    /**
     One packet. Parity is made exactly when it ends a block and was sent; an exception while the
     parity is sent, at packet `throwsAt` if there are that many, cuts it short and changes nothing else.
     */
    method Send(payload: seq<Byte>, duration: nat, sendOk: bool, throwsAt: nat)
      requires Valid() && |payload| <= slotSize
      modifies this
      ensures Valid() && all == old(all) + [payload] && sent == old(sent) + [sendOk]
      ensures sequenceNumber == (old(sequenceNumber) + 1) % SEQUENCE_SPACE
      ensures timestamp == (old(timestamp) + duration) % 0x1_0000_0000
      ensures slots == Filled(old(slots), old(sequenceNumber) % n, payload)
      ensures if sendOk && old(|all|) % n == 0
              then baseSequence == old(sequenceNumber) && baseTimestamp == old(timestamp)
              else baseSequence == old(baseSequence) && baseTimestamp == old(baseTimestamp)
      ensures if sendOk && |all| % n == 0 then
          && groups == old(groups) + [Group(baseSequence, baseTimestamp, Fronts(slots, |payload|),
                                            ParityNumbers(old(sequenceNumber), Shorter(throwsAt, parityShards)))]
          && ends == old(ends) + [|all|]
        else groups == old(groups) && ends == old(ends)
    {
      hide Latest, Filled, GroupsOf, GroupOf, BaseAt, Fronts, ParityNumbers, Sized;
      var s, ts := sequenceNumber, timestamp;
      var starts, finishes := s % n == 0, (s + 1) % n == 0;
      ghost var t := |all|;
      assert s % n == t % n && starts == (t % n == 0) by { WrapKeepsPosition(t, n); }
      assert finishes == ((t + 1) % n == 0) by { NextPosition(t, n); }
      assert (s + 1) % SEQUENCE_SPACE == (t + 1) % SEQUENCE_SPACE by { WrapAdd(t, 1); }
      FilledSized(slots, slotSize, s % n, payload);
      FilledLatest(slots, all, payload);
      BaseStep(sent, n, initialBase, sendOk);
      sequenceNumber := (s + 1) % SEQUENCE_SPACE;
      timestamp := (ts + duration) % 0x1_0000_0000;
      slots := Filled(slots, s % n, payload);
      if sendOk && starts {
        baseSequence, baseTimestamp := s, ts;
      }
      var g := Group(baseSequence, baseTimestamp, Fronts(slots, |payload|), []);
      if sendOk && finishes {
        var numbers := SendParity(s, throwsAt);
        g := g.(numbers := numbers);
      }
      GroupsStep(slots, groups, ends, all, sent, initialBase, payload, sendOk, g);
      all, sent := all + [payload], sent + [sendOk];
      if sendOk && finishes {
        groups := groups + [g];
        ends := ends + [|all|];
      }
    }

    /**
     Any run of packets, any of them failing to be sent. Parity was made exactly at the block
     ends that were sent, and every group of a block whose start was sent and whose payloads
     agree in size is that block, starting at its base.
     */
    method Stream(packets: seq<(seq<Byte>, nat, bool, nat)>)
      requires Valid() && forall i :: 0 <= i < |packets| ==> |packets[i].0| <= slotSize
      modifies this
      ensures Valid() && |all| == old(|all|) + |packets| && old(groups) <= groups
      ensures forall i :: 0 <= i < |packets| ==>
        all[old(|all|) + i] == packets[i].0 && sent[old(|all|) + i] == packets[i].2
      ensures forall k :: 0 <= k < |groups| ==> GroupOf(groups[k], all, sent, n, initialBase, ends[k])
      ensures forall k :: 0 <= k < |groups| ==>
        (sent[ends[k] - n] && SameSize(all[ends[k] - n..ends[k]], |all[ends[k] - 1]|)
         ==> IsBlock(groups[k], all, n, ends[k]))
    {
      hide Latest, BaseAt, SameSize, IsBlock, Fronts, Filled;
      for p := 0 to |packets|
        invariant Valid() && |all| == old(|all|) + p && old(groups) <= groups
        invariant forall i :: 0 <= i < p ==>
          all[old(|all|) + i] == packets[i].0 && sent[old(|all|) + i] == packets[i].2
      {
        Send(packets[p].0, packets[p].1, packets[p].2, packets[p].3);
      }
      GroupsAreBlocks(groups, ends, all, sent, n, initialBase);
    }
  }

  /** Two payloads of different sizes: parity is made over something other than the block. */
  method UnequalSizes() returns (s: Sender)
    ensures s.Valid() && s.all == [[1, 2], [3]] && |s.groups| == 1 && s.groups[0].shards != s.all
  {
    s := new Sender(2, 1, 4, 0);
    s.Send([1, 2], 5, true, 1);
    s.Send([3], 5, true, 1);
    ghost var g := s.groups[0];
    assert GroupOf(g, s.all, s.sent, 2, 0, 2);
    assert s.all[0..2] == s.all && |s.all[0]| == 2 && |s.all[1]| == 1;
  }

  /** The first packet of a block is not sent: its parity carries the base that was there before. */
  method UnsentStart(payload: seq<Byte>, base: nat) returns (s: Sender)
    ensures s.Valid() && s.n == 4 && s.all == [payload, payload, payload, payload] && |s.groups| == 1
    ensures s.groups[0].baseSequence == base
  {
    hide Latest, GroupsOf, GroupOf, BaseAt, Fronts, Filled, Sized, ParityNumbers;
    s := new Sender(4, 2, |payload|, base);
    s.Send(payload, 5, false, 2);
    s.Send(payload, 5, true, 2);
    s.Send(payload, 5, true, 2);
    s.Send(payload, 5, true, 2);
  }
}
