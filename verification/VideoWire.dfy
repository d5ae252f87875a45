/**
 What goes out on the wire, packet by packet, and what a receiver makes of it that sees nothing
 but the packets.
 */
module VideoWire {
  import opened Bits
  import opened Counting
  import opened Fec
  import opened Packetizer
  import opened VideoSender

  // ---- What is in a data shard -----------------------------------------------------------------

  /** The frame in whole slices, the last one filled up with zeros. */
  ghost function Padded(su: Setup, frame: seq<Byte>): (r: seq<Byte>)
    requires su.Valid() && frame != []
    ensures |r| == Packets(su, frame) * (su.b - |su.slot|) && frame <= r
    ensures forall i :: |frame| <= i < |r| ==> r[i] == 0
  {
    var slice, e := su.b - |su.slot|, Packets(su, frame);
    PiecesIs(|frame|, slice, e);
    frame + Zeros(e * slice - |frame|)
  }

  lemma ThreeEnds(x: seq<Byte>, y: seq<Byte>, z: seq<Byte>, whole: seq<Byte>)
    requires x + y + z == whole
    ensures |whole| == |x| + |y| + |z|
  {
  }

  /** The last block of a cut reaches to the end of the frame. */
  lemma LastReaches(payload: seq<Byte>, b: nat, h: nat, e: nat, bs: seq<seq<Byte>>, k: nat, first: nat, o: nat)
    requires h < b && Cut(payload, b, h, e, bs) && k == |bs| - 1 && first == k * Third(e) && o == first * b
    ensures o + |bs[k]| == |payload| && first + Pieces(|bs[k]|, b) == e
  {
    hide Concat, Pieces, Third;
    CutJoins(payload, b, h, e, bs);
    if |bs| != 1 {
      var t := Third(e);
      ThreeEnds(bs[0], bs[1], bs[2], payload);
      assert first == 2 * t;
      assert o == t * b + t * b by { Distribute(t, t, b); }
    }
  }

  lemma ZeroPad(payload: seq<Byte>, b: nat, t: nat)
    requires 0 < b && |payload| == t * b && Pieces(|payload|, b) == t
    ensures DataRegion(payload, b) == payload
  {
    assert Zeros(0) == [];
  }

  /** The data shards of block `k` are a stretch of the headered frame, padded to whole packets. */
  lemma RegionInFrame(
    whole: seq<Byte>, pad: nat, b: nat, h: nat, e: nat, bs: seq<seq<Byte>>, k: nat, first: nat, o: nat)
    requires h < b && Cut(whole, b, h, e, bs) && |whole| + pad == e * b
    requires k < |bs| && first == k * Third(e) && o == first * b
    ensures var region := DataRegion(bs[k], b);
      o + |region| <= e * b && (whole + Zeros(pad))[o..o + |region|] == region
    ensures first + Pieces(|bs[k]|, b) <= e
  {
    hide Concat, Pieces;
    var all, region := whole + Zeros(pad), DataRegion(bs[k], b);
    BlockOffset(whole, b, h, e, bs, k, first, o);
    if k < |bs| - 1 {
      ZeroPad(bs[k], b, Third(e));
      assert all[o..o + |bs[k]|] == whole[o..o + |bs[k]|];
    } else {
      LastReaches(whole, b, h, e, bs, k, first, o);
      Distribute(first, Pieces(|bs[k]|, b), b);
      assert |region| == |bs[k]| + pad;
      assert region == bs[k] + Zeros(pad);
      assert all[o..] == whole[o..] + Zeros(pad);
      assert whole[o..o + |bs[k]|] == whole[o..];
    }
  }

  lemma ShardOfRegion(
    su: Setup, batch: Batch, payload: seq<Byte>, low: nat, pts: int, index: nat, last: nat, x: nat, at: nat)
    requires su.Valid() && payload != [] && OnWire(su, batch, payload, low, pts, index, last)
    requires x < batch.counts.dataShards && at == x * su.b
    ensures x < Pieces(|payload|, su.b) && x < |batch.packets| && at + su.b <= |DataRegion(payload, su.b)|
    ensures batch.packets[x].bytes == DataRegion(payload, su.b)[at..at + su.b]
  {
    hide Shards, PackFecInfo, PacketNumbered, Choose, Pieces;
    var b, ps := su.b, batch.packets;
    assert forall y :: 0 <= y < |ps| ==> Tagged(ps[y], b, pts, index, last);
    DataShardsOfWire(su, batch, payload, low, pts, index, last);
    ShardAt(b, ps, x, at);
    MulOrder(x + 1, batch.counts.dataShards, b);
    MulOrder(x, x, b);
    assert Shards(b, ps)[..|DataRegion(payload, b)|] == DataRegion(payload, b);
  }

  lemma SubSlice(all: seq<Byte>, part: seq<Byte>, o: nat, at: nat, n: nat)
    requires o + |part| <= |all| && all[o..o + |part|] == part && at + n <= |part|
    ensures part[at..at + n] == all[o + at..o + at + n]
  {
    var x, y := part[at..at + n], all[o + at..o + at + n];
    forall i | 0 <= i < n
      ensures x[i] == y[i]
    {
      assert part[at + i] == all[o..o + |part|][at + i];
    }
  }

  lemma MulSum(e: nat, h: nat, slice: nat)
    ensures e * (h + slice) == e * h + e * slice
  {
  }

  /** The headered frame with its last packet filled up. */
  lemma PaddedHeadered(su: Setup, frame: seq<Byte>) returns (pad: nat)
    requires su.Valid() && frame != []
    ensures |Headered(su, frame)| + pad == Packets(su, frame) * su.b
    ensures Headered(su, frame) + Zeros(pad) == Interleave(su.slot, su.b - |su.slot|, Padded(su, frame))
  {
    hide Interleave, Pieces;
    var h, slice, e := |su.slot|, su.b - |su.slot|, Packets(su, frame);
    PiecesIs(|frame|, slice, e);
    pad := e * slice - |frame|;
    InterleaveLength(su.slot, slice, frame, e);
    assert e * su.b == e * h + e * slice by { MulSum(e, h, slice); }
    InterleavePadded(su.slot, slice, frame, pad, e);
  }

  ghost function SliceOf(su: Setup, frame: seq<Byte>, j: nat): seq<Byte>
    requires su.Valid() && frame != [] && j < Packets(su, frame)
  {
    var slice := su.b - |su.slot|;
    MulOrder(j, Packets(su, frame) - 1, slice);
    MulOrder(Packets(su, frame) - 1, Packets(su, frame), slice);
    Padded(su, frame)[j * slice..j * slice + slice]
  }

  lemma SliceAt(su: Setup, frame: seq<Byte>, j: nat, p: nat)
    requires su.Valid() && frame != [] && j < Packets(su, frame) && p == j * su.b
    ensures var all := Interleave(su.slot, su.b - |su.slot|, Padded(su, frame));
      p + su.b <= |all| && all[p..p + su.b] == su.slot + SliceOf(su, frame, j)
  {
    hide Interleave, Pieces, Padded;
    var slice := su.b - |su.slot|;
    InterleaveSlice(su.slot, slice, Padded(su, frame), Packets(su, frame), j, p, j * slice);
  }

  /** Data shard `x` of block `k` is a slot followed by slice `k * ceil(e / 3) + x` of the frame. */
  lemma DataShardIs(
    su: Setup, batch: Batch, frame: seq<Byte>, low: nat, pts: int, k: nat, last: nat, x: nat, j: nat)
    requires su.Valid() && frame != [] && k < |FrameBlocks(su, frame)| && x < batch.counts.dataShards
    requires OnWire(su, batch, FrameBlocks(su, frame)[k], low, pts, k, last)
    requires j == k * Third(Packets(su, frame)) + x
    ensures x < |batch.packets| && j < Packets(su, frame)
    ensures batch.packets[x].bytes == su.slot + SliceOf(su, frame, j)
  {
    hide Cut, OnWire, Interleave, FrameBlocks, Pieces, DataRegion, Third, SliceOf, Padded, Headered;
    var b, e, bs := su.b, Packets(su, frame), FrameBlocks(su, frame);
    var first: nat := j - x;
    var at, o := x * b, first * b;
    var pad := PaddedHeadered(su, frame);
    FrameIsCut(su, frame);
    RegionInFrame(Headered(su, frame), pad, b, |su.slot|, e, bs, k, first, o);
    ShardOfRegion(su, batch, bs[k], low, pts, k, last, x, at);
    var all := Headered(su, frame) + Zeros(pad);
    SubSlice(all, DataRegion(bs[k], b), o, at, b);
    Distribute(first, x, b);
    SliceAt(su, frame, j, o + at);
  }

  // ---- What is in a parity shard ---------------------------------------------------------------

  /** Every byte of a parity shard is what the code computes from the data shards of its batch. */
  ghost predicate ParityOf(su: Setup, batch: Batch, x: nat) {
    var d := batch.counts.dataShards;
    && d <= x < |batch.packets| && |batch.packets[x].bytes| == su.b
    && var data := Shards(su.b, batch.packets[..d]);
    forall y: nat :: y < su.b ==> batch.packets[x].bytes[y] == su.rs(data, (x - d) * su.b + y)
  }

  lemma ParityAt(su: Setup, batch: Batch, x: nat, at: nat)
    requires batch.counts.dataShards <= x < |batch.packets| && |batch.packets[x].bytes| == su.b
    requires at == (x - batch.counts.dataShards) * su.b
    requires var data := Shards(su.b, batch.packets[..batch.counts.dataShards]);
      forall y: nat :: y < su.b ==> batch.packets[x].bytes[y] == su.rs(data, at + y)
    ensures ParityOf(su, batch, x)
  {
    hide Shards;
  }

  lemma BytesBehind(
    all: seq<Byte>, size: nat, part: seq<Byte>, at: nat, b: nat, n: nat, data: seq<Byte>, rs: (seq<Byte>, nat) -> Byte)
    requires size + n == |all| && at + b <= n && part == all[size + at..size + at + b]
    requires forall i: nat :: i < n ==> all[size + i] == rs(data, i)
    ensures forall y: nat :: y < b ==> part[y] == rs(data, at + y)
  {
    forall y: nat | y < b
      ensures part[y] == rs(data, at + y)
    {
      assert part[y] == all[size + (at + y)];
    }
  }

  lemma EncodedBuffer(
    su: Setup, batch: Batch, payload: seq<Byte>, low: nat, pts: int, index: nat, last: nat, size: nat, n: nat)
    requires su.Valid() && payload != [] && OnWire(su, batch, payload, low, pts, index, last)
    requires batch.counts.dataShards < |batch.packets|
    requires size == batch.counts.dataShards * su.b && n == batch.counts.parityShards * su.b
    ensures |batch.packets| == batch.counts.dataShards + batch.counts.parityShards
    ensures var all := Shards(su.b, batch.packets);
      |all| == size + n && forall i: nat :: i < n ==> all[size + i] == su.rs(all[..size], i)
  {
    hide Shards, Buffer, PackFecInfo, PacketNumbered, Pieces;
    BufferBytes(payload, su.b, batch.counts, su.max, su.rs);
    Distribute(batch.counts.dataShards, batch.counts.parityShards, su.b);
  }

  lemma ShardBehind(b: nat, ps: seq<Packet>, d: nat, x: nat, size: nat, at: nat, n: nat)
    requires d <= x < |ps| && forall i :: 0 <= i < |ps| ==> |ps[i].bytes| == b
    requires size == d * b && at == (x - d) * b && n == (|ps| - d) * b
    ensures at + b <= n && size + n == |Shards(b, ps)|
    ensures Shards(b, ps)[..size] == Shards(b, ps[..d])
    ensures Shards(b, ps)[size + at..size + at + b] == ps[x].bytes
  {
    hide Shards;
    ShardsPrefix(b, ps, d);
    ShardAt(b, ps, x, x * b);
    Distribute(d, x - d, b);
    Distribute(d, |ps| - d, b);
    MulOrder(x - d, x - d, b);
    MulOrder(x - d + 1, |ps| - d, b);
  }

  lemma WireSizes(su: Setup, batch: Batch, payload: seq<Byte>, low: nat, pts: int, index: nat, last: nat)
    requires su.Valid() && payload != [] && OnWire(su, batch, payload, low, pts, index, last)
    ensures forall i :: 0 <= i < |batch.packets| ==> |batch.packets[i].bytes| == su.b
  {
    forall i | 0 <= i < |batch.packets|
      ensures |batch.packets[i].bytes| == su.b
    {
      assert Tagged(batch.packets[i], su.b, pts, index, last);
    }
  }

  lemma ParityShardIs(su: Setup, batch: Batch, payload: seq<Byte>, low: nat, pts: int, index: nat, last: nat, x: nat)
    requires su.Valid() && payload != [] && OnWire(su, batch, payload, low, pts, index, last)
    requires batch.counts.dataShards <= x < |batch.packets|
    ensures ParityOf(su, batch, x)
  {
    hide Shards, OnWire, ParityOf;
    var b, c, ps := su.b, batch.counts, batch.packets;
    var d, all := c.dataShards, Shards(su.b, batch.packets);
    var size, at, n := d * b, (x - d) * b, c.parityShards * b;
    WireSizes(su, batch, payload, low, pts, index, last);
    EncodedBuffer(su, batch, payload, low, pts, index, last, size, n);
    ShardBehind(b, ps, d, x, size, at, n);
    BytesBehind(all, size, ps[x].bytes, at, b, n, all[..size], su.rs);
    ParityAt(su, batch, x, at);
  }

  // ---- What a packet says and holds -----------------------------------------------------------------

  /** What the bytes are, wherever the shard stands. */
  ghost predicate Holds(su: Setup, frame: seq<Byte>, batch: Batch, k: nat, x: nat)
    requires su.Valid() && frame != [] && x < |batch.packets|
  {
    var j := k * Third(Packets(su, frame)) + x;
    if x < batch.counts.dataShards
    then j < Packets(su, frame) && batch.packets[x].bytes == su.slot + SliceOf(su, frame, j)
    else ParityOf(su, batch, x)
  }

  /**
   Packet `p` is shard `x` of block `k`. Its header names the frame, the block and how many there
   are; its bytes are the slot and the slice of the frame at that place, or parity of the block.
   */
  ghost predicate Carries(su: Setup, frame: seq<Byte>, batches: seq<Batch>, pts: int, p: Packet, k: nat, x: nat)
    requires su.Valid() && frame != []
  {
    && k < |batches| && x < |batches[k].packets| && p == batches[k].packets[x]
    && p.header.frameIndex == pts
    && p.header.multiFecBlocks / 0x10 % 4 == k
    && p.header.multiFecBlocks / 0x40 == |FrameBlocks(su, frame)| - 1
    && Holds(su, frame, batches[k], k, x)
  }

  lemma BlockCount(su: Setup, frame: seq<Byte>)
    requires su.Valid() && frame != []
    ensures |FrameBlocks(su, frame)| <= 3 && LastIndex(|FrameBlocks(su, frame)|) == |FrameBlocks(su, frame)| - 1
  {
    FrameIsCut(su, frame);
  }

  lemma PacketTagged(
    su: Setup, batch: Batch, payload: seq<Byte>, low: nat, pts: int, index: nat, last: nat, x: nat)
    requires su.Valid() && payload != [] && OnWire(su, batch, payload, low, pts, index, last)
    requires x < |batch.packets|
    ensures Tagged(batch.packets[x], su.b, pts, index, last)
  {
  }

  lemma PacketNamed(
    su: Setup, batch: Batch, frame: seq<Byte>, low: nat, pts: int, k: nat, x: nat)
    requires su.Valid() && frame != [] && k < |FrameBlocks(su, frame)| && x < |batch.packets|
    requires OnWire(su, batch, FrameBlocks(su, frame)[k], low, pts, k, LastIndex(|FrameBlocks(su, frame)|))
    ensures var hd := batch.packets[x].header;
      && hd.frameIndex == pts && hd.multiFecBlocks / 0x10 % 4 == k
      && hd.multiFecBlocks / 0x40 == |FrameBlocks(su, frame)| - 1
  {
    hide OnWire, FrameBlocks, LastIndex, Or;
    var bs := FrameBlocks(su, frame);
    BlockCount(su, frame);
    PacketTagged(su, batch, bs[k], low, pts, k, LastIndex(|bs|), x);
    MultiFecBlocks(k, LastIndex(|bs|));
  }

  lemma PacketHolds(su: Setup, batch: Batch, frame: seq<Byte>, low: nat, pts: int, k: nat, last: nat, x: nat)
    requires su.Valid() && frame != [] && k < |FrameBlocks(su, frame)| && x < |batch.packets|
    requires OnWire(su, batch, FrameBlocks(su, frame)[k], low, pts, k, last)
    ensures Holds(su, frame, batch, k, x)
  {
    hide OnWire, FrameBlocks, SliceOf, ParityOf, Packets, Third;
    if x < batch.counts.dataShards {
      DataShardIs(su, batch, frame, low, pts, k, last, x, k * Third(Packets(su, frame)) + x);
    } else {
      ParityShardIs(su, batch, FrameBlocks(su, frame)[k], low, pts, k, last, x);
    }
  }

  lemma PacketCarries(
    su: Setup, batches: seq<Batch>, frame: seq<Byte>, low: nat, pts: int, k: nat, x: nat)
    requires su.Valid() && frame != [] && k < |batches| <= |FrameBlocks(su, frame)| && x < |batches[k].packets|
    requires var bs := FrameBlocks(su, frame); BlocksOnWire(su, batches, bs, low, pts, LastIndex(|bs|))
    ensures Carries(su, frame, batches, pts, batches[k].packets[x], k, x)
  {
    hide OnWire, FrameBlocks, BlocksOnWire, LastIndex, Holds;
    var bs := FrameBlocks(su, frame);
    OnWireAt(su, batches, bs, low, pts, LastIndex(|bs|), k);
    PacketNamed(su, batches[k], frame, low + Total(batches[..k]), pts, k, x);
    PacketHolds(su, batches[k], frame, low + Total(batches[..k]), pts, k, LastIndex(|bs|), x);
  }

  // ---- Which packets go out -----------------------------------------------------------------------

  /** What goes out of a batch is packets of it; of one that does not throw, all, and all in order at the end. */
  lemma OutIs(batch: Batch)
    ensures forall p :: p in Out(batch) ==> p in batch.packets
    ensures !Throws(batch) ==> exists e: nat :: e <= |batch.packets| && Out(batch) == batch.packets[..e] + batch.packets
    ensures !Throws(batch) && !(batch.delivery.OneByOne? && batch.delivery.early > 0) ==> Out(batch) == batch.packets
  {
    var ps := batch.packets;
    match batch.delivery
    case Whole => assert ps[..0] + ps == ps;
    case OneByOne(early, throwsAt) =>
      assert ps[..|ps|] == ps;
      if !Throws(batch) {
        assert Out(batch) == ps[..Shorter(early, |ps|)] + ps;
      }
  }

  lemma {:induction false} WireIs(batches: seq<Batch>)
    ensures forall p :: p in WireOf(batches) ==>
      exists k, x :: 0 <= k < |batches| && 0 <= x < |batches[k].packets| && p == batches[k].packets[x]
    ensures (forall k :: 0 <= k < |batches| ==> !Throws(batches[k])) ==>
      forall k, x :: 0 <= k < |batches| && 0 <= x < |batches[k].packets| ==> batches[k].packets[x] in WireOf(batches)
  {
    hide Out, Throws;
    if batches != [] {
      var n := |batches| - 1;
      WireIs(batches[..n]);
      OutIs(batches[n]);
      assert forall k :: 0 <= k < n ==> batches[..n][k] == batches[k];
      forall p | p in WireOf(batches)
        ensures exists k, x :: 0 <= k < |batches| && 0 <= x < |batches[k].packets| && p == batches[k].packets[x]
      {
        if p in WireOf(batches[..n]) {
          var k, x :| 0 <= k < n && 0 <= x < |batches[..n][k].packets| && p == batches[..n][k].packets[x];
          assert p == batches[k].packets[x];
        }
      }
    }
  }

  /**
   Every packet on the wire of a frame, sent to its end or not, says where it belongs and holds
   what belongs there; of a frame sent without an exception all packets are on the wire.
   */
  lemma WireCarries(su: Setup, a: Attempt, frame: seq<Byte>, low: nat, pts: int)
    requires su.Valid() && frame != [] && Handed(a) && |a.batches| <= |FrameBlocks(su, frame)|
    requires var bs := FrameBlocks(su, frame); BlocksOnWire(su, a.batches, bs, low, pts, LastIndex(|bs|))
    ensures forall p :: p in WireOf(a.batches) ==> exists k, x :: Carries(su, frame, a.batches, pts, p, k, x)
    ensures a.ok ==>
      forall k, x :: 0 <= k < |a.batches| && 0 <= x < |a.batches[k].packets| ==>
        a.batches[k].packets[x] in WireOf(a.batches)
  {
    hide Carries, WireOf, FrameBlocks, BlocksOnWire;
    WireIs(a.batches);
    forall p | p in WireOf(a.batches)
      ensures exists k, x :: Carries(su, frame, a.batches, pts, p, k, x)
    {
      var k, x :| 0 <= k < |a.batches| && 0 <= x < |a.batches[k].packets| && p == a.batches[k].packets[x];
      PacketCarries(su, a.batches, frame, low, pts, k, x);
    }
  }

  // ---- A receiver that sees only packets --------------------------------------------------------

  /** Packets as they come in, without those that came before. */
  function FirstSeen(ps: seq<Packet>): seq<Packet> {
    if ps == [] then []
    else
      var n := |ps| - 1;
      FirstSeen(ps[..n]) + if ps[n] in ps[..n] then [] else [ps[n]]
  }

  /** A packet that its own header calls a data shard. */
  predicate SaysData(p: Packet) {
    var (x, d, _) := UnpackFecInfo(p.header.fecInfo);
    x < d
  }

  function DataPackets(ps: seq<Packet>): (r: seq<Packet>)
    ensures forall p :: p in r ==> p in ps
  {
    if ps == [] then []
    else
      var n := |ps| - 1;
      DataPackets(ps[..n]) + if SaysData(ps[n]) then [ps[n]] else []
  }

  /** Drop what came twice, keep what says it is data, and take off the headers. */
  function Assembled(h: nat, wire: seq<Packet>): seq<Byte>
    requires Long(h, DataPackets(FirstSeen(wire)))
  {
    Bodies(h, DataPackets(FirstSeen(wire)))
  }

  lemma {:induction false} SeenOld(w: seq<Packet>, ps: seq<Packet>)
    requires forall p :: p in ps ==> p in w
    ensures FirstSeen(w + ps) == FirstSeen(w)
    decreases |ps|
  {
    if ps == [] {
      assert w + ps == w;
    } else {
      var n := |ps| - 1;
      assert (w + ps)[..|w| + n] == w + ps[..n];
      SeenOld(w, ps[..n]);
    }
  }

  ghost predicate Distinct(ps: seq<Packet>) {
    forall i, j :: 0 <= i < j < |ps| ==> ps[i] != ps[j]
  }

  lemma {:induction false} SeenNew(w: seq<Packet>, ps: seq<Packet>)
    requires Distinct(ps) && forall p :: p in ps ==> p !in w
    ensures FirstSeen(w + ps) == FirstSeen(w) + ps
    decreases |ps|
  {
    if ps == [] {
      assert w + ps == w;
    } else {
      var n := |ps| - 1;
      assert (w + ps)[..|w| + n] == w + ps[..n];
      SeenNew(w, ps[..n]);
      assert ps[n] in ps && ps[n] !in ps[..n];
      assert ps == ps[..n] + [ps[n]];
    }
  }

  lemma PartsDistinct(ps: seq<Packet>, e: nat)
    requires Distinct(ps) && e <= |ps|
    ensures Distinct(ps[..e]) && Distinct(ps[e..])
    ensures forall p :: p in ps[e..] ==> p in ps && p !in ps[..e]
  {
    forall p | p in ps[e..]
      ensures p in ps && p !in ps[..e]
    {
      var i :| 0 <= i < |ps| - e && ps[e..][i] == p;
      assert ps[e + i] == p;
    }
  }

  /** A run of packets, then two parts of a batch, the first of them sent twice. */
  lemma SeenTwice(w: seq<Packet>, p: seq<Packet>, q: seq<Packet>)
    requires Distinct(p) && Distinct(q)
    requires (forall x :: x in p ==> x !in w) && (forall x :: x in q ==> x !in w && x !in p)
    ensures FirstSeen(w + p + p + q) == FirstSeen(w) + p + q
  {
    hide FirstSeen, Distinct;
    SeenNew(w, p);
    SeenOld(w + p, p);
    SeenNew(w + p + p, q);
  }

  lemma Grouped<T>(w: seq<T>, p: seq<T>, q: seq<T>)
    ensures w + (p + (p + q)) == w + p + p + q
    ensures w + p + q == w + (p + q)
  {
  }

  /** A batch that goes out after others, perhaps begun twice. */
  lemma SeenBatch(w: seq<Packet>, ps: seq<Packet>, e: nat)
    requires Distinct(ps) && (forall p :: p in ps ==> p !in w) && e <= |ps|
    ensures FirstSeen(w + (ps[..e] + ps)) == FirstSeen(w) + ps
  {
    hide FirstSeen, Distinct;
    var p, q := ps[..e], ps[e..];
    PartsDistinct(ps, e);
    assert ps == p + q;
    assert forall x :: x in p ==> x in ps;
    SeenTwice(w, p, q);
    Grouped(w, p, q);
    Grouped(FirstSeen(w), p, q);
  }

  /** The fields of every packet's information word are wide enough. */
  predicate FieldsFit(batch: Batch) {
    |batch.packets| <= 0x400 && batch.counts.dataShards < 0x400 && batch.counts.percentage < 0x100
  }

  lemma BatchDistinct(batch: Batch)
    requires AllMarked(batch) && FieldsFit(batch)
    ensures Distinct(batch.packets)
  {
    hide UnpackFecInfo;
    forall i, j | 0 <= i < j < |batch.packets|
      ensures batch.packets[i] != batch.packets[j]
    {
      assert Marked(batch.packets[i].header, batch.counts, i) && Marked(batch.packets[j].header, batch.counts, j);
    }
  }

  /** Every packet of a batch names its block. */
  ghost predicate Names(batch: Batch, k: nat) {
    forall x :: 0 <= x < |batch.packets| ==> batch.packets[x].header.multiFecBlocks / 0x10 % 4 == k
  }

  /** A frame whose packets can be told apart. */
  ghost predicate Telling(batches: seq<Batch>) {
    forall k :: 0 <= k < |batches| ==> AllMarked(batches[k]) && FieldsFit(batches[k]) && Names(batches[k], k)
  }

  lemma {:induction false} FlatNames(batches: seq<Batch>)
    requires Telling(batches)
    ensures forall p :: p in WireOf(batches) ==> p.header.multiFecBlocks / 0x10 % 4 < |batches|
  {
    hide AllMarked, FieldsFit;
    WireIs(batches);
    forall p | p in WireOf(batches)
      ensures p.header.multiFecBlocks / 0x10 % 4 < |batches|
    {
      var k, x :| 0 <= k < |batches| && 0 <= x < |batches[k].packets| && p == batches[k].packets[x];
      assert Names(batches[k], k);
    }
  }

  lemma {:induction false} SeenOfWire(batches: seq<Batch>)
    requires Telling(batches) && forall k :: 0 <= k < |batches| ==> !Throws(batches[k])
    ensures FirstSeen(WireOf(batches)) == Flatten(batches)
    decreases |batches|
  {
    hide AllMarked, FieldsFit, Throws, Out;
    if batches != [] {
      var n := |batches| - 1;
      var front, ps := batches[..n], batches[n].packets;
      assert Telling(front) && Names(batches[n], n) && !Throws(batches[n]);
      SeenOfWire(front);
      FlatNames(front);
      OutIs(batches[n]);
      BatchDistinct(batches[n]);
      var e: nat :| e <= |ps| && Out(batches[n]) == ps[..e] + ps;
      SeenBatch(WireOf(front), ps, e);
    }
  }

  lemma {:induction false} DataOfBatch(batch: Batch, n: nat)
    requires AllMarked(batch) && FieldsFit(batch) && n <= |batch.packets|
    ensures DataPackets(batch.packets[..n]) == batch.packets[..Shorter(n, batch.counts.dataShards)]
  {
    hide UnpackFecInfo;
    if n > 0 {
      var ps := batch.packets;
      DataOfBatch(batch, n - 1);
      assert ps[..n][..n - 1] == ps[..n - 1];
      assert Marked(ps[n - 1].header, batch.counts, n - 1);
    }
  }

  lemma {:induction false} DataJoined(p: seq<Packet>, q: seq<Packet>)
    ensures DataPackets(p + q) == DataPackets(p) + DataPackets(q)
    decreases |q|
  {
    if q == [] {
      assert p + q == p;
    } else {
      var n := |q| - 1;
      assert (p + q)[..|p| + n] == p + q[..n];
      DataJoined(p, q[..n]);
    }
  }

  lemma LongParts(h: nat, p: seq<Packet>, q: seq<Packet>)
    requires Long(h, p) && Long(h, q)
    ensures Long(h, p + q)
    ensures q != [] ==> Long(h, q[..|q| - 1]) && Long(h, p + q[..|q| - 1]) && h <= |q[|q| - 1].bytes|
  {
  }

  lemma BodiesLast(h: nat, ps: seq<Packet>, last: Packet)
    requires Long(h, ps) && h <= |last.bytes|
    ensures Long(h, ps + [last]) && Bodies(h, ps + [last]) == Bodies(h, ps) + last.bytes[h..]
  {
    assert (ps + [last])[..|ps|] == ps;
  }

  lemma BodiesNone(h: nat)
    ensures Long(h, []) && Bodies(h, []) == []
  {
  }

  lemma SplitLast<T>(p: seq<T>, q: seq<T>)
    requires q != []
    ensures q == q[..|q| - 1] + [q[|q| - 1]] && p + q == (p + q[..|q| - 1]) + [q[|q| - 1]]
  {
  }

  lemma Associates<T>(x: seq<T>, y: seq<T>, z: seq<T>)
    ensures x + y + z == x + (y + z)
  {
  }

  lemma {:induction false} BodiesJoined(h: nat, p: seq<Packet>, q: seq<Packet>)
    requires Long(h, p) && Long(h, q)
    ensures Long(h, p + q) && Bodies(h, p + q) == Bodies(h, p) + Bodies(h, q)
    decreases |q|
  {
    LongParts(h, p, q);
    hide Bodies, Long;
    if q == [] {
      BodiesNone(h);
      assert p + q == p;
    } else {
      var n := |q| - 1;
      BodiesJoined(h, p, q[..n]);
      SplitLast(p, q);
      BodiesLast(h, p + q[..n], q[n]);
      BodiesLast(h, q[..n], q[n]);
      Associates(Bodies(h, p), Bodies(h, q[..n]), q[n].bytes[h..]);
    }
  }

  lemma {:induction false} ReceivedMore(h: nat, batches: seq<Batch>, batch: Batch)
    requires Readable(h, batch) && forall k :: 0 <= k < |batches| ==> Readable(h, batches[k])
    ensures Received(h, batches + [batch]) == Received(h, batches) + Data(h, batch)
    decreases |batches|
  {
    hide Readable, Data;
    if batches == [] {
      assert batches + [batch] == [batch];
      ReceivedOne(h, batch);
    } else {
      assert (batches + [batch])[1..] == batches[1..] + [batch];
      ReceivedMore(h, batches[1..], batch);
    }
  }

  /** One batch more. */
  lemma FlatNext(h: nat, flat: seq<Packet>, batch: Batch)
    requires AllMarked(batch) && FieldsFit(batch) && Readable(h, batch) && Long(h, DataPackets(flat))
    ensures Long(h, DataPackets(flat + batch.packets))
    ensures Bodies(h, DataPackets(flat + batch.packets)) == Bodies(h, DataPackets(flat)) + Data(h, batch)
  {
    hide AllMarked, FieldsFit, DataPackets, Bodies;
    var ps := batch.packets;
    DataJoined(flat, ps);
    assert ps[..|ps|] == ps;
    DataOfBatch(batch, |ps|);
    BodiesJoined(h, DataPackets(flat), ps[..batch.counts.dataShards]);
  }

  lemma Unfolded(h: nat, batches: seq<Batch>)
    requires forall k :: 0 <= k < |batches| ==> Readable(h, batches[k])
    ensures batches == [] ==> Flatten(batches) == [] && Received(h, batches) == []
    ensures batches == [] ==> DataPackets(Flatten(batches)) == []
    ensures batches != [] ==>
      Flatten(batches) == Flatten(batches[..|batches| - 1]) + batches[|batches| - 1].packets
  {
  }

  lemma TellingParts(h: nat, batches: seq<Batch>)
    requires Telling(batches) && batches != [] && forall k :: 0 <= k < |batches| ==> Readable(h, batches[k])
    ensures var n := |batches| - 1;
      && Telling(batches[..n]) && (forall k :: 0 <= k < n ==> Readable(h, batches[..n][k]))
      && AllMarked(batches[n]) && FieldsFit(batches[n]) && Readable(h, batches[n])
  {
    hide AllMarked, FieldsFit, Names, Readable;
  }

  /** The data packets of a whole frame, picked by their headers, are those of its batches. */
  lemma {:induction false} FlatReceived(h: nat, batches: seq<Batch>)
    requires Telling(batches) && forall k :: 0 <= k < |batches| ==> Readable(h, batches[k])
    ensures Long(h, DataPackets(Flatten(batches)))
    ensures Bodies(h, DataPackets(Flatten(batches))) == Received(h, batches)
    decreases |batches|
  {
    hide AllMarked, FieldsFit, Telling, Readable, DataPackets, Bodies, Received, Data, Flatten, Long;
    Unfolded(h, batches);
    BodiesNone(h);
    if batches != [] {
      var n := |batches| - 1;
      var front, last := batches[..n], batches[n];
      TellingParts(h, batches);
      FlatReceived(h, front);
      FlatNext(h, Flatten(front), last);
      assert batches == front + [last];
      ReceivedMore(h, front, last);
    }
  }

  lemma CarriesName(su: Setup, frame: seq<Byte>, batches: seq<Batch>, pts: int, k: nat, x: nat)
    requires su.Valid() && frame != [] && k < |batches| && x < |batches[k].packets|
    requires Carries(su, frame, batches, pts, batches[k].packets[x], k, x)
    ensures batches[k].packets[x].header.multiFecBlocks / 0x10 % 4 == k
  {
  }

  lemma FrameTelling(su: Setup, batches: seq<Batch>, frame: seq<Byte>, low: nat, pts: int)
    requires su.Valid() && frame != [] && |batches| <= |FrameBlocks(su, frame)|
    requires var bs := FrameBlocks(su, frame); BlocksOnWire(su, batches, bs, low, pts, LastIndex(|bs|))
    requires forall k :: 0 <= k < |batches| ==> FieldsFit(batches[k])
    ensures Telling(batches)
  {
    hide OnWire, FrameBlocks, BlocksOnWire, AllMarked, FieldsFit, Carries, RunsFrom;
    var bs := FrameBlocks(su, frame);
    BlocksRun(su, batches, bs, low, pts, LastIndex(|bs|));
    forall k | 0 <= k < |batches|
      ensures AllMarked(batches[k]) && Names(batches[k], k)
    {
      RunsAt(batches, low, k);
      BatchMarked(batches[k], low + Total(batches[..k]));
      forall x | 0 <= x < |batches[k].packets|
        ensures batches[k].packets[x].header.multiFecBlocks / 0x10 % 4 == k
      {
        PacketCarries(su, batches, frame, low, pts, k, x);
        CarriesName(su, frame, batches, pts, k, x);
      }
    }
  }

  /**
   End to end over the wire: of a frame sent without an exception, whole or shard by shard, begun
   twice or not, a receiver that sees only the packets puts together the frame and the zeros of
   the last packet, as long as the fields of the headers are wide enough.
   */
  lemma WireReceived(su: Setup, a: Attempt, frame: seq<Byte>, low: nat, pts: int)
    requires su.Valid() && frame != [] && Handed(a) && a.ok && FrameOnWire(su, a.batches, frame, low, pts)
    requires forall k :: 0 <= k < |a.batches| ==> FieldsFit(a.batches[k])
    ensures Long(|su.slot|, DataPackets(FirstSeen(WireOf(a.batches))))
    ensures var bs := FrameBlocks(su, frame);
      Assembled(|su.slot|, WireOf(a.batches)) == frame + Zeros(Pad(su.b, bs[|bs| - 1]))
  {
    hide FrameBlocks, BlocksOnWire, FieldsFit, Telling, WireOf, Received, Readable, FirstSeen, DataPackets;
    FrameTelling(su, a.batches, frame, low, pts);
    SeenOfWire(a.batches);
    FrameReceived(su, a.batches, frame, low, pts);
    FlatReceived(|su.slot|, a.batches);
  }

  /** Sent whole, or shard by shard from the start, the packets go out in order and once each. */
  lemma {:induction false} WireInOrder(batches: seq<Batch>)
    requires forall k :: 0 <= k < |batches| ==>
      !Throws(batches[k]) && !(batches[k].delivery.OneByOne? && batches[k].delivery.early > 0)
    ensures WireOf(batches) == Flatten(batches)
  {
    hide Out, Throws;
    if batches != [] {
      var n := |batches| - 1;
      assert forall k :: 0 <= k < n ==> batches[..n][k] == batches[k];
      WireInOrder(batches[..n]);
      OutIs(batches[n]);
    }
  }

  lemma SlotInFront(su: Setup, frame: seq<Byte>, batches: seq<Batch>, pts: int, p: Packet, k: nat, x: nat)
    requires su.Valid() && frame != [] && Carries(su, frame, batches, pts, p, k, x) && Telling(batches) && SaysData(p)
    ensures su.slot <= p.bytes
  {
    hide UnpackFecInfo, SliceOf, FrameBlocks, ParityOf;
    assert AllMarked(batches[k]) && FieldsFit(batches[k]);
    assert Marked(p.header, batches[k].counts, x);
  }

  /**
   Of any frame, sent to its end or not: every packet on the wire that says it is a data shard
   begins with a slot that the insertion created, so its header hides no byte of the frame.
   */
  lemma SlotsOnWire(su: Setup, a: Attempt, frame: seq<Byte>, low: nat, pts: int)
    requires su.Valid() && frame != [] && Handed(a) && |a.batches| <= |FrameBlocks(su, frame)|
    requires var bs := FrameBlocks(su, frame); BlocksOnWire(su, a.batches, bs, low, pts, LastIndex(|bs|))
    requires forall k :: 0 <= k < |a.batches| ==> FieldsFit(a.batches[k])
    ensures forall p :: p in WireOf(a.batches) && SaysData(p) ==> su.slot <= p.bytes
  {
    hide Carries, WireOf, FrameBlocks, BlocksOnWire, SaysData, FieldsFit, AllMarked, Telling;
    FrameTelling(su, a.batches, frame, low, pts);
    WireCarries(su, a, frame, low, pts);
    forall p | p in WireOf(a.batches) && SaysData(p)
      ensures su.slot <= p.bytes
    {
      var k, x :| Carries(su, frame, a.batches, pts, p, k, x);
      SlotInFront(su, frame, a.batches, pts, p, k, x);
    }
  }
}
