/**
 The video sender: each frame is packetized, cut into FEC blocks, and each block is numbered,
 encoded and sent as one batch.

 Packet headers are kept as records beside the shard bytes they overlay; the first `h` bytes
 of a shard stand for its header.
 */
module VideoSender {
  import opened Bits
  import opened Counting
  import opened Fec
  import opened Packetizer

  datatype Flag = PicData | StartOfFrame | EndOfFrame

  datatype Header = Header(
    flags: set<Flag>, frameIndex: int, streamPacketIndex: nat,
    multiFecBlocks: nat, fecInfo: nat, rtpHeader: nat, sequenceNumber: nat, timestamp: nat)

  datatype Packet = Packet(header: Header, bytes: seq<Byte>)

  /**
   How the socket takes a batch: whole, or shard by shard up to the one that throws, if there are
   that many, after a batched send that failed with `early` shards on the wire.
   */
  datatype Delivery = Whole | OneByOne(early: nat, throwsAt: nat)

  datatype Batch = Batch(counts: Counts, packets: seq<Packet>, delivery: Delivery)

  /** One frame's batches; unless all is well, sending the last one threw. */
  datatype Attempt = Attempt(batches: seq<Batch>, ok: bool)

  /** What stays fixed while a session streams: sizes, FEC settings, and the foreign code. */
  datatype Setup = Setup(
    slot: seq<Byte>, b: nat, max: nat, percentage: nat, minimum: nat, extensionFlag: nat,
    rs: (seq<Byte>, nat) -> Byte, rsHeader: (seq<Header>, nat) -> Header)
  {
    predicate Valid() {
      2 <= |slot| < b
    }
  }

  // ---- What a batch must look like ---------------------------------------------------------

  /** Fields that every shard carries, whatever its content. */
  ghost predicate Numbered(hd: Header, c: Counts, x: nat, low: nat) {
    && hd.sequenceNumber == (low + x) % 0x1_0000
    && hd.fecInfo == PackFecInfo(x, c.dataShards, c.percentage)
  }

  /** The packet index counts in 24 bits; start and end of the block are flagged on its first and last packet. */
  ghost predicate DataHeader(hd: Header, packets: nat, x: nat, low: nat) {
    && hd.streamPacketIndex / 0x100 == (low + x) % 0x100_0000
    && hd.streamPacketIndex % 0x100 == 0
    && PicData in hd.flags
    && (StartOfFrame in hd.flags <==> x == 0)
    && (EndOfFrame in hd.flags <==> x == packets - 1)
  }

  ghost predicate PacketNumbered(hd: Header, c: Counts, x: nat, low: nat) {
    Numbered(hd, c, x, low) && (x < c.dataShards ==> DataHeader(hd, c.dataShards, x, low))
  }

  ghost predicate BatchNumbered(batch: Batch, low: nat) {
    && 0 < batch.counts.dataShards <= |batch.packets| == batch.counts.nrShards
    && forall x :: 0 <= x < |batch.packets| ==> PacketNumbered(batch.packets[x].header, batch.counts, x, low)
  }

  /** Microseconds in units of `1000 / 90`, an integer division, cut to 32 bits. */
  function Ticks(micros: nat): nat {
    micros / (1000 / 90) % 0x1_0000_0000
  }

  /** The count of whole units of 11 microseconds, which wraps around at 2^32. */
  lemma TicksAre(micros: nat, units: nat)
    requires 11 * units <= micros < 11 * units + 11
    ensures Ticks(micros) == units % 0x1_0000_0000
  {
    QuotientIs(micros, 11, units, micros - 11 * units);
  }

  /** Each shard carries the first byte of its RTP header and the time at which it was stamped. */
  ghost predicate Stamped(su: Setup, ps: seq<Packet>, micros: nat -> nat) {
    forall x :: 0 <= x < |ps| ==>
      ps[x].header.timestamp == Ticks(micros(x)) && ps[x].header.rtpHeader == Or(0x80, su.extensionFlag)
  }

  /** Each batch was taken by the socket as `deliver` says, and stamped as `clock` says. */
  ghost predicate Taken(su: Setup, batches: seq<Batch>, deliver: nat -> Delivery, clock: (nat, nat) -> nat) {
    forall k :: 0 <= k < |batches| ==>
      batches[k].delivery == deliver(k) && Stamped(su, batches[k].packets, x => clock(k, x))
  }

  lemma OneMoreTaken(
    su: Setup, batches: seq<Batch>, batch: Batch, deliver: nat -> Delivery, clock: (nat, nat) -> nat)
    requires Taken(su, batches, deliver, clock) && batch.delivery == deliver(|batches|)
    requires Stamped(su, batch.packets, x => clock(|batches|, x))
    ensures Taken(su, batches + [batch], deliver, clock)
  {
    hide Stamped;
  }

  ghost predicate Tagged(p: Packet, b: nat, pts: int, index: nat, last: nat) {
    && |p.bytes| == b
    && p.header.frameIndex == pts
    && p.header.multiFecBlocks == Or(index * 0x10, last * 0x40)
  }

  function DataShardCount(payload: seq<Byte>, b: nat): (n: nat)
    requires 0 < b && payload != []
    ensures 0 < n == Pieces(|payload|, b)
  {
    PiecesIs(|payload|, b, Pieces(|payload|, b));
    Pieces(|payload|, b)
  }

  /** The bytes of the packets, one after the other. */
  function Shards(b: nat, ps: seq<Packet>): seq<Byte> {
    if ps == [] then [] else Shards(b, ps[..|ps| - 1]) + ps[|ps| - 1].bytes
  }

  /** Numbered, tagged with its place in the frame, and carrying the encoded payload shard by shard. */
  ghost predicate OnWire(su: Setup, batch: Batch, payload: seq<Byte>, low: nat, pts: int, index: nat, last: nat)
    requires su.Valid() && payload != []
  {
    var c := batch.counts;
    && c == Choose(DataShardCount(payload, su.b), su.percentage, su.minimum, su.max)
    && BatchNumbered(batch, low)
    && (forall x :: 0 <= x < |batch.packets| ==> Tagged(batch.packets[x], su.b, pts, index, last))
    && Shards(su.b, batch.packets) == Buffer(payload, su.b, c, su.max, su.rs)
  }

  lemma ShardsAppend(b: nat, ps: seq<Packet>, p: Packet)
    ensures Shards(b, []) == [] && Shards(b, ps + [p]) == Shards(b, ps) + p.bytes
  {
    assert (ps + [p])[..|ps|] == ps;
  }

  function Total(batches: seq<Batch>): nat {
    if batches == [] then 0 else Total(batches[..|batches| - 1]) + |batches[|batches| - 1].packets|
  }

  // ---- What a frame must look like -----------------------------------------------------------

  ghost function Headered(su: Setup, frame: seq<Byte>): (r: seq<Byte>)
    requires su.Valid() && frame != []
  {
    Interleave(su.slot, su.b - |su.slot|, frame)
  }

  function LastIndex(blocks: nat): nat {
    if blocks > 1 then 2 else 0
  }

  function Packets(su: Setup, frame: seq<Byte>): nat
    requires su.Valid()
  {
    Pieces(|frame|, su.b - |su.slot|)
  }

  lemma HeaderedCut(su: Setup, frame: seq<Byte>)
    requires su.Valid() && frame != []
    ensures var payload := Headered(su, frame);
      && (|payload| > MULTI_FEC_PACKETS * su.b ==> 2 * Aligned(|payload|, su.b) <= |payload|)
      && Cut(payload, su.b, |su.slot|, Packets(su, frame), Blocks(payload, su.b))
      && forall k :: 0 <= k < |Blocks(payload, su.b)| ==> Blocks(payload, su.b)[k] != []
  {
    var e := Packets(su, frame);
    var payload := Headered(su, frame);
    InterleaveLength(su.slot, su.b - |su.slot|, frame, e);
    BlocksCut(payload, su.b, |su.slot|, e);
    var bs := Blocks(payload, su.b);
    forall k | 0 <= k < |bs|
      ensures bs[k] != []
    {
      PiecesIs(|bs[k]|, su.b, 0);
    }
  }

  ghost function FrameBlocks(su: Setup, frame: seq<Byte>): (bs: seq<seq<Byte>>)
    requires su.Valid() && frame != []
    ensures 0 < |bs| && forall k :: 0 <= k < |bs| ==> bs[k] != []
  {
    HeaderedCut(su, frame);
    Blocks(Headered(su, frame), su.b)
  }

  /** The first blocks, each in a batch of its own, the sequence numbers running on from batch to batch. */
  ghost predicate BlocksOnWire(
    su: Setup, batches: seq<Batch>, blocks: seq<seq<Byte>>, low: nat, pts: int, last: nat)
    requires su.Valid() && |batches| <= |blocks|
    requires forall k :: 0 <= k < |blocks| ==> blocks[k] != []
    decreases |batches|
  {
    var n := |batches| - 1;
    batches == [] || (
      && BlocksOnWire(su, batches[..n], blocks, low, pts, last)
      && OnWire(su, batches[n], blocks[n], low + Total(batches[..n]), pts, n, last))
  }

  ghost predicate FrameOnWire(su: Setup, batches: seq<Batch>, frame: seq<Byte>, low: nat, pts: int)
    requires su.Valid() && frame != []
  {
    var bs := FrameBlocks(su, frame);
    |batches| == |bs| && BlocksOnWire(su, batches, bs, low, pts, LastIndex(|bs|))
  }

  lemma OneMoreBlock(
    su: Setup, batches: seq<Batch>, blocks: seq<seq<Byte>>, low: nat, pts: int, last: nat, batch: Batch)
    requires su.Valid() && |batches| < |blocks|
    requires forall k :: 0 <= k < |blocks| ==> blocks[k] != []
    requires BlocksOnWire(su, batches, blocks, low, pts, last)
    requires OnWire(su, batch, blocks[|batches|], low + Total(batches), pts, |batches|, last)
    ensures BlocksOnWire(su, batches + [batch], blocks, low, pts, last)
    ensures Total(batches + [batch]) == Total(batches) + |batch.packets|
  {
    hide OnWire;
    assert (batches + [batch])[..|batches|] == batches;
  }

  // ---- Nothing is lost -------------------------------------------------------------------------

  predicate Long(h: nat, ps: seq<Packet>) {
    forall i :: 0 <= i < |ps| ==> h <= |ps[i].bytes|
  }

  /** What a receiver keeps of a run of data packets: everything behind the header. */
  function Bodies(h: nat, ps: seq<Packet>): seq<Byte>
    requires Long(h, ps)
  {
    if ps == [] then [] else Bodies(h, ps[..|ps| - 1]) + ps[|ps| - 1].bytes[h..]
  }

  predicate Readable(h: nat, batch: Batch) {
    && batch.counts.dataShards <= |batch.packets|
    && forall i :: 0 <= i < |batch.packets| ==> h <= |batch.packets[i].bytes|
  }

  /** The data packets of one batch without their headers. */
  function Data(h: nat, batch: Batch): seq<Byte>
    requires Readable(h, batch)
  {
    Bodies(h, batch.packets[..batch.counts.dataShards])
  }

  function Received(h: nat, batches: seq<Batch>): seq<Byte>
    requires forall k :: 0 <= k < |batches| ==> Readable(h, batches[k])
  {
    if batches == [] then []
    else assert Readable(h, batches[0]); Data(h, batches[0]) + Received(h, batches[1..])
  }

  lemma {:induction false} BodiesStrip(h: nat, b: nat, ps: seq<Packet>)
    requires h < b && forall i :: 0 <= i < |ps| ==> |ps[i].bytes| == b
    ensures |Shards(b, ps)| == |ps| * b && Bodies(h, ps) == Strip(h, b, Shards(b, ps))
  {
    if ps != [] {
      var n := |ps| - 1;
      BodiesStrip(h, b, ps[..n]);
      StripConcat(h, b, Shards(b, ps[..n]), ps[n].bytes, n);
      MulOrder(n, n, b);
    }
  }

  lemma {:induction false} ShardsPrefix(b: nat, ps: seq<Packet>, d: nat)
    requires d <= |ps| && forall i :: 0 <= i < |ps| ==> |ps[i].bytes| == b
    ensures d * b <= |Shards(b, ps)| == |ps| * b && Shards(b, ps[..d]) == Shards(b, ps)[..d * b]
  {
    var n := |ps| - 1;
    if d == |ps| {
      assert ps[..d] == ps;
      if d > 0 {
        ShardsPrefix(b, ps[..n], n);
        MulOrder(n, n, b);
      }
    } else {
      ShardsPrefix(b, ps[..n], d);
      MulOrder(n, n, b);
      assert ps[..n][..d] == ps[..d];
    }
  }

  /** The last packet of a block reaches past its header. */
  ghost predicate LongEnough(h: nat, b: nat, payload: seq<Byte>)
    requires h < b
  {
    (Pieces(|payload|, b) - 1) * b + h < |payload|
  }

  function Pad(b: nat, payload: seq<Byte>): (n: nat)
    requires 0 < b
    ensures n < b
  {
    PiecesIs(|payload|, b, Pieces(|payload|, b));
    Pieces(|payload|, b) * b - |payload|
  }

  ghost predicate Returns(su: Setup, batch: Batch, payload: seq<Byte>)
    requires su.Valid()
  {
    && Readable(|su.slot|, batch)
    && Data(|su.slot|, batch) == Strip(|su.slot|, su.b, payload) + Zeros(Pad(su.b, payload))
  }

  /** The data packets of a block give back its payload without headers, and then zeros. */
  lemma BlockReceived(su: Setup, batch: Batch, payload: seq<Byte>, low: nat, pts: int, index: nat, last: nat)
    requires su.Valid() && payload != [] && OnWire(su, batch, payload, low, pts, index, last)
    requires LongEnough(|su.slot|, su.b, payload)
    ensures Returns(su, batch, payload)
  {
    var h, b, d := |su.slot|, su.b, batch.counts.dataShards;
    assert forall x :: 0 <= x < |batch.packets| ==> Tagged(batch.packets[x], b, pts, index, last);
    BodiesStrip(h, b, batch.packets[..d]);
    ShardsPrefix(b, batch.packets, d);
    assert Shards(b, batch.packets[..d]) == DataRegion(payload, b);
    StripPadded(h, b, payload, Pad(b, payload), d);
  }

  lemma ReceivedOne(h: nat, x: Batch)
    requires Readable(h, x)
    ensures Received(h, [x]) == Data(h, x)
  {
    assert [x][1..] == [];
  }

  lemma ReceivedThree(h: nat, x: Batch, y: Batch, z: Batch)
    requires Readable(h, x) && Readable(h, y) && Readable(h, z)
    ensures Received(h, [x, y, z]) == Data(h, x) + Data(h, y) + Data(h, z)
  {
    assert [x, y, z][1..] == [y, z] && [y, z][1..] == [z];
    ReceivedOne(h, z);
  }

  lemma StripThree(h: nat, b: nat, x: seq<Byte>, y: seq<Byte>, z: seq<Byte>, t: nat)
    requires h < b && |x| == |y| == t * b
    ensures Strip(h, b, x + y + z) == Strip(h, b, x) + Strip(h, b, y) + Strip(h, b, z)
  {
    assert |x + y| == 2 * t * b;
    StripConcat(h, b, x + y, z, 2 * t);
    StripConcat(h, b, x, y, t);
  }

  /** Every batch gives back its block, padded to whole packets. */
  lemma {:induction false} EachReceived(
    su: Setup, batches: seq<Batch>, blocks: seq<seq<Byte>>, low: nat, pts: int, last: nat)
    requires su.Valid() && |batches| <= |blocks|
    requires forall k :: 0 <= k < |blocks| ==> blocks[k] != [] && LongEnough(|su.slot|, su.b, blocks[k])
    requires BlocksOnWire(su, batches, blocks, low, pts, last)
    ensures forall k :: 0 <= k < |batches| ==> Returns(su, batches[k], blocks[k])
    decreases |batches|
  {
    hide OnWire, Returns, LongEnough;
    if batches != [] {
      var n := |batches| - 1;
      EachReceived(su, batches[..n], blocks, low, pts, last);
      assert forall k :: 0 <= k < n ==> batches[..n][k] == batches[k];
      BlockReceived(su, batches[n], blocks[n], low + Total(batches[..n]), pts, n, last);
    }
  }

  lemma WholeReturns(su: Setup, batch: Batch, payload: seq<Byte>, t: nat)
    requires su.Valid() && Returns(su, batch, payload)
    requires |payload| == t * su.b && Pieces(|payload|, su.b) == t
    ensures Data(|su.slot|, batch) == Strip(|su.slot|, su.b, payload)
  {
    assert Zeros(0) == [];
  }

  lemma Regroup(x: seq<Byte>, y: seq<Byte>, z: seq<Byte>, pad: seq<Byte>)
    ensures x + y + (z + pad) == x + y + z + pad
  {
  }

  /** Three blocks, the first two of whole packets. */
  lemma ThreeReturn(
    su: Setup, p: Batch, q: Batch, r: Batch, x: seq<Byte>, y: seq<Byte>, z: seq<Byte>, t: nat)
    requires su.Valid() && Returns(su, p, x) && Returns(su, q, y) && Returns(su, r, z)
    requires |x| == |y| == t * su.b && Pieces(|x|, su.b) == Pieces(|y|, su.b) == t
    ensures Received(|su.slot|, [p, q, r]) == Strip(|su.slot|, su.b, x + y + z) + Zeros(Pad(su.b, z))
  {
    var h, b := |su.slot|, su.b;
    WholeReturns(su, p, x, t);
    WholeReturns(su, q, y, t);
    ReceivedThree(h, p, q, r);
    StripThree(h, b, x, y, z, t);
    Regroup(Strip(h, b, x), Strip(h, b, y), Strip(h, b, z), Zeros(Pad(b, z)));
  }

  lemma OneReturns(su: Setup, batch: Batch, payload: seq<Byte>)
    requires su.Valid() && Returns(su, batch, payload)
    ensures Received(|su.slot|, [batch]) == Strip(|su.slot|, su.b, payload) + Zeros(Pad(su.b, payload))
  {
    ReceivedOne(|su.slot|, batch);
  }

  /** The cut of a headered frame in the terms used above. */
  lemma CutLongEnough(payload: seq<Byte>, b: nat, h: nat, e: nat, bs: seq<seq<Byte>>)
    requires h < b && Cut(payload, b, h, e, bs)
    ensures 0 < |bs| && forall k :: 0 <= k < |bs| ==> LongEnough(h, b, bs[k])
  {
    forall k | 0 <= k < |bs|
      ensures LongEnough(h, b, bs[k])
    {
      if k < |bs| - 1 {
        MulOrder(Third(e) - 1, Third(e), b);
      }
    }
  }

  lemma AllReadable(su: Setup, batches: seq<Batch>, bs: seq<seq<Byte>>)
    requires su.Valid() && |batches| == |bs|
    requires forall k :: 0 <= k < |bs| ==> Returns(su, batches[k], bs[k])
    ensures forall k :: 0 <= k < |batches| ==> Readable(|su.slot|, batches[k])
  {
    forall k | 0 <= k < |batches|
      ensures Readable(|su.slot|, batches[k])
    {
      assert Returns(su, batches[k], bs[k]);
    }
  }

  lemma CutJoins(payload: seq<Byte>, b: nat, h: nat, e: nat, bs: seq<seq<Byte>>)
    requires 0 < b && Cut(payload, b, h, e, bs)
    ensures |bs| == 1 ==> bs[0] == payload
    ensures |bs| != 1 ==> |bs| == 3 && bs[0] + bs[1] + bs[2] == payload
    ensures |bs| != 1 ==> |bs[0]| == |bs[1]| == Third(e) * b && Pieces(|bs[0]|, b) == Pieces(|bs[1]|, b) == Third(e)
  {
    if |bs| == 1 {
      ConcatOne(bs[0]);
      assert bs == [bs[0]];
    } else {
      ConcatThree(bs[0], bs[1], bs[2]);
      assert bs == [bs[0], bs[1], bs[2]];
    }
  }

  lemma AllReturn(su: Setup, batches: seq<Batch>, frame: seq<Byte>, bs: seq<seq<Byte>>)
    requires su.Valid() && frame != [] && |batches| == |bs| > 0
    requires Cut(Headered(su, frame), su.b, |su.slot|, Packets(su, frame), bs)
    requires forall k :: 0 <= k < |bs| ==> Returns(su, batches[k], bs[k])
    ensures forall k :: 0 <= k < |batches| ==> Readable(|su.slot|, batches[k])
    ensures Received(|su.slot|, batches) == frame + Zeros(Pad(su.b, bs[|bs| - 1]))
  {
    hide Strip, Interleave, Cut, Pieces, Returns, Data, Received;
    AllReadable(su, batches, bs);
    StripInterleave(su.slot, su.b - |su.slot|, frame);
    CutJoins(Headered(su, frame), su.b, |su.slot|, Packets(su, frame), bs);
    if |bs| == 1 {
      assert batches == [batches[0]];
      OneReturns(su, batches[0], bs[0]);
    } else {
      assert batches == [batches[0], batches[1], batches[2]];
      ThreeReturn(su, batches[0], batches[1], batches[2], bs[0], bs[1], bs[2], Third(Packets(su, frame)));
    }
  }

  /**
   End to end: the data shards of all blocks, in order and without their headers, are the
   frame followed by the zero padding of the last shard.
   */
  lemma FrameReceived(su: Setup, batches: seq<Batch>, frame: seq<Byte>, low: nat, pts: int)
    requires su.Valid() && frame != [] && FrameOnWire(su, batches, frame, low, pts)
    ensures forall k :: 0 <= k < |batches| ==> Readable(|su.slot|, batches[k])
    ensures var bs := FrameBlocks(su, frame);
      Received(|su.slot|, batches) == frame + Zeros(Pad(su.b, bs[|bs| - 1]))
  {
    var bs := FrameBlocks(su, frame);
    HeaderedCut(su, frame);
    CutLongEnough(Headered(su, frame), su.b, |su.slot|, Packets(su, frame), bs);
    EachReceived(su, batches, bs, low, pts, LastIndex(|bs|));
    AllReturn(su, batches, frame, bs);
  }

  // ---- Shards and blocks in place --------------------------------------------------------------

  lemma ShardAt(b: nat, ps: seq<Packet>, i: nat, at: nat)
    requires i < |ps| && at == i * b && forall j :: 0 <= j < |ps| ==> |ps[j].bytes| == b
    ensures at + b <= |Shards(b, ps)| && Shards(b, ps)[at..at + b] == ps[i].bytes
  {
    hide Shards;
    ShardsPrefix(b, ps, i + 1);
    ShardsPrefix(b, ps[..i + 1], i);
    MulOrder(i, i, b);
    ShardsAppend(b, ps[..i], ps[i]);
    assert ps[..i + 1][..i] == ps[..i] && ps[..i] + [ps[i]] == ps[..i + 1];
    assert Shards(b, ps)[..at + b][at..] == ps[i].bytes;
  }

  lemma DataShardsOfWire(su: Setup, batch: Batch, payload: seq<Byte>, low: nat, pts: int, index: nat, last: nat)
    requires su.Valid() && payload != [] && OnWire(su, batch, payload, low, pts, index, last)
    ensures batch.counts.dataShards == Pieces(|payload|, su.b) <= |batch.packets|
    ensures DataRegion(payload, su.b) <= Shards(su.b, batch.packets)
  {
  }

  lemma ThreeParts(x: seq<Byte>, y: seq<Byte>, z: seq<Byte>, whole: seq<Byte>)
    requires x + y + z == whole
    ensures whole[..|x|] == x && whole[|x|..|x| + |y|] == y && whole[|x| + |y|..] == z
  {
  }

  /** Block `k` of a cut starts `k` thirds into the frame. */
  lemma BlockOffset(payload: seq<Byte>, b: nat, h: nat, e: nat, bs: seq<seq<Byte>>, k: nat, first: nat, o: nat)
    requires h < b && Cut(payload, b, h, e, bs) && k < |bs| && first == k * Third(e) && o == first * b
    ensures o + |bs[k]| <= |payload| && payload[o..o + |bs[k]|] == bs[k]
    ensures first + Pieces(|bs[k]|, b) <= e
  {
    hide Concat, Pieces, Third;
    CutJoins(payload, b, h, e, bs);
    if |bs| != 1 {
      var t := Third(e);
      ThreeParts(bs[0], bs[1], bs[2], payload);
      assert first == (if k == 0 then 0 else if k == 1 then t else 2 * t);
      assert o == (if k == 0 then 0 else if k == 1 then t * b else t * b + t * b) by { Distribute(t, t, b); }
    }
  }

  lemma {:induction false} OnWireAt(
    su: Setup, batches: seq<Batch>, blocks: seq<seq<Byte>>, low: nat, pts: int, last: nat, k: nat)
    requires su.Valid() && k < |batches| <= |blocks|
    requires forall j :: 0 <= j < |blocks| ==> blocks[j] != []
    requires BlocksOnWire(su, batches, blocks, low, pts, last)
    ensures OnWire(su, batches[k], blocks[k], low + Total(batches[..k]), pts, k, last)
    decreases |batches|
  {
    hide OnWire;
    var n := |batches| - 1;
    if k < n {
      OnWireAt(su, batches[..n], blocks, low, pts, last, k);
      assert batches[..n][..k] == batches[..k];
    }
  }

  lemma FrameIsCut(su: Setup, frame: seq<Byte>)
    requires su.Valid() && frame != []
    ensures Cut(Headered(su, frame), su.b, |su.slot|, Packets(su, frame), FrameBlocks(su, frame))
  {
    HeaderedCut(su, frame);
  }

  // ---- The parity advertised --------------------------------------------------------------------

  lemma BatchExact(su: Setup, batch: Batch, payload: seq<Byte>, low: nat, pts: int, index: nat, last: nat)
    requires su.Valid() && payload != [] && OnWire(su, batch, payload, low, pts, index, last)
    requires Pieces(|payload|, su.b) <= 100
    ensures Exact(batch.counts)
  {
    ExactUpToHundred(DataShardCount(payload, su.b), su.percentage, su.minimum, su.max);
  }

  lemma {:induction false} BlocksExact(
    su: Setup, batches: seq<Batch>, blocks: seq<seq<Byte>>, low: nat, pts: int, last: nat)
    requires su.Valid() && |batches| <= |blocks|
    requires forall k :: 0 <= k < |blocks| ==> blocks[k] != [] && Pieces(|blocks[k]|, su.b) <= 100
    requires BlocksOnWire(su, batches, blocks, low, pts, last)
    ensures forall k :: 0 <= k < |batches| ==> Exact(batches[k].counts)
    decreases |batches|
  {
    hide OnWire, Exact;
    if batches != [] {
      var n := |batches| - 1;
      BlocksExact(su, batches[..n], blocks, low, pts, last);
      assert forall k :: 0 <= k < n ==> batches[..n][k] == batches[k];
      BatchExact(su, batches[n], blocks[n], low + Total(batches[..n]), pts, n, last);
    }
  }

  /** Up to 300 packets in a frame, every batch advertises exactly the parity it carries. */
  lemma {:induction false} FrameExact(su: Setup, batches: seq<Batch>, frame: seq<Byte>, low: nat, pts: int)
    requires su.Valid() && frame != [] && FrameOnWire(su, batches, frame, low, pts)
    requires Packets(su, frame) <= 300
    ensures forall k :: 0 <= k < |batches| ==> Exact(batches[k].counts)
  {
    var bs := FrameBlocks(su, frame);
    HeaderedCut(su, frame);
    assert forall k :: 0 <= k < |bs| ==> Pieces(|bs[k]|, su.b) <= 100;
    BlocksExact(su, batches, bs, low, pts, LastIndex(|bs|));
  }

  // ---- Numbers over the whole stream ------------------------------------------------------------

  function Flatten(batches: seq<Batch>): seq<Packet> {
    if batches == [] then [] else Flatten(batches[..|batches| - 1]) + batches[|batches| - 1].packets
  }

  /** Every batch is numbered from where the one before it ended, the first one from `low`. */
  ghost predicate RunsFrom(batches: seq<Batch>, low: nat) {
    var n := |batches| - 1;
    batches == [] || (RunsFrom(batches[..n], low) && BatchNumbered(batches[n], low + Total(batches[..n])))
  }

  /** What the session's number counts: the batches of the frames that were sent without an exception. */
  function Saved(attempts: seq<Attempt>): seq<Batch> {
    if attempts == [] then []
    else
      var a := attempts[|attempts| - 1];
      Saved(attempts[..|attempts| - 1]) + if a.ok then a.batches else []
  }

  predicate Throws(batch: Batch) {
    batch.delivery.OneByOne? && batch.delivery.throwsAt < |batch.packets|
  }

  /** Only the last batch of an attempt may have thrown. */
  predicate Handed(a: Attempt) {
    var n := |a.batches| - 1;
    && a.batches != []
    && (forall k :: 0 <= k < n ==> !Throws(a.batches[k]))
    && a.ok == !Throws(a.batches[n])
  }

  /** Every frame is numbered on from the frames saved before it. */
  ghost predicate Continues(attempts: seq<Attempt>) {
    var n := |attempts| - 1;
    attempts == [] || (
      && Continues(attempts[..n])
      && Handed(attempts[n])
      && RunsFrom(attempts[n].batches, Total(Saved(attempts[..n]))))
  }

  lemma {:induction false} TotalConcat(a: seq<Batch>, b: seq<Batch>)
    ensures Total(a + b) == Total(a) + Total(b)
  {
    if b == [] {
      assert a + b == a;
    } else {
      var n := |b| - 1;
      assert (a + b)[..|a| + n] == a + b[..n];
      TotalConcat(a, b[..n]);
    }
  }

  lemma {:induction false} RunsConcat(a: seq<Batch>, b: seq<Batch>, low: nat)
    requires RunsFrom(a, low) && RunsFrom(b, low + Total(a))
    ensures RunsFrom(a + b, low)
  {
    hide BatchNumbered;
    if b == [] {
      assert a + b == a;
    } else {
      var n := |b| - 1;
      assert (a + b)[..|a| + n] == a + b[..n];
      RunsConcat(a, b[..n], low);
      TotalConcat(a, b[..n]);
    }
  }

  lemma NothingRuns(low: nat)
    ensures RunsFrom([], low)
  {
  }

  lemma {:induction false} SavedRuns(attempts: seq<Attempt>)
    requires Continues(attempts)
    ensures RunsFrom(Saved(attempts), 0)
  {
    hide RunsFrom;
    if attempts == [] {
      NothingRuns(0);
    } else {
      var n := |attempts| - 1;
      var before := Saved(attempts[..n]);
      SavedRuns(attempts[..n]);
      if attempts[n].ok {
        RunsConcat(before, attempts[n].batches, 0);
      } else {
        assert Saved(attempts) == before;
      }
    }
  }

  lemma BatchNumbers(batch: Batch, low: nat)
    requires BatchNumbered(batch, low)
    ensures forall x :: 0 <= x < |batch.packets| ==> batch.packets[x].header.sequenceNumber == (low + x) % 0x1_0000
  {
    forall x | 0 <= x < |batch.packets|
      ensures batch.packets[x].header.sequenceNumber == (low + x) % 0x1_0000
    {
      assert PacketNumbered(batch.packets[x].header, batch.counts, x, low);
    }
  }

  /** The numbers of a run of batches that starts at `low`. */
  lemma {:induction false} RunNumbers(batches: seq<Batch>, low: nat)
    requires RunsFrom(batches, low)
    ensures |Flatten(batches)| == Total(batches)
    ensures forall i :: 0 <= i < Total(batches) ==>
      Flatten(batches)[i].header.sequenceNumber == (low + i) % 0x1_0000
  {
    hide BatchNumbered;
    if batches != [] {
      var n := |batches| - 1;
      RunNumbers(batches[..n], low);
      BatchNumbers(batches[n], low + Total(batches[..n]));
    }
  }

  /**
   Packet `i` of all frames sent without an exception, parity or data, in whatever block and
   frame, carries `i` modulo 2^16.
   */
  lemma StreamNumbers(attempts: seq<Attempt>)
    requires Continues(attempts)
    ensures var stream := Flatten(Saved(attempts));
      && |stream| == Total(Saved(attempts))
      && forall i :: 0 <= i < |stream| ==> stream[i].header.sequenceNumber == i % 0x1_0000
  {
    SavedRuns(attempts);
    RunNumbers(Saved(attempts), 0);
  }

  lemma {:induction false} AttemptRuns(attempts: seq<Attempt>, j: nat)
    requires Continues(attempts) && j < |attempts|
    ensures Handed(attempts[j]) && RunsFrom(attempts[j].batches, Total(Saved(attempts[..j])))
    decreases |attempts|
  {
    hide RunsFrom, Handed;
    var n := |attempts| - 1;
    if j < n {
      AttemptRuns(attempts[..n], j);
      assert attempts[..n][..j] == attempts[..j];
    }
  }

  /** A run that is not empty holds a packet. */
  lemma RunHasPackets(batches: seq<Batch>, low: nat)
    requires RunsFrom(batches, low) && batches != []
    ensures 0 < Total(batches)
  {
  }

  // ---- Numbers on the wire -----------------------------------------------------------------------

  /** The packets of a batch that go out, in order. */
  function Out(batch: Batch): seq<Packet> {
    var ps := batch.packets;
    match batch.delivery
    case Whole => ps
    case OneByOne(early, throwsAt) => ps[..Shorter(early, |ps|)] + ps[..Shorter(throwsAt, |ps|)]
  }

  /** The position behind the packet that went out last. */
  function OutTo(batch: Batch): (r: nat)
    ensures r <= |batch.packets|
    ensures !Throws(batch) ==> r == |batch.packets|
  {
    var n := |batch.packets|;
    match batch.delivery
    case Whole => n
    case OneByOne(early, throwsAt) => if throwsAt > 0 then Shorter(throwsAt, n) else Shorter(early, n)
  }

  /** Nothing goes out twice, or exactly 2^16 packets do. */
  predicate NoResend(batch: Batch) {
    batch.delivery.OneByOne? ==>
      batch.delivery.throwsAt == 0 || Shorter(batch.delivery.early, |batch.packets|) % 0x1_0000 == 0
  }

  function WireOf(batches: seq<Batch>): seq<Packet> {
    if batches == [] then [] else WireOf(batches[..|batches| - 1]) + Out(batches[|batches| - 1])
  }

  /** The position, counted from the start of the frame, behind the packet that went out last. */
  function Reach(batches: seq<Batch>): nat {
    if batches == [] then 0 else Total(batches[..|batches| - 1]) + OutTo(batches[|batches| - 1])
  }

  /** All that goes out in the session. */
  function Wire(attempts: seq<Attempt>): seq<Packet> {
    if attempts == [] then [] else Wire(attempts[..|attempts| - 1]) + WireOf(attempts[|attempts| - 1].batches)
  }

  predicate Follows(p: Packet, q: Packet) {
    q.header.sequenceNumber == (p.header.sequenceNumber + 1) % 0x1_0000
  }

  /** Sequence numbers count up by one modulo 2^16. */
  ghost predicate Consecutive(ps: seq<Packet>) {
    forall i :: 0 <= i < |ps| - 1 ==> Follows(ps[i], ps[i + 1])
  }

  /** A run of packets from the number `low` on; the next number would be `next`. */
  ghost predicate Spans(ps: seq<Packet>, low: nat, next: nat) {
    ps != [] ==>
      && ps[0].header.sequenceNumber == low % 0x1_0000
      && (ps[|ps| - 1].header.sequenceNumber + 1) % 0x1_0000 == next % 0x1_0000
  }

  lemma NothingConsecutive()
    ensures Consecutive([])
  {
  }

  lemma NothingSpans(low: nat)
    ensures Spans([], low, low)
  {
  }

  lemma JoinedIff(p: seq<Packet>, q: seq<Packet>)
    ensures Consecutive(p + q) <==>
      Consecutive(p) && Consecutive(q) && (p != [] && q != [] ==> Follows(p[|p| - 1], q[0]))
  {
    var r := p + q;
    assert forall i :: 0 <= i < |p| ==> r[i] == p[i];
    assert forall i :: 0 <= i < |q| ==> r[|p| + i] == q[i];
    if Consecutive(r) {
      forall i | 0 <= i < |q| - 1
        ensures Follows(q[i], q[i + 1])
      {
        assert Follows(r[|p| + i], r[|p| + i + 1]);
      }
      if p != [] && q != [] {
        assert Follows(r[|p| - 1], r[|p| - 1 + 1]);
      }
    }
    if Consecutive(p) && Consecutive(q) && (p != [] && q != [] ==> Follows(p[|p| - 1], q[0])) {
      forall i | 0 <= i < |r| - 1
        ensures Follows(r[i], r[i + 1])
      {
        if i >= |p| {
          assert Follows(q[i - |p|], q[i - |p| + 1]);
        }
      }
    }
  }

  lemma NextOf(n: nat)
    ensures (n % 0x1_0000 + 1) % 0x1_0000 == (n + 1) % 0x1_0000
  {
  }

  /** The first `n` packets of a batch. */
  lemma FrontSpans(batch: Batch, low: nat, n: nat)
    requires BatchNumbered(batch, low) && n <= |batch.packets|
    ensures Consecutive(batch.packets[..n]) && Spans(batch.packets[..n], low, low + n)
  {
    hide PacketNumbered, BatchNumbered;
    BatchNumbers(batch, low);
    var ps := batch.packets[..n];
    assert forall i :: 0 <= i < n ==> ps[i].header.sequenceNumber == (low + i) % 0x1_0000;
    forall i | 0 <= i < n - 1
      ensures Follows(ps[i], ps[i + 1])
    {
      NextOf(low + i);
    }
    if n > 0 {
      NextOf(low + n - 1);
    }
  }

  lemma SameNumber(low: nat, n: nat)
    ensures low % 0x1_0000 == (low + n) % 0x1_0000 <==> n % 0x1_0000 == 0
  {
  }

  lemma NotEmpty(batch: Batch, low: nat)
    requires BatchNumbered(batch, low)
    ensures 0 < |batch.packets|
  {
  }

  lemma OutSpans(batch: Batch, low: nat)
    requires BatchNumbered(batch, low)
    ensures Out(batch) != [] <==> OutTo(batch) > 0
    ensures Spans(Out(batch), low, low + OutTo(batch))
    ensures Consecutive(Out(batch)) <==> NoResend(batch)
  {
    hide BatchNumbered, Consecutive;
    var ps := batch.packets;
    assert 0 < |ps| by { NotEmpty(batch, low); }
    match batch.delivery
    case Whole =>
      assert ps[..|ps|] == ps;
      FrontSpans(batch, low, |ps|);
    case OneByOne(early, throwsAt) =>
      var e, t := Shorter(early, |ps|), Shorter(throwsAt, |ps|);
      FrontSpans(batch, low, e);
      FrontSpans(batch, low, t);
      JoinedIff(ps[..e], ps[..t]);
      SameNumber(low, e);
  }

  lemma SpansJoin(p: seq<Packet>, q: seq<Packet>, low: nat, mid: nat, next: nat)
    requires Spans(p, low, mid) && Spans(q, mid, next)
    requires (p == [] ==> low == mid) && (q == [] ==> mid == next)
    ensures Spans(p + q, low, next)
    ensures Consecutive(p + q) <==> Consecutive(p) && Consecutive(q)
  {
    hide Consecutive;
    JoinedIff(p, q);
  }

  /** A frame of which every batch went out to its end. */
  lemma ReachWhole(batches: seq<Batch>)
    requires forall k :: 0 <= k < |batches| ==> !Throws(batches[k])
    ensures Reach(batches) == Total(batches)
  {
  }

  /** What goes out of one frame counts up from its first number exactly when nothing goes out twice. */
  lemma {:induction false} FrameSpans(batches: seq<Batch>, low: nat)
    requires RunsFrom(batches, low) && forall k :: 0 <= k < |batches| - 1 ==> !Throws(batches[k])
    ensures WireOf(batches) != [] <==> Reach(batches) > 0
    ensures Spans(WireOf(batches), low, low + Reach(batches))
    ensures Consecutive(WireOf(batches)) <==> forall k :: 0 <= k < |batches| ==> NoResend(batches[k])
    decreases |batches|
  {
    hide BatchNumbered, Out, OutTo, NoResend, Consecutive, Spans, Throws;
    NothingConsecutive();
    NothingSpans(low);
    if batches != [] {
      var n := |batches| - 1;
      var front, last := batches[..n], batches[n];
      assert forall k :: 0 <= k < n ==> front[k] == batches[k];
      FrameSpans(front, low);
      ReachWhole(front);
      OutSpans(last, low + Total(front));
      SpansJoin(WireOf(front), Out(last), low, low + Total(front), low + Reach(batches));
    }
  }

  lemma {:induction false} RunsAt(batches: seq<Batch>, low: nat, k: nat)
    requires RunsFrom(batches, low) && k < |batches|
    ensures BatchNumbered(batches[k], low + Total(batches[..k]))
    decreases |batches|
  {
    hide BatchNumbered;
    var n := |batches| - 1;
    if k < n {
      RunsAt(batches[..n], low, k);
      assert batches[..n][..k] == batches[..k];
    }
  }

  lemma FirstNumber(batches: seq<Batch>, low: nat)
    requires RunsFrom(batches, low) && batches != []
    ensures batches[0].packets != [] && batches[0].packets[0].header.sequenceNumber == low % 0x1_0000
  {
    RunsAt(batches, low, 0);
    BatchNumbers(batches[0], low);
  }

  lemma SavedStep(attempts: seq<Attempt>, j: nat)
    requires j < |attempts|
    ensures Total(Saved(attempts[..j + 1])) ==
      Total(Saved(attempts[..j])) + if attempts[j].ok then Total(attempts[j].batches) else 0
  {
    hide Total;
    assert attempts[..j + 1][..j] == attempts[..j];
    if attempts[j].ok {
      TotalConcat(Saved(attempts[..j]), attempts[j].batches);
    } else {
      assert Saved(attempts[..j]) + [] == Saved(attempts[..j]);
    }
  }

  /**
   The first number of a frame follows the last one that went out of the frame before exactly
   when sending that one did not throw, or a multiple of 2^16 packets was out: an exception
   leaves the session's number as it was, and the next frame takes the same numbers again.
   */
  lemma FollowsOnIff(attempts: seq<Attempt>, j: nat)
    requires Continues(attempts) && j + 1 < |attempts|
    ensures var a, b := attempts[j], attempts[j + 1].batches;
      var out := WireOf(a.batches);
      && b != [] && b[0].packets != []
      && (out != [] <==> Reach(a.batches) > 0)
      && (out != [] ==>
            (Follows(out[|out| - 1], b[0].packets[0]) <==> a.ok || Reach(a.batches) % 0x1_0000 == 0))
  {
    hide RunsFrom, WireOf, Reach, Total, Continues, Saved, Consecutive, NoResend, Throws;
    var a, b := attempts[j], attempts[j + 1];
    var low, low' := Total(Saved(attempts[..j])), Total(Saved(attempts[..j + 1]));
    AttemptRuns(attempts, j);
    AttemptRuns(attempts, j + 1);
    FrameSpans(a.batches, low);
    FirstNumber(b.batches, low');
    SavedStep(attempts, j);
    SameNumber(low, Reach(a.batches));
    if a.ok {
      ReachWhole(a.batches);
    }
  }

  /** How many numbers already on the wire the next frame takes again, modulo 2^16. */
  function Gap(attempts: seq<Attempt>): nat {
    if attempts == [] then 0
    else
      var a := attempts[|attempts| - 1];
      if WireOf(a.batches) == [] then Gap(attempts[..|attempts| - 1])
      else if a.ok then 0 else Reach(a.batches) % 0x1_0000
  }

  /** No batch is sent again from its start, and nothing follows a frame that threw after something went out. */
  ghost predicate Smooth(attempts: seq<Attempt>) {
    var n := |attempts| - 1;
    attempts == [] || (
      && Smooth(attempts[..n])
      && (forall k :: 0 <= k < |attempts[n].batches| ==> NoResend(attempts[n].batches[k]))
      && (WireOf(attempts[n].batches) == [] || Gap(attempts[..n]) == 0))
  }

  lemma AddMod(low: nat, n: nat)
    ensures (low + n % 0x1_0000) % 0x1_0000 == (low + n) % 0x1_0000
  {
  }

  /** The number after the last one of these packets is `next`. */
  ghost predicate EndsAt(ps: seq<Packet>, next: nat) {
    ps != [] ==> (ps[|ps| - 1].header.sequenceNumber + 1) % 0x1_0000 == next % 0x1_0000
  }

  /** A frame's part in this, when it went out at least in part and when it did not. */
  lemma EndsOn(a: Attempt, low: nat)
    requires Handed(a) && RunsFrom(a.batches, low)
    ensures WireOf(a.batches) == [] ==> !a.ok
    ensures EndsAt(WireOf(a.batches), low + if a.ok then Total(a.batches) else Reach(a.batches) % 0x1_0000)
  {
    hide RunsFrom, WireOf, Reach, Total;
    FrameSpans(a.batches, low);
    if a.ok {
      ReachWhole(a.batches);
      RunHasPackets(a.batches, low);
    } else {
      AddMod(low, Reach(a.batches));
    }
  }

  /** The number that would follow on the wire, against the one the next frame takes. */
  lemma {:induction false} WireEnds(attempts: seq<Attempt>)
    requires Continues(attempts)
    ensures EndsAt(Wire(attempts), Total(Saved(attempts)) + Gap(attempts))
    ensures Wire(attempts) == [] ==> Gap(attempts) == 0
  {
    hide RunsFrom, WireOf, Reach, Total, Handed, Saved;
    if attempts != [] {
      var n := |attempts| - 1;
      var a, low := attempts[n], Total(Saved(attempts[..n]));
      WireEnds(attempts[..n]);
      AttemptRuns(attempts, n);
      EndsOn(a, low);
      assert attempts[..n + 1] == attempts;
      SavedStep(attempts, n);
    }
  }

  lemma SameWithGap(low: nat, gap: nat)
    requires gap < 0x1_0000
    ensures low % 0x1_0000 == (low + gap) % 0x1_0000 <==> gap == 0
  {
    SameNumber(low, gap);
  }

  lemma {:induction false} GapSmall(attempts: seq<Attempt>)
    ensures Gap(attempts) < 0x1_0000
  {
    if attempts != [] {
      GapSmall(attempts[..|attempts| - 1]);
    }
  }

  /**
   Over any session, whatever is sent whole, shard by shard or not at all: the numbers on the
   wire count up by one throughout exactly when no batch was begun twice and nothing went out
   after a frame that threw with packets out, but for multiples of 2^16.
   */
  lemma {:induction false} WireConsecutiveIff(attempts: seq<Attempt>)
    requires Continues(attempts)
    ensures Consecutive(Wire(attempts)) <==> Smooth(attempts)
  {
    hide RunsFrom, WireOf, Reach, Consecutive, NoResend, Total, Gap;
    if attempts == [] {
      NothingConsecutive();
    } else {
      var n := |attempts| - 1;
      var a, front, low := attempts[n], attempts[..n], Total(Saved(attempts[..n]));
      WireConsecutiveIff(front);
      AttemptRuns(attempts, n);
      FrameSpans(a.batches, low);
      JoinedIff(Wire(front), WireOf(a.batches));
      WireEnds(front);
      GapSmall(front);
      SameWithGap(low, Gap(front));
    }
  }

  /** In particular when every batch goes out, whole or shard by shard from the start. */
  lemma {:induction false} SentIsSmooth(attempts: seq<Attempt>)
    requires forall j :: 0 <= j < |attempts| ==> attempts[j].ok
    requires forall j, k :: 0 <= j < |attempts| && 0 <= k < |attempts[j].batches| ==>
      attempts[j].batches[k].delivery.OneByOne? ==> attempts[j].batches[k].delivery.early == 0
    ensures Smooth(attempts) && Gap(attempts) == 0
  {
    hide WireOf, Reach;
    if attempts != [] {
      var n := |attempts| - 1;
      assert forall j :: 0 <= j < n ==> attempts[..n][j] == attempts[j];
      SentIsSmooth(attempts[..n]);
    }
  }

  lemma LowBits(n: nat)
    ensures n % 0x100_0000 % 0x1_0000 == n % 0x1_0000
  {
    var q, r := n / 0x100_0000, n % 0x100_0000;
    QuotientIs(n, 0x1_0000, q * 0x100 + r / 0x1_0000, r % 0x1_0000);
  }

  /** On data packets the stream packet index shifted down by 8 agrees with the sequence number. */
  lemma IndexAgrees(batch: Batch, low: nat, x: nat)
    requires BatchNumbered(batch, low) && x < batch.counts.dataShards
    ensures var hd := batch.packets[x].header;
      hd.streamPacketIndex / 0x100 % 0x1_0000 == hd.sequenceNumber
  {
    assert PacketNumbered(batch.packets[x].header, batch.counts, x, low);
    LowBits(low + x);
  }

  /** What every shard of a block says about itself can be read back while the fields are wide enough. */
  lemma InfoReadable(batch: Batch, low: nat, x: nat)
    requires BatchNumbered(batch, low) && x < |batch.packets|
    ensures var c := batch.counts;
      UnpackFecInfo(batch.packets[x].header.fecInfo) == (x, c.dataShards, c.percentage)
      <==> x < 0x400 && c.dataShards < 0x400 && c.percentage < 0x100
  {
    assert PacketNumbered(batch.packets[x].header, batch.counts, x, low);
    FecInfoIff(x, batch.counts.dataShards, batch.counts.percentage);
  }

  /** What a receiver relies on in every packet of a batch, wherever in the stream it stands. */
  ghost predicate Marked(hd: Header, c: Counts, x: nat) {
    && (UnpackFecInfo(hd.fecInfo) == (x, c.dataShards, c.percentage)
        <==> x < 0x400 && c.dataShards < 0x400 && c.percentage < 0x100)
    && (x < c.dataShards ==>
          && hd.streamPacketIndex / 0x100 % 0x1_0000 == hd.sequenceNumber
          && (StartOfFrame in hd.flags <==> x == 0)
          && (EndOfFrame in hd.flags <==> x == c.dataShards - 1))
  }

  ghost predicate AllMarked(batch: Batch) {
    forall x :: 0 <= x < |batch.packets| ==> Marked(batch.packets[x].header, batch.counts, x)
  }

  lemma BatchMarked(batch: Batch, low: nat)
    requires BatchNumbered(batch, low)
    ensures AllMarked(batch)
  {
    hide UnpackFecInfo, PackFecInfo;
    forall x | 0 <= x < |batch.packets|
      ensures Marked(batch.packets[x].header, batch.counts, x)
    {
      assert PacketNumbered(batch.packets[x].header, batch.counts, x, low);
      InfoReadable(batch, low, x);
      if x < batch.counts.dataShards {
        IndexAgrees(batch, low, x);
      }
    }
  }

  /** Every batch of every frame, sent or not, is marked in this way. */
  lemma StreamMarked(attempts: seq<Attempt>)
    requires Continues(attempts)
    ensures forall j, k :: 0 <= j < |attempts| && 0 <= k < |attempts[j].batches| ==> AllMarked(attempts[j].batches[k])
  {
    hide AllMarked, RunsFrom;
    forall j, k | 0 <= j < |attempts| && 0 <= k < |attempts[j].batches|
      ensures AllMarked(attempts[j].batches[k])
    {
      AttemptRuns(attempts, j);
      RunsAt(attempts[j].batches, Total(Saved(attempts[..j])), k);
      BatchMarked(attempts[j].batches[k], Total(Saved(attempts[..j])) + Total(attempts[j].batches[..k]));
    }
  }

  lemma DataPacketAt(batch: Batch, low: nat, x: nat)
    requires BatchNumbered(batch, low) && x < batch.counts.dataShards
    ensures x < |batch.packets|
    ensures var hd := batch.packets[x].header;
      && hd.sequenceNumber == (low + x) % 0x1_0000
      && hd.streamPacketIndex == (low + x) % 0x100_0000 * 0x100
      && PicData in hd.flags
  {
    hide PackFecInfo;
    assert PacketNumbered(batch.packets[x].header, batch.counts, x, low);
  }

  /** Where a data packet stands in the stream of frames saved before it and its own is what its header counts. */
  lemma StreamIndex(attempts: seq<Attempt>, j: nat, k: nat, x: nat)
    requires Continues(attempts) && j < |attempts| && k < |attempts[j].batches|
    requires x < attempts[j].batches[k].counts.dataShards
    ensures x < |attempts[j].batches[k].packets|
    ensures var hd := attempts[j].batches[k].packets[x].header;
      var i := Total(Saved(attempts[..j])) + Total(attempts[j].batches[..k]) + x;
      && hd.sequenceNumber == i % 0x1_0000
      && hd.streamPacketIndex == i % 0x100_0000 * 0x100
      && PicData in hd.flags
  {
    hide RunsFrom, BatchNumbered, Continues, Total, Saved;
    AttemptRuns(attempts, j);
    var low := Total(Saved(attempts[..j]));
    RunsAt(attempts[j].batches, low, k);
    DataPacketAt(attempts[j].batches[k], low + Total(attempts[j].batches[..k]), x);
  }

  lemma {:induction false} BlocksRun(
    su: Setup, batches: seq<Batch>, blocks: seq<seq<Byte>>, low: nat, pts: int, last: nat)
    requires su.Valid() && |batches| <= |blocks|
    requires forall k :: 0 <= k < |blocks| ==> blocks[k] != []
    requires BlocksOnWire(su, batches, blocks, low, pts, last)
    ensures RunsFrom(batches, low)
    decreases |batches|
  {
    if batches != [] {
      BlocksRun(su, batches[..|batches| - 1], blocks, low, pts, last);
    }
  }

  lemma OneMoreAttempt(attempts: seq<Attempt>, a: Attempt)
    requires Continues(attempts) && Handed(a) && RunsFrom(a.batches, Total(Saved(attempts)))
    ensures Continues(attempts + [a])
    ensures Saved(attempts + [a]) == Saved(attempts) + if a.ok then a.batches else []
    ensures Total(Saved(attempts + [a])) == Total(Saved(attempts)) + if a.ok then Total(a.batches) else 0
    ensures Wire(attempts + [a]) == Wire(attempts) + WireOf(a.batches)
  {
    assert (attempts + [a])[..|attempts|] == attempts;
    if a.ok {
      TotalConcat(Saved(attempts), a.batches);
    } else {
      assert Saved(attempts) + [] == Saved(attempts);
    }
  }

  /** The unit is not 1/90 ms: a second is 90909 ticks of the clock, not 90000. */
  lemma TicksPerSecond(seconds: nat)
    requires seconds < 40_000
    ensures Ticks(1_000_000) == 90_909 && 90_909 * seconds <= Ticks(1_000_000 * seconds)
  {
    var micros := 1_000_000 * seconds;
    var q, r := micros / 11, micros % 11;
    assert micros == 11 * q + r && 90_909 * seconds <= q < 0x1_0000_0000;
    assert Ticks(micros) == q;
  }

  /** Shifting left by 8 within 32 bits keeps the low 24 bits of the index. */
  lemma IndexField(low: nat, x: nat)
    ensures var word := (low % 0x1_0000_0000 + x) % 0x1_0000_0000 * 0x100 % 0x1_0000_0000;
      word / 0x100 == (low + x) % 0x100_0000 && word % 0x100 == 0
  {
    var a, l := low / 0x1_0000_0000, low % 0x1_0000_0000;
    var c, m := (l + x) / 0x1_0000_0000, (l + x) % 0x1_0000_0000;
    var q, r := m / 0x100_0000, m % 0x100_0000;
    QuotientIs(m * 0x100, 0x1_0000_0000, q, r * 0x100);
    QuotientIs(low + x, 0x100_0000, (a + c) * 0x100 + q, r);
    QuotientIs(r * 0x100, 0x100, r, 0);
  }

  lemma NoBlocks(
    su: Setup, blocks: seq<seq<Byte>>, low: nat, pts: int, last: nat,
    deliver: nat -> Delivery, clock: (nat, nat) -> nat)
    requires su.Valid() && forall k :: 0 <= k < |blocks| ==> blocks[k] != []
    ensures BlocksOnWire(su, [], blocks, low, pts, last) && Taken(su, [], deliver, clock)
    ensures Total([]) == 0 && WireOf([]) == []
  {
  }

  lemma WireAppend(batches: seq<Batch>, batch: Batch)
    ensures WireOf(batches + [batch]) == WireOf(batches) + Out(batch)
  {
    assert (batches + [batch])[..|batches|] == batches;
  }

  // ---- The class ------------------------------------------------------------------------------

  class Sender {
    const su: Setup
    var lowseq: nat
    ghost var attempts: seq<Attempt>  // what has been handed to the socket, frame by frame
    ghost var wire: seq<Packet>       // what of it went out

    ghost predicate Valid()
      reads this
    {
      && su.Valid()
      && Continues(attempts)
      && lowseq == Total(Saved(attempts))
      && wire == Wire(attempts)
    }

    constructor (su: Setup)
      requires su.Valid()
      ensures Valid() && this.su == su && attempts == [] && wire == [] && lowseq == 0
    {
      this.su := su;
      lowseq, attempts, wire := 0, [], [];
    }

    /** The first loop of a block: packet index and flags, written over the slots in place. */
    method StampHeaders(packets: nat, pts: int, index: nat, last: nat, low: nat) returns (headers: array<Header>)
      requires 0 < packets
      ensures fresh(headers) && headers.Length == packets
      ensures forall i :: 0 <= i < packets ==> DataHeader(headers[i], packets, i, low)
      ensures forall i :: 0 <= i < packets ==>
        headers[i].frameIndex == pts && headers[i].multiFecBlocks == Or(index * 0x10, last * 0x40)
    {
      headers := new Header[packets](_ => Header({PicData}, 0, 0, 0, 0, 0, 0, 0));
      for x := 0 to packets
        invariant forall i :: 0 <= i < x ==> DataHeader(headers[i], packets, i, low)
        invariant forall i :: 0 <= i < x ==>
          headers[i].frameIndex == pts && headers[i].multiFecBlocks == Or(index * 0x10, last * 0x40)
        invariant forall i :: x <= i < packets ==> headers[i].flags == {PicData}
      {
        var hd := headers[x].(
          frameIndex := pts,
          streamPacketIndex := (low % 0x1_0000_0000 + x) % 0x1_0000_0000 * 0x100 % 0x1_0000_0000,
          multiFecBlocks := Or(index * 0x10, last * 0x40));
        if x == 0 {
          hd := hd.(flags := hd.flags + {StartOfFrame});
        }
        if x == packets - 1 {
          hd := hd.(flags := hd.flags + {EndOfFrame});
        }
        IndexField(low, x);
        headers[x] := hd;
      }
    }

    /** The second loop: the fields known only after encoding, on data and parity shards alike. */
    method Finish(
      headers: array<Header>, c: Counts, shards: array<Byte>, pts: int, index: nat, last: nat, low: nat,
      micros: nat -> nat)
      returns (ps: seq<Packet>)
      requires su.Valid() && headers.Length == c.dataShards <= c.nrShards && shards.Length == c.nrShards * su.b
      requires forall i :: 0 <= i < headers.Length ==> DataHeader(headers[i], c.dataShards, i, low)
      ensures |ps| == c.nrShards && Shards(su.b, ps) == shards[..]
      ensures forall i :: 0 <= i < |ps| ==> PacketNumbered(ps[i].header, c, i, low)
      ensures forall i :: 0 <= i < |ps| ==> Tagged(ps[i], su.b, pts, index, last)
      ensures Stamped(su, ps, micros)
    {
      hide PackFecInfo, Or, Shards, Ticks;
      var b := su.b;
      ps := [];
      ghost var at := 0;
      assert Shards(b, ps) == [] by { ShardsAppend(b, ps, Packet(Header({}, 0, 0, 0, 0, 0, 0, 0), [])); }
      for x := 0 to c.nrShards
        invariant |ps| == x && at == x * b <= shards.Length && Shards(b, ps) == shards[..at]
        invariant forall i :: 0 <= i < x ==> PacketNumbered(ps[i].header, c, i, low)
        invariant forall i :: 0 <= i < x ==> Tagged(ps[i], b, pts, index, last)
        invariant Stamped(su, ps, micros)
      {
        assert at + b <= shards.Length && (x + 1) * b == at + b by {
          MulOrder(x, x, b);
          MulOrder(x + 1, c.nrShards, b);
        }
        var hd := if x < c.dataShards then headers[x] else su.rsHeader(headers[..], x - c.dataShards);
        hd := hd.(
          fecInfo := PackFecInfo(x, c.dataShards, c.percentage),
          sequenceNumber := (low + x) % 0x1_0000,
          rtpHeader := Or(0x80, su.extensionFlag),
          timestamp := Ticks(micros(x)),
          multiFecBlocks := Or(index * 0x10, last * 0x40),
          frameIndex := pts);
        var p := Packet(hd, shards[x * b..x * b + b]);
        ShardsAppend(b, ps, p);
        ps := ps + [p];
        at := at + b;
        assert shards[..at] == shards[..at - b] + p.bytes;
      }
      assert shards[..at] == shards[..];
    }

    /** One block: stamped, encoded, finished, and ready for the socket. */
    method MakeBatch(
      payload: seq<Byte>, pts: int, index: nat, last: nat, low: nat, micros: nat -> nat, delivery: Delivery)
      returns (batch: Batch)
      requires su.Valid() && payload != []
      ensures OnWire(su, batch, payload, low, pts, index, last) && Stamped(su, batch.packets, micros)
      ensures batch.delivery == delivery
    {
      var packets := (|payload| + (su.b - 1)) / su.b;
      assert packets == DataShardCount(payload, su.b) by {
        PiecesIs(|payload|, su.b, DataShardCount(payload, su.b));
      }
      var headers := StampHeaders(packets, pts, index, last, low);
      var c, shards := Encode(payload, su.b, su.percentage, su.minimum, su.max, su.rs);
      var ps := Finish(headers, c, shards, pts, index, last, low, micros);
      batch := Batch(c, ps, delivery);
    }

    /** The batched send and, when it fails, the loop that sends shard by shard and may throw. */
    method Transmit(batch: Batch) returns (out: seq<Packet>, threw: bool)
      ensures out == Out(batch) && threw == Throws(batch)
    {
      var ps := batch.packets;
      match batch.delivery {
        case Whole =>
          return ps, false;
        case OneByOne(early, throwsAt) =>
          out := ps[..Shorter(early, |ps|)];
          for x := 0 to |ps|
            invariant x <= throwsAt && out == ps[..Shorter(early, |ps|)] + ps[..x]
          {
            if x == throwsAt {
              return out, true;
            }
            out := out + [ps[x]];
          }
          return out, false;
      }
    }

    /** All blocks of a frame, up to the one whose sending throws. */
    method SendBlocks(
      blocks: seq<seq<Byte>>, pts: int, last: nat, deliver: nat -> Delivery, clock: (nat, nat) -> nat)
      returns (a: Attempt, out: seq<Packet>, low: nat)
      requires su.Valid() && blocks != [] && forall k :: 0 <= k < |blocks| ==> blocks[k] != []
      ensures Handed(a) && |a.batches| <= |blocks| && (a.ok ==> |a.batches| == |blocks|)
      ensures BlocksOnWire(su, a.batches, blocks, lowseq, pts, last)
      ensures Taken(su, a.batches, deliver, clock)
      ensures a.ok ==> low == lowseq + Total(a.batches)
      ensures out == WireOf(a.batches)
    {
      hide OnWire, BatchNumbered, Stamped, Taken, Out, Throws, BlocksOnWire, WireOf, Total;
      var batches: seq<Batch> := [];
      out, low := [], lowseq;
      NoBlocks(su, blocks, lowseq, pts, last, deliver, clock);
      for index := 0 to |blocks|
        invariant |batches| == index && low == lowseq + Total(batches) && out == WireOf(batches)
        invariant BlocksOnWire(su, batches, blocks, lowseq, pts, last)
        invariant forall k :: 0 <= k < |batches| ==> !Throws(batches[k])
        invariant Taken(su, batches, deliver, clock)
      {
        var batch := MakeBatch(blocks[index], pts, index, last, low, x => clock(index, x), deliver(index));
        OneMoreBlock(su, batches, blocks, lowseq, pts, last, batch);
        OneMoreTaken(su, batches, batch, deliver, clock);
        WireAppend(batches, batch);
        batches := batches + [batch];
        var sent, threw := Transmit(batch);
        out := out + sent;
        if threw {
          a := Attempt(batches, false);
          return;
        }
        low := low + |batch.packets|;
      }
      a := Attempt(batches, true);
    }

    /** One frame. The number is saved for the next frame only if no send threw. */
    method SendFrame(frame: seq<Byte>, pts: int, deliver: nat -> Delivery, clock: (nat, nat) -> nat)
      returns (a: Attempt)
      requires Valid() && frame != []
      modifies this
      ensures Valid() && attempts == old(attempts) + [a] && wire == old(wire) + WireOf(a.batches)
      ensures lowseq == old(lowseq) + if a.ok then Total(a.batches) else 0
      ensures var bs := FrameBlocks(su, frame);
        && Handed(a) && |a.batches| <= |bs| && (a.ok ==> |a.batches| == |bs|)
        && BlocksOnWire(su, a.batches, bs, old(lowseq), pts, LastIndex(|bs|))
      ensures a.ok ==> FrameOnWire(su, a.batches, frame, old(lowseq), pts)
      ensures Taken(su, a.batches, deliver, clock)
    {
      hide Interleave, BlocksOnWire, Saved, Continues, Total, RunsFrom, Handed, Stamped, WireOf, Wire;
      var buffer := InsertHeaders(su.slot, su.b - |su.slot|, frame);
      HeaderedCut(su, frame);
      var blocks := Blocks(buffer[..], su.b);
      var low, out;
      a, out, low := SendBlocks(blocks, pts, LastIndex(|blocks|), deliver, clock);
      BlocksRun(su, a.batches, blocks, lowseq, pts, LastIndex(|blocks|));
      OneMoreAttempt(attempts, a);
      attempts, wire := attempts + [a], wire + out;
      if a.ok {
        lowseq := low;
      }
    }
  }

  /** With a percentage as configured and room for one shard and its parity, every batch has two packets or more. */
  lemma TwoPackets(su: Setup, batch: Batch, payload: seq<Byte>, low: nat, pts: int, index: nat, last: nat)
    requires su.Valid() && payload != [] && OnWire(su, batch, payload, low, pts, index, last)
    requires 1 <= su.percentage && Encodes(Choose(1, su.percentage, su.minimum, su.max), su.max)
    ensures 2 <= |batch.packets|
  {
    var d := DataShardCount(payload, su.b);
    MulOrder(1, d, su.percentage);
  }

  /** A frame whose first batch throws behind its first shard. */
  lemma OneShardOut(a: Attempt)
    requires Handed(a) && a.batches[0].delivery == OneByOne(0, 1) && 2 <= |a.batches[0].packets|
    ensures !a.ok && WireOf(a.batches) == [a.batches[0].packets[0]]
  {
    assert Throws(a.batches[0]);
    assert a.batches[..0] == [];
  }

  lemma OneShardThrows(su: Setup, a: Attempt, frame: seq<Byte>)
    requires su.Valid() && frame != [] && Handed(a) && a.batches[0].delivery == OneByOne(0, 1)
    requires 1 <= su.percentage && Encodes(Choose(1, su.percentage, su.minimum, su.max), su.max)
    requires var bs := FrameBlocks(su, frame);
      |a.batches| <= |bs| && BlocksOnWire(su, a.batches, bs, 0, 0, LastIndex(|bs|))
    ensures 2 <= |a.batches[0].packets| && !a.ok && WireOf(a.batches) == [a.batches[0].packets[0]]
  {
    hide OnWire, FrameBlocks, BlocksOnWire, WireOf, Choose, Encodes;
    var bs := FrameBlocks(su, frame);
    OnWireAt(su, a.batches, bs, 0, 0, LastIndex(|bs|), 0);
    TwoPackets(su, a.batches[0], bs[0], Total(a.batches[..0]), 0, 0, LastIndex(|bs|));
    OneShardOut(a);
  }

  /** A frame of which every batch is sent whole. */
  lemma AllSent(a: Attempt, low: nat)
    requires Handed(a) && RunsFrom(a.batches, low)
    requires forall k :: 0 <= k < |a.batches| ==> a.batches[k].delivery == Whole
    ensures a.ok && WireOf(a.batches) != []
    ensures WireOf(a.batches)[0].header.sequenceNumber == low % 0x1_0000
  {
    hide WireOf, Reach, RunsFrom;
    assert forall k :: 0 <= k < |a.batches| ==> !Throws(a.batches[k]);
    FrameSpans(a.batches, low);
    ReachWhole(a.batches);
    RunHasPackets(a.batches, low);
  }

  /** Two frames of a session, the first of which throws: both start with the number zero. */
  lemma TwoFrames(a: Attempt, b: Attempt)
    requires Continues([a, b]) && !a.ok
    ensures RunsFrom(a.batches, 0) && RunsFrom(b.batches, 0)
  {
    AttemptRuns([a, b], 0);
    AttemptRuns([a, b], 1);
    assert [a, b][..0] == [] && [a, b][..1] == [a] && [a][..0] == [];
  }

  /**
   Any frame of which one shard goes out before sending throws, and any frame after it: the number
   of that shard is sent again.
   */
  method ThrowingSend(su: Setup, frame: seq<Byte>, other: seq<Byte>, clock: (nat, nat) -> nat)
    returns (a: Attempt, b: Attempt)
    requires su.Valid() && frame != [] && other != []
    requires 1 <= su.percentage && Encodes(Choose(1, su.percentage, su.minimum, su.max), su.max)
    ensures !a.ok && b.ok && |WireOf(a.batches)| == 1 && WireOf(b.batches) != []
    ensures WireOf(a.batches)[0].header.sequenceNumber == WireOf(b.batches)[0].header.sequenceNumber
  {
    hide FrameOnWire, OnWire, Choose, Encodes, RunsFrom, BatchNumbered, FrameBlocks, WireOf, BlocksOnWire, Stamped;
    hide Total, Saved, Continues, Wire;
    var s := new Sender(su);
    a := s.SendFrame(frame, 0, _ => OneByOne(0, 1), clock);
    OneShardThrows(su, a, frame);
    b := s.SendFrame(other, 1, _ => Whole, clock);
    assert s.attempts == [a, b];
    TwoFrames(a, b);
    FirstNumber(a.batches, 0);
    AllSent(b, 0);
  }
}
