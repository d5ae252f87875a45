/**
 From a frame to FEC blocks: header slots are inserted in front of every slice of the
 frame, and a long result is cut into three blocks on packet boundaries.

 The header size `h` and the block size `b` are parameters with 2 <= h < b; a packet is one
 header slot and at most `b - h` bytes of the frame.
 */
module Packetizer {
  import opened Counting

  newtype Byte = x: int | 0 <= x < 256

  const MAX_FEC_BLOCKS := 3
  const MULTI_FEC_PACKETS := 90

  // ---- Header insertion ----------------------------------------------------------------

  /** One header slot in front of every slice; the last slice may be short. */
  function Interleave(slot: seq<Byte>, slice: nat, data: seq<Byte>): seq<Byte>
    requires 0 < slice
    decreases |data|
  {
    if |data| <= slice then slot + data
    else slot + data[..slice] + Interleave(slot, slice, data[slice..])
  }

  /** Undoing it: drop the first `h` bytes of every packet of `b`. */
  function Strip(h: nat, b: nat, stream: seq<Byte>): seq<Byte>
    requires h < b
    decreases |stream|
  {
    if |stream| <= h then []
    else if |stream| <= b then stream[h..]
    else stream[h..b] + Strip(h, b, stream[b..])
  }

  /** Whole packets strip independently of what follows. */
  lemma {:induction false} StripConcat(h: nat, b: nat, x: seq<Byte>, y: seq<Byte>, k: nat)
    requires h < b && |x| == k * b
    ensures Strip(h, b, x + y) == Strip(h, b, x) + Strip(h, b, y)
    decreases k
  {
    if k == 0 {
      assert x + y == y;
    } else if y == [] {
      assert x + y == x;
    } else {
      assert |x[b..]| == (k - 1) * b by { MulOrder(k - 1, k, b); }
      assert |x| >= b by { MulOrder(1, k, b); }
      assert (x + y)[b..] == x[b..] + y && (x + y)[h..b] == x[h..b];
      StripConcat(h, b, x[b..], y, k - 1);
      if k == 1 {
        assert x[b..] == [] && x[h..] == x[h..b];
      }
      assert Strip(h, b, x) == x[h..b] + Strip(h, b, x[b..]);
    }
  }

  function Zeros(n: nat): seq<Byte> {
    seq(n, _ => 0)
  }

  lemma TwoFewer(k: nat, b: nat)
    requires 2 <= k
    ensures 0 <= (k - 2) * b && (k - 1) * b == (k - 2) * b + b && k * b == (k - 1) * b + b
  {
    MulOrder(0, k - 2, b);
    MulOrder(k - 2, k, b);
    MulOrder(k - 1, k, b);
  }

  /** Zero padding of the last packet comes out as zero padding of the frame. */
  lemma {:induction false} StripPadded(h: nat, b: nat, z: seq<Byte>, n: nat, k: nat)
    requires h < b && 1 <= k && (k - 1) * b + h < |z| && |z| + n == k * b
    ensures Strip(h, b, z + Zeros(n)) == Strip(h, b, z) + Zeros(n)
    decreases k
  {
    var zn := z + Zeros(n);
    if k == 1 {
      assert zn[h..] == z[h..] + Zeros(n);
    } else {
      TwoFewer(k, b);
      assert zn[b..] == z[b..] + Zeros(n) && zn[h..b] == z[h..b];
      StripPadded(h, b, z[b..], n, k - 1);
    }
  }

  /** A frame of `e` packets grows by `e` slots and its last packet holds a slot and at least one byte. */
  lemma {:induction false} InterleaveLength(slot: seq<Byte>, slice: nat, data: seq<Byte>, e: nat)
    requires 0 < slice && data != [] && e == Pieces(|data|, slice)
    ensures 1 <= e && |Interleave(slot, slice, data)| == e * |slot| + |data|
    ensures (e - 1) * (|slot| + slice) + |slot| < |Interleave(slot, slice, data)| <= e * (|slot| + slice)
    decreases |data|
  {
    var n := |data|;
    PiecesIs(n, slice, e);
    if n <= slice {
      PiecesIs(n, slice, 1);
    } else {
      assert n - slice <= (e - 1) * slice < n by { MulOrder(e - 1, e, slice); }
      PiecesIs(n - slice, slice, e - 1);
      InterleaveLength(slot, slice, data[slice..], e - 1);
      MulOrder(e - 1, e, |slot|);
      MulOrder(e - 2, e, |slot| + slice);
      MulOrder(e - 1, e, |slot| + slice);
    }
  }

  lemma {:induction false} StripInterleave(slot: seq<Byte>, slice: nat, data: seq<Byte>)
    requires 0 < slice && data != []
    ensures Strip(|slot|, |slot| + slice, Interleave(slot, slice, data)) == data
    decreases |data|
  {
    var h, b := |slot|, |slot| + slice;
    var s := Interleave(slot, slice, data);
    if |data| > slice {
      var rest := Interleave(slot, slice, data[slice..]);
      StripInterleave(slot, slice, data[slice..]);
      InterleaveLength(slot, slice, data[slice..], Pieces(|data| - slice, slice));
      assert s[b..] == rest && s[h..b] == data[..slice];
      assert data == data[..slice] + data[slice..];
    }
  }

  lemma FirstSlot(slot: seq<Byte>, slice: nat, data: seq<Byte>)
    requires 0 < slice
    ensures slot <= Interleave(slot, slice, data)
  {
  }

  lemma InsertStep(slot: seq<Byte>, slice: nat, data: seq<Byte>, next: nat, left: nat)
    requires 0 < slice && next < |data| && left == Pieces(|data| - next, slice) && left > 1
    ensures next + slice < |data| && Pieces(|data| - next - slice, slice) == left - 1
    ensures Interleave(slot, slice, data[next..])
         == slot + data[next..next + slice] + Interleave(slot, slice, data[next + slice..])
  {
    var n := |data| - next;
    PiecesIs(n, slice, left);
    if n <= slice {
      PiecesIs(n, slice, 1);
    }
    MulOrder(left - 1, left, slice);
    PiecesIs(n - slice, slice, left - 1);
    assert data[next..][slice..] == data[next + slice..] && data[next..][..slice] == data[next..next + slice];
  }

  /** Every packet begins with a slot that the insertion created. */
  lemma {:induction false} SlotsInPlace(slot: seq<Byte>, slice: nat, data: seq<Byte>, k: nat, p: nat)
    requires 0 < slice && data != [] && k < Pieces(|data|, slice) && p == k * (|slot| + slice)
    ensures p + |slot| <= |Interleave(slot, slice, data)| && Interleave(slot, slice, data)[p..p + |slot|] == slot
    decreases k
  {
    hide Pieces, Interleave;
    var b, s := |slot| + slice, Interleave(slot, slice, data);
    if k == 0 {
      FirstSlot(slot, slice, data);
    } else {
      InsertStep(slot, slice, data, 0, Pieces(|data|, slice));
      MulOrder(k - 1, k, b);
      SlotsInPlace(slot, slice, data[slice..], k - 1, p - b);
      assert data[0..] == data;
      var rest := Interleave(slot, slice, data[slice..]);
      assert s[b..] == rest;
      assert rest[p - b..p - b + |slot|] == s[p..p + |slot|];
    }
  }

  lemma OnePiece(n: nat, pad: nat, slice: nat, e: nat)
    requires 0 < slice && 0 < n <= slice && pad < slice && n + pad == e * slice
    ensures e == 1
  {
    if e >= 2 {
      MulOrder(2, e, slice);
    }
  }

  /** Padding the last packet is padding the data. */
  lemma {:induction false} InterleavePadded(slot: seq<Byte>, slice: nat, data: seq<Byte>, pad: nat, e: nat)
    requires 0 < slice && data != [] && pad < slice && |data| + pad == e * slice
    ensures Interleave(slot, slice, data) + Zeros(pad) == Interleave(slot, slice, data + Zeros(pad))
    decreases |data|
  {
    var padded := data + Zeros(pad);
    if |data| <= slice {
      OnePiece(|data|, pad, slice, e);
      assert slot + data + Zeros(pad) == slot + padded;
    } else {
      assert |data| - slice + pad == (e - 1) * slice by { MulOrder(e - 1, e, slice); }
      InterleavePadded(slot, slice, data[slice..], pad, e - 1);
      assert padded[slice..] == data[slice..] + Zeros(pad) && padded[..slice] == data[..slice];
      var rest := Interleave(slot, slice, data[slice..]);
      assert slot + data[..slice] + rest + Zeros(pad) == slot + data[..slice] + (rest + Zeros(pad));
    }
  }

  lemma InterleaveOne(slot: seq<Byte>, slice: nat, data: seq<Byte>)
    requires 0 < slice && |data| <= slice
    ensures Interleave(slot, slice, data) == slot + data
  {
  }

  lemma InterleaveMore(slot: seq<Byte>, slice: nat, data: seq<Byte>)
    requires 0 < slice < |data|
    ensures Interleave(slot, slice, data) == slot + data[..slice] + Interleave(slot, slice, data[slice..])
  {
  }

  lemma BehindHead(head: seq<Byte>, rest: seq<Byte>, p: nat, q: nat)
    requires |head| <= p <= q <= |head| + |rest|
    ensures (head + rest)[p..q] == rest[p - |head|..q - |head|]
  {
  }

  lemma BehindFront(data: seq<Byte>, n: nat, p: nat, q: nat)
    requires n <= p <= q <= |data|
    ensures data[n..][p - n..q - n] == data[p..q]
  {
  }

  lemma SliceInside(slice: nat, n: nat, e: nat)
    requires n == e * slice && 0 < e
    ensures slice <= n
  {
    MulOrder(1, e, slice);
  }

  lemma OnlySlice(h: nat, slice: nat, e: nat, j: nat, p: nat, q: nat)
    requires 0 < slice == e * slice && j < e && p == j * (h + slice) && q == j * slice
    ensures p == 0 && q == 0
  {
    OnePiece(slice, 0, slice, e);
  }

  lemma LaterSlice(h: nat, slice: nat, n: nat, e: nat, j: nat)
    requires n == e * slice && 0 < j < e
    ensures n - slice == (e - 1) * slice && j * slice - slice == (j - 1) * slice
    ensures j * (h + slice) - (h + slice) == (j - 1) * (h + slice)
  {
    MulOrder(e - 1, e, slice);
    MulOrder(j - 1, j, slice);
    MulOrder(j - 1, j, h + slice);
  }

  /** Of data in whole slices, packet `j` is a slot followed by slice `j`. */
  lemma {:induction false} InterleaveSlice(
    slot: seq<Byte>, slice: nat, data: seq<Byte>, e: nat, j: nat, p: nat, q: nat)
    requires 0 < slice && |data| == e * slice && j < e && p == j * (|slot| + slice) && q == j * slice
    ensures p + |slot| + slice <= |Interleave(slot, slice, data)| && q + slice <= |data|
    ensures Interleave(slot, slice, data)[p..p + |slot| + slice] == slot + data[q..q + slice]
    decreases j
  {
    hide Interleave;
    var b := |slot| + slice;
    SliceInside(slice, |data|, e);
    if |data| == slice {
      OnlySlice(|slot|, slice, e, j, p, q);
      InterleaveOne(slot, slice, data);
      assert data[..slice] == data;
    } else {
      InterleaveMore(slot, slice, data);
      var head, rest := slot + data[..slice], Interleave(slot, slice, data[slice..]);
      if j == 0 {
        assert p == 0 && q == 0;
        assert (head + rest)[0..b] == head;
      } else {
        LaterSlice(|slot|, slice, |data|, e, j);
        InterleaveSlice(slot, slice, data[slice..], e - 1, j - 1, p - b, q - slice);
        BehindHead(head, rest, p, p + b);
        BehindFront(data, slice, q, q + slice);
      }
    }
  }

  /** One packet: the header slot, then its slice of the data. */
  method PutPacket(result: array<Byte>, p: nat, slot: seq<Byte>, part: seq<Byte>)
    requires p + |slot| + |part| <= result.Length
    modifies result
    ensures result[..p + |slot| + |part|] == old(result[..p]) + slot + part
  {
    forall i | 0 <= i < |slot| { result[p + i] := slot[i]; }
    forall i | 0 <= i < |part| { result[p + |slot| + i] := part[i]; }
  }

  lemma Advance(whole: seq<Byte>, p: nat, slot: seq<Byte>, part: seq<Byte>, rest: seq<Byte>)
    requires p <= |whole| && whole[p..] == slot + part + rest
    ensures var q := p + |slot| + |part|;
      q <= |whole| && whole[..q] == whole[..p] + slot + part && whole[q..] == rest
  {
    assert whole == whole[..p] + whole[p..];
  }

  lemma InterleaveLast(slot: seq<Byte>, slice: nat, rest: seq<Byte>)
    requires 0 < slice && Pieces(|rest|, slice) == 1
    ensures Interleave(slot, slice, rest) == slot + rest
  {
    PiecesIs(|rest|, slice, 1);
  }

  /** `insert`: allocate the result, then fill slot and slice of each packet in place. */
  method InsertHeaders(slot: seq<Byte>, slice: nat, data: seq<Byte>) returns (result: array<Byte>)
    requires 0 < slice && data != []
    ensures fresh(result) && result[..] == Interleave(slot, slice, data)
  {
    hide Interleave, Pieces;
    var h, b := |slot|, |slot| + slice;
    var elements := Pieces(|data|, slice);
    assert 1 <= elements && |Interleave(slot, slice, data)| == elements * h + |data| by {
      InterleaveLength(slot, slice, data, elements);
    }
    result := new Byte[elements * h + |data|];
    var x, next := 0, 0;
    ghost var whole, at := Interleave(slot, slice, data), 0;
    assert data[0..] == data;
    while x < elements - 1
      invariant 0 <= x <= elements - 1 && at == x * b <= result.Length == |whole| && fresh(result)
      invariant next < |data| && Pieces(|data| - next, slice) == elements - x
      invariant result[..at] == whole[..at]
      invariant whole[at..] == Interleave(slot, slice, data[next..])
    {
      InsertStep(slot, slice, data, next, elements - x);
      Advance(whole, at, slot, data[next..next + slice], Interleave(slot, slice, data[next + slice..]));
      PutPacket(result, x * b, slot, data[next..next + slice]);
      assert (x + 1) * b == at + b by { MulOrder(x, x, b); }
      at := at + b;
      next := next + slice;
      x := x + 1;
    }
    InterleaveLast(slot, slice, data[next..]);
    Advance(whole, at, slot, data[next..], []);
    PutPacket(result, x * b, slot, data[next..]);
    assert result[..at + h + |data| - next] == result[..];
  }

  // ---- FEC blocks ------------------------------------------------------------------------

  function Aligned(n: nat, b: nat): nat
    requires 0 < b
  {
    ((n / MAX_FEC_BLOCKS + (b - 1)) / b) * b
  }

  /** Up to 90 packets form one block; more are cut into three, the first two aligned. */
  function Blocks(payload: seq<Byte>, b: nat): seq<seq<Byte>>
    requires 0 < b
    requires |payload| > MULTI_FEC_PACKETS * b ==> 2 * Aligned(|payload|, b) <= |payload|
  {
    if |payload| > MULTI_FEC_PACKETS * b then
      var a := Aligned(|payload|, b);
      [payload[..a], payload[a..2 * a], payload[2 * a..]]
    else
      [payload]
  }

  /** Third of the packet count, rounded up. */
  function Third(e: nat): nat {
    (e + 2) / 3
  }

  lemma Thrice(a: nat, b: nat)
    ensures (3 * a) * b == 3 * (a * b)
  {
  }

  /** A third of the bytes ends in the packet in which a third of the packets ends. */
  lemma ThirdBounds(n: nat, b: nat, h: nat, e: nat)
    requires 2 <= h < b && 1 <= e && (e - 1) * b + h < n <= e * b
    ensures n / 3 <= Third(e) * b < n / 3 + b
  {
    var t := Third(e);
    var m := (t - 1) * b;
    assert t * b == m + b by { MulOrder(t - 1, t, b); }
    assert 3 * m <= (e - 1) * b by {
      MulOrder(3 * (t - 1), e - 1, b);
      Thrice(t - 1, b);
    }
    assert e * b <= 3 * (m + b) by {
      MulOrder(e, 3 * t, b);
      Thrice(t, b);
    }
  }

  /** The aligned size is that of a third of the packets, because the last packet is long enough. */
  lemma AlignedIsThird(n: nat, b: nat, h: nat, e: nat)
    requires 2 <= h < b && 1 <= e && (e - 1) * b + h < n <= e * b
    ensures Aligned(n, b) == Third(e) * b
  {
    var t := Third(e);
    ThirdBounds(n, b, h, e);
    assert Pieces(n / 3, b) == t by { PiecesIs(n / 3, b, t); }
    assert (n / 3 + (b - 1)) / b == t by { PiecesIs(n / 3, b, t); }
  }

  lemma PacketCount(n: nat, b: nat, h: nat, e: nat)
    requires h < b && 1 <= e && (e - 1) * b + h < n <= e * b
    ensures Pieces(n, b) == e
    ensures n > MULTI_FEC_PACKETS * b <==> e > MULTI_FEC_PACKETS
  {
    MulOrder(e - 1, e, b);
    PiecesIs(n, b, e);
    if e > MULTI_FEC_PACKETS {
      MulOrder(MULTI_FEC_PACKETS, e - 1, b);
    } else {
      MulOrder(e, MULTI_FEC_PACKETS, b);
    }
  }

  function Concat(blocks: seq<seq<Byte>>): seq<Byte> {
    if blocks == [] then [] else blocks[0] + Concat(blocks[1..])
  }

  /** The sizes of the three blocks, with `a` bytes in each of the first two. */
  lemma ThirdsFit(n: nat, b: nat, h: nat, e: nat, a: nat)
    requires 2 <= h < b && e > MULTI_FEC_PACKETS && (e - 1) * b + h < n <= e * b && a == Third(e) * b
    ensures 2 * a < n && Pieces(a, b) == Third(e)
    ensures var rest := e - 2 * Third(e);
      0 < rest && (rest - 1) * b + h < n - 2 * a <= rest * b && Pieces(n - 2 * a, b) == rest
  {
    var t := Third(e);
    var rest := e - 2 * t;
    MulOrder(2 * t, e - 1, b);
    assert 2 * t * b == 2 * a;
    assert (rest - 1) * b == (e - 1) * b - 2 * a && rest * b == e * b - 2 * a;
    PiecesIs(a, b, t);
    PacketCount(n - 2 * a, b, h, rest);
  }

  ghost predicate Cut(payload: seq<Byte>, b: nat, h: nat, e: nat, bs: seq<seq<Byte>>)
    requires 0 < b
  {
    var last := |bs| - 1;
    var rest := e - last * Third(e);
    && |bs| == (if e > MULTI_FEC_PACKETS then MAX_FEC_BLOCKS else 1)
    && Concat(bs) == payload
    && (forall k :: 0 <= k < last ==> |bs[k]| == Third(e) * b && Pieces(|bs[k]|, b) == Third(e) > 0)
    && 0 < rest == Pieces(|bs[last]|, b)
    && (rest - 1) * b + h < |bs[last]| <= rest * b
  }

  lemma ConcatOne(x: seq<Byte>)
    ensures Concat([x]) == x
  {
    assert [x][1..] == [];
  }

  lemma ConcatThree(x: seq<Byte>, y: seq<Byte>, z: seq<Byte>)
    ensures Concat([x, y, z]) == x + y + z
  {
    assert [x, y, z][1..] == [y, z] && [y, z][1..] == [z];
    ConcatOne(z);
  }

  /**
   A headered frame of `e` packets is cut in three exactly when e > 90. The blocks rebuild the
   frame, hold ceil(e/3), ceil(e/3) and the remaining packets, none is empty, and all but the
   last consist of whole packets.
   */
  lemma BlocksCut(payload: seq<Byte>, b: nat, h: nat, e: nat)
    requires 2 <= h < b && 1 <= e && (e - 1) * b + h < |payload| <= e * b
    ensures |payload| > MULTI_FEC_PACKETS * b ==> 2 * Aligned(|payload|, b) <= |payload|
    ensures Cut(payload, b, h, e, Blocks(payload, b))
  {
    var n, t := |payload|, Third(e);
    PacketCount(n, b, h, e);
    if e > MULTI_FEC_PACKETS {
      AlignedIsThird(n, b, h, e);
      var a := Aligned(n, b);
      ThirdsFit(n, b, h, e, a);
      var x, y, z := payload[..a], payload[a..2 * a], payload[2 * a..];
      assert Blocks(payload, b) == [x, y, z];
      ConcatThree(x, y, z);
      assert payload == x + y + z;
    } else {
      ConcatOne(payload);
    }
  }
}
