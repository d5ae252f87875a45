/**
 Forward error correction of one block: how many parity shards are made, what percentage is
 advertised for them, and what the shard buffer holds.

 The Reed-Solomon code is foreign; it appears as a function from the data region to parity bytes,
 and its largest shard count as the parameter `max`.
 */
module Fec {
  import opened Counting
  import opened Packetizer

  datatype Counts = Counts(dataShards: nat, parityShards: nat, nrShards: nat, percentage: nat)

  /** The formula both ends evaluate: the receiver on the advertised percentage. */
  function Parity(dataShards: nat, percentage: nat): nat {
    (dataShards * percentage + 99) / 100
  }

  /** It is the least count that amounts to the percentage. */
  lemma ParityIsLeast(dataShards: nat, percentage: nat, parity: nat)
    ensures dataShards * percentage <= 100 * parity <==> Parity(dataShards, percentage) <= parity
  {
    var n := dataShards * percentage;
    assert Parity(dataShards, percentage) == (n + 99) / 100;
  }

  /** The percentage that `parity` shards amount to, rounded down. */
  function Share(parity: nat, dataShards: nat): nat
    requires 0 < dataShards
  {
    100 * parity / dataShards
  }

  predicate Raised(dataShards: nat, percentage: nat, minimum: nat) {
    Parity(dataShards, percentage) < minimum
  }

  function Choose(dataShards: nat, percentage: nat, minimum: nat, max: nat): Counts
    requires 0 < dataShards
  {
    var raised := Raised(dataShards, percentage, minimum);
    var parity := if raised then minimum else Parity(dataShards, percentage);
    var advertised := if raised then Share(parity, dataShards) else percentage;
    if dataShards + parity > max then Counts(dataShards, parity, dataShards, 0)
    else Counts(dataShards, parity, dataShards + parity, advertised)
  }

  /** The receiver's view: the formula on the advertised percentage gives the parity shards sent. */
  predicate Exact(c: Counts) {
    Parity(c.dataShards, c.percentage) == c.nrShards - c.dataShards
  }

  /**
   Rounding the raised percentage down loses a shard exactly when the remainder of
   100 * minimum by the data shards is 100 or more.
   */
  lemma ExactIff(d: nat, percentage: nat, minimum: nat, max: nat)
    requires 0 < d
    ensures Exact(Choose(d, percentage, minimum, max)) <==>
      (Raised(d, percentage, minimum) && d + minimum <= max ==> 100 * minimum % d < 100)
  {
    if Raised(d, percentage, minimum) && d + minimum <= max {
      var n := 100 * minimum;
      var q, r := n / d, n % d;
      assert d * q == n - r;
      assert Parity(d, q) == (n - r + 99) / 100;
    } else {
      assert d * 0 == 0;
    }
  }

  /** Up to 100 data shards, which the split into three blocks aims for, the advertised percentage is exact. */
  lemma ExactUpToHundred(d: nat, percentage: nat, minimum: nat, max: nat)
    requires 0 < d <= 100
    ensures Exact(Choose(d, percentage, minimum, max))
  {
    ExactIff(d, percentage, minimum, max);
    assert 100 * minimum % d < d;
  }

  /** With one data shard more it can fail. */
  lemma HundredIsTight(max: nat)
    requires 203 <= max
    ensures Raised(101, 20, 102) && Choose(101, 20, 102, max) == Counts(101, 102, 203, 100)
    ensures !Exact(Choose(101, 20, 102, max))
  {
  }

  /** The Reed-Solomon step is entered under a test of its own, on the parity count before any skip. */
  predicate Encodes(c: Counts, max: nat) {
    c.dataShards + c.parityShards <= max
  }

  /** For which block sizes correction is kept: monotone in the data shards, so the largest block decides. */
  lemma KeptUpToIff(most: nat, percentage: nat, minimum: nat, max: nat)
    requires 0 < most
    ensures (forall d :: 0 < d <= most ==> Encodes(Choose(d, percentage, minimum, max), max))
      <==> Encodes(Choose(most, percentage, minimum, max), max)
  {
    if Encodes(Choose(most, percentage, minimum, max), max) {
      forall d | 0 < d <= most
        ensures Encodes(Choose(d, percentage, minimum, max), max)
      {
        MulOrder(d, most, percentage);
        assert Parity(d, percentage) <= Parity(most, percentage);
      }
    }
  }

  /**
   The split is meant to keep blocks small enough for any percentage up to 255, but with 255
   shards at most, 255 percent is already skipped at 72 data shards, below the threshold of 90;
   blocks of 90 keep their correction up to 183 percent.
   */
  lemma ThresholdAgainstMaximum()
    ensures Choose(71, 255, 0, 255) == Counts(71, 182, 253, 255)
    ensures Choose(72, 255, 0, 255) == Counts(72, 184, 72, 0)
    ensures forall p: nat :: Encodes(Choose(MULTI_FEC_PACKETS, p, 0, 255), 255) <==> p <= 183
  {
  }

  /**
   It is entered exactly when the buffer has room for the parity shards, but for one case: no
   parity was asked for and the data shards alone exceed the maximum.
   */
  lemma EncodesIff(d: nat, percentage: nat, minimum: nat, max: nat)
    requires 0 < d
    ensures var c := Choose(d, percentage, minimum, max);
      Encodes(c, max) <==> c.nrShards == d + c.parityShards && !(c.parityShards == 0 && d > max)
  {
  }

  /** With a percentage of at least one, as the configuration has it, there is no such case. */
  lemma EncodesWhenRoom(d: nat, percentage: nat, minimum: nat, max: nat)
    requires 0 < d && 1 <= percentage
    ensures var c := Choose(d, percentage, minimum, max);
      && 0 < c.parityShards
      && (Encodes(c, max) <==> c.nrShards == d + c.parityShards)
  {
    MulOrder(1, d, percentage);
  }

  /** That one case: 256 data shards, no parity asked for, and all of them in the buffer. */
  lemma NotEnteredExample()
    ensures var c := Choose(256, 0, 0, 255);
      c.nrShards == 256 + c.parityShards && c.parityShards == 0 && !Encodes(c, 255)
  {
  }

  /** Unless correction is skipped, the requested minimum and the requested percentage are both met. */
  lemma MinimumMet(d: nat, percentage: nat, minimum: nat, max: nat)
    requires 0 < d
    ensures var c := Choose(d, percentage, minimum, max);
      && d <= c.nrShards && (d <= max ==> c.nrShards <= max)
      && (if c.nrShards == d then c.percentage == 0 || c.parityShards == 0
          else minimum <= c.nrShards - d && Parity(d, percentage) <= c.nrShards - d)
  {
  }

  // ---- The shard buffer ------------------------------------------------------------------

  /** The payload, padded with zeros to whole shards. */
  function DataRegion(payload: seq<Byte>, b: nat): (r: seq<Byte>)
    requires 0 < b
    ensures |r| == Pieces(|payload|, b) * b
  {
    PiecesIs(|payload|, b, Pieces(|payload|, b));
    payload + Zeros(Pieces(|payload|, b) * b - |payload|)
  }

  function ParityBytes(data: seq<Byte>, n: nat, rs: (seq<Byte>, nat) -> Byte): (r: seq<Byte>)
    ensures |r| == n
    ensures forall i: nat :: i < n ==> r[i] == rs(data, i)
  {
    seq(n, (i: nat) => rs(data, i))
  }

  /** The whole buffer: data region, then the parity bytes the code computes from it. */
  function Buffer(payload: seq<Byte>, b: nat, c: Counts, max: nat, rs: (seq<Byte>, nat) -> Byte): seq<Byte>
    requires 0 < b && c.dataShards == Pieces(|payload|, b)
  {
    var data := DataRegion(payload, b);
    if Encodes(c, max) then data + ParityBytes(data, c.parityShards * b, rs) else data
  }

  /**
   What the buffer holds, byte by byte: the payload, zeros to the end of the data shards, and, with
   room for parity, behind them the bytes that the code computes from the data shards.
   */
  lemma BufferBytes(payload: seq<Byte>, b: nat, c: Counts, max: nat, rs: (seq<Byte>, nat) -> Byte)
    requires 0 < b && c.dataShards == Pieces(|payload|, b)
    ensures var buffer, size := Buffer(payload, b, c, max, rs), c.dataShards * b;
      && |payload| <= size
      && |buffer| == (if c.dataShards + c.parityShards <= max then (c.dataShards + c.parityShards) * b else size)
      && (forall i :: 0 <= i < |payload| ==> buffer[i] == payload[i])
      && (forall i :: |payload| <= i < size ==> buffer[i] == 0)
      && (c.dataShards + c.parityShards <= max ==>
            forall i: nat :: i < c.parityShards * b ==> buffer[size + i] == rs(buffer[..size], i))
  {
    var data := DataRegion(payload, b);
    PiecesIs(|payload|, b, c.dataShards);
    Distribute(c.dataShards, c.parityShards, b);
    assert Buffer(payload, b, c, max, rs)[..|data|] == data;
  }

  /** Copy the payload and clear the rest, as `std::copy` and `std::fill` do. */
  method CopyPadded(shards: array<Byte>, payload: seq<Byte>)
    requires |payload| <= shards.Length
    modifies shards
    ensures shards[..] == payload + Zeros(shards.Length - |payload|)
  {
    forall i | 0 <= i < |payload| { shards[i] := payload[i]; }
    forall i | |payload| <= i < shards.Length { shards[i] := 0; }
  }

  /** `reed_solomon_encode`: reads the data shards and overwrites the parity shards behind them. */
  method ReedSolomon(shards: array<Byte>, at: nat, rs: (seq<Byte>, nat) -> Byte)
    requires at <= shards.Length
    modifies shards
    ensures shards[..] == old(shards[..at]) + ParityBytes(old(shards[..at]), shards.Length - at, rs)
  {
    var region := shards[..at];
    forall i | at <= i < shards.Length { shards[i] := rs(region, i - at); }
  }

  /** The first half of `encode`: the three adjustments, in the order the code makes them. */
  method Count(dataShards: nat, percentage: nat, minimum: nat, max: nat) returns (c: Counts)
    requires 0 < dataShards
    ensures c == Choose(dataShards, percentage, minimum, max)
  {
    var parity, advertised := Parity(dataShards, percentage), percentage;
    if parity < minimum {
      parity := minimum;
      advertised := Share(parity, dataShards);
    }
    var nr := dataShards + parity;
    if nr > max {
      nr := dataShards;
      advertised := 0;
    }
    c := Counts(dataShards, parity, nr, advertised);
  }

  method Encode(payload: seq<Byte>, b: nat, percentage: nat, minimum: nat, max: nat, rs: (seq<Byte>, nat) -> Byte)
    returns (c: Counts, shards: array<Byte>)
    requires 0 < b && payload != []
    ensures c == Choose(Pieces(|payload|, b), percentage, minimum, max)
    ensures fresh(shards) && shards.Length == c.nrShards * b
    ensures shards[..] == Buffer(payload, b, c, max, rs)
    ensures var size := c.dataShards * b;
      && |payload| <= size <= shards.Length
      && shards[..|payload|] == payload && (forall i :: |payload| <= i < size ==> shards[i] == 0)
      && (c.dataShards + c.parityShards <= max ==>
            && shards.Length == size + c.parityShards * b
            && forall i: nat :: i < c.parityShards * b ==> shards[size + i] == rs(shards[..size], i))
  {
    var dataShards := Pieces(|payload|, b);
    PiecesIs(|payload|, b, dataShards);
    assert dataShards != 0;
    c := Count(dataShards, percentage, minimum, max);
    var size := dataShards * b;
    Distribute(dataShards, c.parityShards, b);
    shards := new Byte[c.nrShards * b];
    CopyPadded(shards, payload);
    assert shards[..size] == DataRegion(payload, b);
    if dataShards + c.parityShards <= max {
      ReedSolomon(shards, size, rs);
    } else {
      assert shards[..] == shards[..size];
    }
    BufferBytes(payload, b, c, max, rs);
    assert forall i :: 0 <= i < shards.Length ==> shards[i] == shards[..][i];
    assert shards[..size] == shards[..][..size];
  }
}
