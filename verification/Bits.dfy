/** Bitwise or on naturals, as far as packing fields into words needs it. */
module Bits {
  import opened Counting

  function Or(a: nat, b: nat): nat
    decreases a + b
  {
    if a == 0 && b == 0 then 0
    else 2 * Or(a / 2, b / 2) + if a % 2 == 1 || b % 2 == 1 then 1 else 0
  }

  function Pow2(k: nat): (r: nat)
    ensures 0 < r
  {
    if k == 0 then 1 else 2 * Pow2(k - 1)
  }

  predicate Bit(n: nat, k: nat) {
    n / Pow2(k) % 2 == 1
  }

  /** A bit further up is a bit of the half. */
  lemma BitOfHalf(n: nat, k: nat)
    requires 0 < k
    ensures Bit(n, k) == Bit(n / 2, k - 1)
  {
    var p := Pow2(k - 1);
    var h, q, r := n / 2, n / 2 / p, n / 2 % p;
    assert h == q * p + r;
    assert n == 2 * h + n % 2;
    assert q * (2 * p) == 2 * (q * p);
    QuotientIs(n, 2 * p, q, 2 * r + n % 2);
  }

  lemma OrHalf(a: nat, b: nat)
    ensures Or(a, b) / 2 == Or(a / 2, b / 2)
    ensures Or(a, b) % 2 == 1 <==> a % 2 == 1 || b % 2 == 1
  {
  }

  /** It is the bitwise or. */
  lemma {:induction false} OrBits(a: nat, b: nat, k: nat)
    ensures Bit(Or(a, b), k) <==> Bit(a, k) || Bit(b, k)
    decreases k
  {
    if k > 0 {
      BitOfHalf(a, k);
      BitOfHalf(b, k);
      BitOfHalf(Or(a, b), k);
      OrHalf(a, b);
      OrBits(a / 2, b / 2, k - 1);
    } else {
      assert Pow2(0) == 1;
      OrHalf(a, b);
    }
  }

  lemma {:induction false} OrZero(a: nat)
    ensures Or(a, 0) == a
  {
    if a > 0 {
      OrZero(a / 2);
    }
  }

  lemma {:induction false} OrCommutes(a: nat, b: nat)
    ensures Or(a, b) == Or(b, a)
    decreases a + b
  {
    if a + b > 0 {
      OrCommutes(a / 2, b / 2);
    }
  }

  /** Fields that do not overlap add up. */
  lemma {:induction false} OrDisjoint(a: nat, b: nat, k: nat)
    requires b < Pow2(k)
    ensures Or(a * Pow2(k), b) == a * Pow2(k) + b
  {
    if k == 0 {
      OrZero(a);
    } else {
      var high := a * Pow2(k - 1);
      assert a * Pow2(k) == 2 * high;
      OrDisjoint(a, b / 2, k - 1);
      assert (2 * high) / 2 == high && (2 * high) % 2 == 0;
      if 2 * high == 0 && b == 0 {
      } else {
        assert Or(2 * high, b) == 2 * Or(high, b / 2) + b % 2;
      }
    }
  }

  // ---- The FEC information word of a video packet ---------------------------------------

  /** Shard index, data shards and percentage shifted into place, or-ed and cut to 32 bits. */
  function PackFecInfo(index: nat, dataShards: nat, percentage: nat): nat {
    Or(Or(index * 0x1000, dataShards * 0x40_0000), percentage * 0x10) % 0x1_0000_0000
  }

  /** The receiver's reading: 10, 10 and 8 bits. */
  function UnpackFecInfo(word: nat): (nat, nat, nat) {
    (word / 0x1000 % 0x400, word / 0x40_0000 % 0x400, word / 0x10 % 0x100)
  }

  lemma Pow2Values()
    ensures Pow2(6) == 0x40 && Pow2(12) == 0x1000 && Pow2(22) == 0x40_0000
  {
    assert Pow2(6) == 64 * Pow2(0);
    assert Pow2(12) == 64 * Pow2(6);
    assert Pow2(17) == 32 * Pow2(12);
    assert Pow2(22) == 32 * Pow2(17);
  }

  lemma OrField(a: nat, b: nat, k: nat, width: nat)
    requires width == Pow2(k) && b < width
    ensures Or(a * width, b) == a * width + b && Or(b, a * width) == a * width + b
  {
    OrDisjoint(a, b, k);
    OrCommutes(a * width, b);
  }

  lemma Fields(index: nat, dataShards: nat, percentage: nat)
    requires index < 0x400 && dataShards < 0x400 && percentage < 0x100
    ensures UnpackFecInfo((dataShards * 0x400 + index) * 0x1000 + percentage * 0x10) == (index, dataShards, percentage)
  {
    var high := dataShards * 0x400 + index;
    var word := high * 0x1000 + percentage * 0x10;
    QuotientIs(word, 0x1000, high, percentage * 0x10);
    QuotientIs(high, 0x400, dataShards, index);
    QuotientIs(word, 0x40_0000, dataShards, index * 0x1000 + percentage * 0x10);
    QuotientIs(word, 0x10, high * 0x100 + percentage, 0);
    QuotientIs(high * 0x100 + percentage, 0x100, high, percentage);
  }

  lemma FitsWord(high: nat, percentage: nat)
    requires high < 0x10_0000 && percentage < 0x100
    ensures (high * 0x1000 + percentage * 0x10) % 0x1_0000_0000 == high * 0x1000 + percentage * 0x10
  {
  }

  lemma Packed(index: nat, dataShards: nat, percentage: nat)
    requires index < 0x400 && dataShards < 0x400 && percentage < 0x100
    ensures PackFecInfo(index, dataShards, percentage) == (dataShards * 0x400 + index) * 0x1000 + percentage * 0x10
  {
    hide Or, Pow2;
    Pow2Values();
    var high := dataShards * 0x400 + index;
    assert Or(index * 0x1000, dataShards * 0x40_0000) == high * 0x1000 by {
      OrField(dataShards, index * 0x1000, 22, 0x40_0000);
    }
    OrField(high, percentage * 0x10, 12, 0x1000);
    FitsWord(high, percentage);
  }

  /** The receiver gets the three numbers back exactly when they fit their fields. */
  lemma FecInfoIff(index: nat, dataShards: nat, percentage: nat)
    ensures UnpackFecInfo(PackFecInfo(index, dataShards, percentage)) == (index, dataShards, percentage)
      <==> index < 0x400 && dataShards < 0x400 && percentage < 0x100
  {
    if index < 0x400 && dataShards < 0x400 && percentage < 0x100 {
      Packed(index, dataShards, percentage);
      Fields(index, dataShards, percentage);
    }
  }

  /** Block index and last block index share one byte of a packet: two bits each. */
  lemma MultiFecBlocks(index: nat, last: nat)
    requires index < 4 && last < 4
    ensures var byte := Or(index * 0x10, last * 0x40);
      byte < 0x100 && byte / 0x10 % 4 == index && byte / 0x40 == last
  {
    Pow2Values();
    OrField(last, index * 0x10, 6, 0x40);
    var byte := last * 0x40 + index * 0x10;
    QuotientIs(byte, 0x40, last, index * 0x10);
    QuotientIs(byte, 0x10, last * 4 + index, 0);
    QuotientIs(last * 4 + index, 4, last, index);
  }
}
