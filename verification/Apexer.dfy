// Block arithmetic of the packer (apexer.py), on Python's unbounded integers.
module Apexer {
  import opened Names

  const BLOCK_SIZE := 4096
  const MIB := 1024 * 1024

  function Abs(a: int): nat {
    if a < 0 then -a else a
  }

  // a & b in two's complement with infinitely many sign bits; / and % 2 floor.
  function And(a: int, b: int): int
    decreases Abs(a)
  {
    if a == 0 || b == 0 then 0
    else if a == -1 then b
    else 2 * And(a / 2, b / 2) + (a % 2) * (b % 2)
  }

  // ~a
  function Not(a: int): int {
    -a - 1
  }

  function Pow2(k: nat): nat {
    if k == 0 then 1 else 2 * Pow2(k - 1)
  }

  ghost predicate IsPowerOfTwo(n: int) {
    exists k: nat :: n == Pow2(k)
  }

  // None stands for the failing assertion.
  function RoundUp(size: int, unit: int): Option<int> {
    if And(unit, unit - 1) != 0 then None
    else Some(And(size + unit - 1, Not(unit - 1)))
  }

  /** Theorem: masking with the complement of 2^k - 1 clears the remainder. */
  lemma {:induction false} MaskClearsRemainder(x: int, k: nat)
    ensures Pow2(k) > 0 && And(x, Not(Pow2(k) - 1)) == x - x % Pow2(k)
    decreases k
  {
    if k == 0 {
      AndMinusOne(x);
    } else {
      MaskClearsRemainder(x / 2, k - 1);
      var half: int := Pow2(k - 1);
      assert Not(Pow2(k) - 1) == -2 * half && (-2 * half) / 2 == -half == Not(half - 1);
      HalfRemainder(x, half);
      if x == -1 {
        RemainderUnique(-1, 2 * half, -1, 2 * half - 1);
      } else if x == 0 {
        RemainderUnique(0, 2 * half, 0, 0);
      }
    }
  }

  lemma {:induction false} AndMinusOne(x: int)
    ensures And(x, -1) == x
    decreases Abs(x)
  {
    if x != 0 && x != -1 {
      AndMinusOne(x / 2);
    }
  }

  lemma RemainderUnique(x: int, m: int, q: int, r: int)
    requires m > 0 && x == q * m + r && 0 <= r < m
    ensures x % m == r
  {
    var q', r' := x / m, x % m;
    assert x == q' * m + r';
    assert q' <= q - 1 ==> q' * m <= (q - 1) * m;
    assert q' >= q + 1 ==> q' * m >= (q + 1) * m;
  }

  lemma HalfRemainder(x: int, half: int)
    requires half > 0
    ensures x % (2 * half) == 2 * ((x / 2) % half) + x % 2
  {
    var y := x / 2;
    assert y == (y / half) * half + y % half;
    RemainderUnique(x, 2 * half, y / half, 2 * (y % half) + x % 2) by {
      assert x == 2 * y + x % 2;
      assert 2 * ((y / half) * half) == (y / half) * (2 * half);
    }
  }

  /** Theorem: the assertion of RoundUp passes exactly for zero and the powers of two. */
  lemma {:induction false} AssertionPasses(unit: int)
    ensures And(unit, unit - 1) == 0 <==> unit == 0 || IsPowerOfTwo(unit)
    decreases Abs(unit)
  {
    if unit < 0 {
      NegativeAnd(unit, unit - 1);
      forall k: nat
        ensures unit != Pow2(k)
      {
      }
    } else if unit > 1 {
      var half := unit / 2;
      if unit % 2 == 0 {
        AssertionPasses(half);
        assert (unit - 1) / 2 == half - 1;
        HalfPowerOfTwo(unit);
      } else {
        assert (unit - 1) / 2 == half && (unit - 1) % 2 == 0;
        AndSelf(half);
        OddNotPowerOfTwo(unit);
      }
    } else if unit == 1 {
      assert Pow2(0) == 1;
    }
  }

  lemma {:induction false} AndSelf(x: nat)
    ensures And(x, x) == x
  {
    if x != 0 {
      AndSelf(x / 2);
    }
  }

  lemma {:induction false} NegativeAnd(a: int, b: int)
    requires a < 0 && b < 0
    ensures And(a, b) < 0
    decreases Abs(a)
  {
    if a != -1 {
      NegativeAnd(a / 2, b / 2);
    }
  }

  lemma HalfPowerOfTwo(n: int)
    requires n > 0 && n % 2 == 0
    ensures IsPowerOfTwo(n) <==> IsPowerOfTwo(n / 2)
  {
    if IsPowerOfTwo(n) {
      var k: nat :| n == Pow2(k);
      assert k > 0 && n / 2 == Pow2(k - 1);
    }
    if IsPowerOfTwo(n / 2) {
      var k: nat :| n / 2 == Pow2(k);
      assert n == Pow2(k + 1);
    }
  }

  lemma OddNotPowerOfTwo(n: int)
    requires n > 1 && n % 2 == 1
    ensures !IsPowerOfTwo(n)
  {
    forall k: nat
      ensures n != Pow2(k)
    {
      if k > 0 {
        assert Pow2(k) == 2 * Pow2(k - 1);
      }
      hide Pow2;
    }
  }

  /** Theorem: on powers of two, RoundUp gives the least multiple not below size; m is any other. */
  lemma RoundUpIsLeastMultiple(size: int, unit: int, m: int)
    requires IsPowerOfTwo(unit)
    ensures unit > 0 && RoundUp(size, unit).Some?
    ensures var r := RoundUp(size, unit).value;
      r % unit == 0 && size <= r < size + unit && (m % unit == 0 && m >= size ==> r <= m)
  {
    hide And, Pow2;
    var k: nat :| unit == Pow2(k);
    AssertionPasses(unit);
    var x := size + unit - 1;
    MaskClearsRemainder(x, k);
    var q := x / unit;
    assert x - x % unit == q * unit;
    RemainderUnique(q * unit, unit, q, 0);
    if m % unit == 0 && m >= size {
      NextMultiple(m, unit, q);
    }
  }

  lemma TimesKeepsOrder(a: int, b: int, unit: int)
    requires a <= b && unit > 0
    ensures a * unit <= b * unit
  {
  }

  lemma NextMultiple(m: int, unit: int, q: int)
    requires unit > 0 && m % unit == 0 && m > (q - 1) * unit
    ensures q * unit <= m
  {
    var p := m / unit;
    assert m == p * unit;
    if p < q {
      TimesKeepsOrder(p, q - 1, unit);
    } else {
      TimesKeepsOrder(q, p, unit);
    }
  }

  lemma BlockIsPowerOfTwo()
    ensures IsPowerOfTwo(BLOCK_SIZE)
  {
    assert Pow2(3) == 8 && Pow2(6) == 64 && Pow2(9) == 512 && Pow2(12) == 4096;
  }

  /** Directory, image and partition size */

  // A directory as os.walk reports it: its own size and those of its files.
  datatype Walked = Walked(dir: nat, files: seq<nat>)

  function Sum(sizes: seq<nat>): nat {
    if sizes == [] then 0 else Sum(sizes[..|sizes| - 1]) + sizes[|sizes| - 1]
  }

  function Total(walk: seq<Walked>): nat {
    if walk == [] then 0
    else Total(walk[..|walk| - 1]) + walk[|walk| - 1].dir + Sum(walk[|walk| - 1].files)
  }

  function Count(walk: seq<Walked>): nat {
    if walk == [] then 0 else Count(walk[..|walk| - 1]) + 1 + |walk[|walk| - 1].files|
  }

  // What the sizes come to when each takes whole blocks.
  function InBlocks(size: nat): nat {
    (size + 4095) / 4096 * 4096
  }

  function SumInBlocks(sizes: seq<nat>): nat {
    if sizes == [] then 0 else SumInBlocks(sizes[..|sizes| - 1]) + InBlocks(sizes[|sizes| - 1])
  }

  function TotalInBlocks(walk: seq<Walked>): nat {
    if walk == [] then 0
    else TotalInBlocks(walk[..|walk| - 1]) + InBlocks(walk[|walk| - 1].dir) + SumInBlocks(walk[|walk| - 1].files)
  }

  // size is made of whole blocks, holds total bytes and wastes less than one block for each of n files.
  predicate Blocks(size: int, total: nat, n: nat) {
    size % BLOCK_SIZE == 0 && total <= size <= total + n * (BLOCK_SIZE - 1)
  }

  lemma OneMoreFile(size: int, total: nat, n: nat, file: nat)
    requires Blocks(size, total, n)
    ensures RoundUp(file, BLOCK_SIZE).Some? && Blocks(size + RoundUp(file, BLOCK_SIZE).value, total + file, n + 1)
    ensures RoundUp(file, BLOCK_SIZE).value == InBlocks(file)
  {
    hide RoundUp, And, IsPowerOfTwo;
    BlockIsPowerOfTwo();
    RoundUpIsLeastMultiple(file, BLOCK_SIZE, 0);
  }

  method GetDirSize(walk: seq<Walked>) returns (size: int)
    ensures size == TotalInBlocks(walk)
    ensures Blocks(size, Total(walk), Count(walk))
  {
    hide RoundUp, InBlocks;
    size := 0;
    var i := 0;
    while i < |walk|
      invariant 0 <= i <= |walk| && size == TotalInBlocks(walk[..i])
      invariant Blocks(size, Total(walk[..i]), Count(walk[..i]))
    {
      assert walk[..i + 1][..i] == walk[..i];
      var d := walk[i];
      OneMoreFile(size, Total(walk[..i]), Count(walk[..i]), d.dir);
      size := size + RoundUp(d.dir, BLOCK_SIZE).value;
      var j := 0;
      assert d.files[..0] == [];
      while j < |d.files|
        invariant 0 <= j <= |d.files|
        invariant size == TotalInBlocks(walk[..i]) + InBlocks(d.dir) + SumInBlocks(d.files[..j])
        invariant Blocks(size, Total(walk[..i]) + d.dir + Sum(d.files[..j]), Count(walk[..i]) + 1 + j)
      {
        assert d.files[..j + 1][..j] == d.files[..j];
        OneMoreFile(size, Total(walk[..i]) + d.dir + Sum(d.files[..j]), Count(walk[..i]) + 1 + j, d.files[j]);
        size := size + RoundUp(d.files[j], BLOCK_SIZE).value;
        j := j + 1;
      }
      assert d.files[..j] == d.files;
      i := i + 1;
    }
    assert walk[..i] == walk;
  }

  // The size given to mke2fs, in MiB; / floors.
  function ImageSizeInMiB(dirSize: int): int {
    dirSize / MIB + 16
  }

  function PartitionSize(vbmetaOffset: nat, vbmetaSize: nat): int {
    match RoundUp(vbmetaOffset + vbmetaSize, BLOCK_SIZE) case Some(end) => end + BLOCK_SIZE case None => 0
  }

  /** The image has more than 15 MiB to spare, and at most 16. */
  lemma ImageMargin(dirSize: int)
    ensures dirSize + 15 * 1_048_576 < ImageSizeInMiB(dirSize) * 1_048_576 <= dirSize + 16 * 1_048_576
  {
    assert dirSize == (dirSize / MIB) * MIB + dirSize % MIB;
  }

  /** The partition is block-aligned with one whole block after the end of vbmeta, and no more than two. */
  lemma PartitionHoldsFooter(vbmetaOffset: nat, vbmetaSize: nat)
    ensures var end, p := vbmetaOffset + vbmetaSize, PartitionSize(vbmetaOffset, vbmetaSize);
      p % 4096 == 0 && end + 4096 <= p < end + 8192
  {
    hide RoundUp, And, IsPowerOfTwo;
    BlockIsPowerOfTwo();
    RoundUpIsLeastMultiple(vbmetaOffset + vbmetaSize, BLOCK_SIZE, 0);
  }
}
