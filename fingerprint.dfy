/**
 * The perceptual hash (`dhash`) of a tile and the near-duplicate test on
 * hashes (`hamming_distance` and the `any(...)` over the kept hashes).
 *
 * The hash starts from the tile already converted to grayscale and resized to
 * (size + 1) columns by size rows, flattened row by row; the conversion and
 * the resampling belong to the imaging library and are not modelled.
 */
module Fingerprint {
  import opened Bits

  /** One grayscale ("L" mode) pixel value. */
  type Gray = v: int | 0 <= v <= 255

  /** The hash grid size `dhash` is called with: 8, for a 64-bit hash. */
  const HashSize: nat := 8

  /** A tile resized to (HashSize + 1) x HashSize grayscale pixels. */
  type Thumb = s: seq<Gray> | |s| == (HashSize + 1) * HashSize
    witness seq((HashSize + 1) * HashSize, i => 0)

  /** Row y of the grid starts at y * (size + 1) and its last pixel is inside the grid. */
  lemma RowInside(size: nat, y: nat)
    requires y < size
    ensures y * (size + 1) + size < (size + 1) * size
  {
    assert y * (size + 1) <= (size - 1) * (size + 1);
  }

  /** The comparisons of row y: entry x says whether pixel x is brighter than pixel x + 1. */
  function RowDiffs(pixels: seq<Gray>, size: nat, y: nat): (d: seq<bool>)
    requires |pixels| == (size + 1) * size && y < size
    ensures |d| == size
  {
    RowInside(size, y);
    seq(size, x requires 0 <= x < size => pixels[y * (size + 1) + x] > pixels[y * (size + 1) + x + 1])
  }

  /** The comparisons of rows 0 .. y - 1, one row after the other. */
  function Diffs(pixels: seq<Gray>, size: nat, y: nat): (d: seq<bool>)
    requires |pixels| == (size + 1) * size && y <= size
    ensures |d| == y * size
  {
    if y == 0 then [] else Diffs(pixels, size, y - 1) + RowDiffs(pixels, size, y - 1)
  }

  /** Pixel (x, y) of the grid is strictly brighter than pixel (x + 1, y). */
  predicate LeftBrighter(pixels: seq<Gray>, size: nat, y: nat, x: nat)
    requires |pixels| == (size + 1) * size && y < size && x < size
  {
    RowInside(size, y);
    pixels[y * (size + 1) + x] > pixels[y * (size + 1) + x + 1]
  }

  /** The number whose bit i is set exactly when bs[i] holds. */
  function FromBits(bs: seq<bool>): nat
  {
    if bs == [] then 0 else (if bs[0] then 1 else 0) + 2 * FromBits(bs[1..])
  }

  /** The value `dhash` computes: bit y * size + x is pixel (x, y) > pixel (x + 1, y). */
  function DHashValue(pixels: seq<Gray>, size: nat): nat
    requires |pixels| == (size + 1) * size
  {
    FromBits(Diffs(pixels, size, size))
  }

  lemma {:induction false} FromBitsBelow(bs: seq<bool>)
    ensures FromBits(bs) < Pow2(|bs|)
  {
    if bs != [] {
      FromBitsBelow(bs[1..]);
    }
  }

  lemma {:induction false} FromBitsBit(bs: seq<bool>, i: nat)
    ensures Bit(FromBits(bs), i) == if i < |bs| && bs[i] then 1 else 0
  {
    if bs == [] {
      ZeroBits(i);
    } else {
      BitOfDouble(FromBits(bs[1..]), if bs[0] then 1 else 0, i);
      if i > 0 {
        FromBitsBit(bs[1..], i - 1);
      }
    }
  }

  /** Appending one bit at the top adds 2^|bs| when it is set. */
  lemma {:induction false} FromBitsSnoc(bs: seq<bool>, b: bool)
    ensures FromBits(bs + [b]) == FromBits(bs) + if b then Pow2(|bs|) else 0
  {
    if bs != [] {
      assert (bs + [b])[1..] == bs[1..] + [b];
      FromBitsSnoc(bs[1..], b);
    }
  }

  /** Entry y' * size + x of the comparisons is row y', column x. */
  lemma {:induction false} DiffsAt(pixels: seq<Gray>, size: nat, y: nat, y': nat, x: nat)
    requires |pixels| == (size + 1) * size && y <= size
    requires y' < y && x < size
    ensures y' * size + x < y * size
    ensures Diffs(pixels, size, y)[y' * size + x] == RowDiffs(pixels, size, y')[x]
  {
    var k := y' * size + x;
    var front := Diffs(pixels, size, y - 1);
    assert |front| == (y - 1) * size;
    assert Diffs(pixels, size, y) == front + RowDiffs(pixels, size, y - 1);
    if y' == y - 1 {
      assert k - |front| == x;
    } else {
      MulMono(y' + 1, y - 1, size);
      assert k < |front|;
      DiffsAt(pixels, size, y - 1, y', x);
    }
  }

  /** The hash of a (size + 1) x size grid has size * size bits. */
  lemma DHashBelow(pixels: seq<Gray>, size: nat)
    requires |pixels| == (size + 1) * size
    ensures DHashValue(pixels, size) < Pow2(size * size)
  {
    FromBitsBelow(Diffs(pixels, size, size));
  }

  /**
   * Bit y * size + x of the hash is set exactly when pixel (x, y) is strictly
   * brighter than its right neighbour; equal neighbours leave it clear.
   */
  lemma DHashBit(pixels: seq<Gray>, size: nat, y: nat, x: nat)
    requires |pixels| == (size + 1) * size && y < size && x < size
    ensures Bit(DHashValue(pixels, size), y * size + x) == 1 <==> LeftBrighter(pixels, size, y, x)
  {
    RowInside(size, y);
    DiffsAt(pixels, size, size, y, x);
    FromBitsBit(Diffs(pixels, size, size), y * size + x);
  }

  /**
   * One step of the inner loop of `dhash`: pixels row + x and row + x + 1 are
   * inside the grid, and bit y * size + x is set when the first is brighter.
   */
  lemma DHashStep(pixels: seq<Gray>, size: nat, y: nat, x: nat, bits: nat)
    requires |pixels| == (size + 1) * size && y < size && x < size
    requires bits == FromBits(Diffs(pixels, size, y) + RowDiffs(pixels, size, y)[..x])
    ensures y * (size + 1) + x + 1 < |pixels|
    ensures (if pixels[y * (size + 1) + x] > pixels[y * (size + 1) + x + 1] then Or(bits, Pow2(y * size + x)) else bits)
      == FromBits(Diffs(pixels, size, y) + RowDiffs(pixels, size, y)[..x + 1])
  {
    RowInside(size, y);
    var done := Diffs(pixels, size, y) + RowDiffs(pixels, size, y)[..x];
    var next := RowDiffs(pixels, size, y)[x];
    assert |done| == y * size + x;
    assert done + [next] == Diffs(pixels, size, y) + RowDiffs(pixels, size, y)[..x + 1];
    FromBitsSnoc(done, next);
    FromBitsBelow(done);
    OrHighBit(bits, |done|);
  }

  /** `dhash` from the resized grid on: a nested loop that sets bit `bit_idx` when left > right. */
  method DHash(pixels: seq<Gray>, size: nat) returns (bits: nat)
    requires |pixels| == (size + 1) * size
    ensures bits == DHashValue(pixels, size)
    ensures bits < Pow2(size * size)
    ensures forall y, x :: 0 <= y < size && 0 <= x < size ==>
      (Bit(bits, y * size + x) == 1 <==> LeftBrighter(pixels, size, y, x))
  {
    bits := 0;
    var bitIdx: nat := 0;
    for y := 0 to size
      invariant bitIdx == y * size
      invariant bits == FromBits(Diffs(pixels, size, y))
    {
      var row := y * (size + 1);
      assert Diffs(pixels, size, y) + RowDiffs(pixels, size, y)[..0] == Diffs(pixels, size, y);
      for x := 0 to size
        invariant bitIdx == y * size + x
        invariant bits == FromBits(Diffs(pixels, size, y) + RowDiffs(pixels, size, y)[..x])
      {
        DHashStep(pixels, size, y, x, bits);
        var left := pixels[row + x];
        var right := pixels[row + x + 1];
        if left > right {
          bits := Or(bits, Pow2(bitIdx));
        }
        bitIdx := bitIdx + 1;
      }
      assert RowDiffs(pixels, size, y)[..size] == RowDiffs(pixels, size, y);
      assert bitIdx == (y + 1) * size;
    }
    DHashBelow(pixels, size);
    DHashBits(pixels, size);
  }

  /** Every bit of the hash, as `DHashBit` states it for one. */
  lemma DHashBits(pixels: seq<Gray>, size: nat)
    requires |pixels| == (size + 1) * size
    ensures forall y, x :: 0 <= y < size && 0 <= x < size ==>
      (Bit(DHashValue(pixels, size), y * size + x) == 1 <==> LeftBrighter(pixels, size, y, x))
  {
    forall y, x | 0 <= y < size && 0 <= x < size
      ensures Bit(DHashValue(pixels, size), y * size + x) == 1 <==> LeftBrighter(pixels, size, y, x)
    {
      DHashBit(pixels, size, y, x);
    }
  }

  /** `hamming_distance(a, b)`: the number of one bits of `a ^ b`. */
  function Hamming(a: nat, b: nat): nat
  {
    PopCount(Xor(a, b))
  }

  lemma HammingSelf(a: nat)
    ensures Hamming(a, a) == 0
  {
    XorSelf(a);
  }

  lemma HammingSymmetric(a: nat, b: nat)
    ensures Hamming(a, b) == Hamming(b, a)
  {
    XorCommutes(a, b);
  }

  /** Distance 0 means equal hashes, and only then. */
  lemma HammingZeroIff(a: nat, b: nat)
    ensures Hamming(a, b) == 0 <==> a == b
  {
    PopCountZeroIff(Xor(a, b));
    XorZeroIff(a, b);
  }

  /** Two n-bit hashes differ in at most n bits. */
  lemma HammingAtMost(a: nat, b: nat, n: nat)
    requires a < Pow2(n) && b < Pow2(n)
    ensures Hamming(a, b) <= n
  {
    XorBelow(a, b, n);
    PopCountAtMost(Xor(a, b), n);
  }

  /** Two 64-bit hashes, such as those `dhash` makes with size 8, differ in at most 64 bits. */
  lemma Hamming64(a: nat, b: nat)
    requires a < Pow2(64) && b < Pow2(64)
    ensures Hamming(a, b) <= 64
  {
    HammingAtMost(a, b, 64);
  }

  /** `any(hamming_distance(h, k) <= maxDist for k in kept)`, scanning kept in order. */
  function AnyWithin(h: nat, kept: seq<nat>, maxDist: int): (b: bool)
    ensures b <==> exists i :: 0 <= i < |kept| && Hamming(h, kept[i]) <= maxDist
  {
    if kept == [] then false
    else Hamming(h, kept[0]) <= maxDist || AnyWithin(h, kept[1..], maxDist)
  }

  /** The duplicate bound is inclusive: distance maxDist is a duplicate, maxDist + 1 is not. */
  lemma DuplicateBoundary(h: nat, f: nat, maxDist: int)
    ensures Hamming(h, f) == maxDist ==> AnyWithin(h, [f], maxDist)
    ensures Hamming(h, f) == maxDist + 1 ==> !AnyWithin(h, [f], maxDist)
  {
  }

  /** Every two hashes of the list are more than maxDist apart. */
  ghost predicate Separated(kept: seq<nat>, maxDist: int)
  {
    forall i, j :: 0 <= i < j < |kept| ==> Hamming(kept[i], kept[j]) > maxDist
  }

  /** Appending a hash that is not within maxDist of any kept one keeps the list separated. */
  lemma SeparatedAppend(kept: seq<nat>, h: nat, maxDist: int)
    requires Separated(kept, maxDist) && !AnyWithin(h, kept, maxDist)
    ensures Separated(kept + [h], maxDist)
  {
    forall i | 0 <= i < |kept|
      ensures Hamming(kept[i], h) > maxDist
    {
      HammingSymmetric(kept[i], h);
    }
  }
}
