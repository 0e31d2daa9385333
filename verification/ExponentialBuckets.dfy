/** The downscaling of exponential histogram buckets of stats/internal/otel/prometheus/exporter.go, in the int32 and
    uint64 arithmetic of the source. */
module ExponentialBuckets {
  import opened Arithmetic
  import opened Options

  const TWO32 := 0x1_0000_0000
  const TWO64 := 0x1_0000_0000_0000_0000

  type int32 = x: int | -0x8000_0000 <= x < 0x8000_0000
  type uint64 = x: int | 0 <= x < 0x1_0000_0000_0000_0000

  /** The bucket at position i counts the observations of index offset + i. */
  datatype Bucket = Bucket(offset: int32, counts: seq<uint64>)

  /** Conversion to int32. */
  function Wrap32(x: int): int32 {
    (x + 0x8000_0000) % TWO32 - 0x8000_0000
  }

  function Wrap64(x: int): uint64 {
    x % TWO64
  }

  /** An arithmetic shift to the right, bit by bit. */
  function Shift(x: int, d: nat): int
    decreases d
  {
    if d == 0 then x else Shift(x / 2, d - 1)
  }

  // ---------------------------------------------------------------- what a bucket receives

  function Total(counts: seq<int>): int {
    if counts == [] then 0 else Total(counts[..|counts| - 1]) + counts[|counts| - 1]
  }

  /** The sum of the counts whose index becomes idx. */
  function Into(counts: seq<int>, offset: int, d: nat, idx: int): int {
    if counts == [] then 0
    else
      var n := |counts| - 1;
      Into(counts[..n], offset, d, idx) + if Shift(offset + n, d) == idx then counts[n] else 0
  }

  /** The sums for n indexes from lo on. */
  function Sums(counts: seq<int>, offset: int, d: nat, lo: int, n: nat): (sums: seq<int>)
    ensures |sums| == n
  {
    seq(n, p requires 0 <= p < n => Into(counts, offset, d, lo + p))
  }

  function Wrapped(sums: seq<int>): (counts: seq<uint64>)
    ensures |counts| == |sums|
  {
    seq(|sums|, p requires 0 <= p < |sums| => Wrap64(sums[p]))
  }

  /** No index leaves int32. */
  predicate InRange(b: Bucket) {
    b.offset + |b.counts| <= 0x8000_0000
  }

  /** How many indexes the indexes of b become. */
  function Width(b: Bucket, d: nat): (w: nat)
    ensures w > 0 <==> b.counts != []
  {
    if b.counts == [] then 0
    else
      ShiftMonotone(b.offset, b.offset + |b.counts| - 1, d);
      Shift(b.offset + |b.counts| - 1, d) - Shift(b.offset, d) + 1
  }

  /** The same observations at a scale lower by d: those of index i count at i / 2^d, rounded down. */
  function Downscaled(b: Bucket, d: nat): Bucket {
    ShiftShrinks(b.offset, d);
    Bucket(Shift(b.offset, d), Wrapped(Sums(b.counts, b.offset, d, Shift(b.offset, d), Width(b, d))))
  }

  // ---------------------------------------------------------------- arithmetic

  lemma {:induction false} ShiftBounds(x: int, d: nat)
    ensures Pow2(d) * Shift(x, d) <= x < Pow2(d) * Shift(x, d) + Pow2(d)
    decreases d
  {
    if d > 0 {
      ShiftBounds(x / 2, d - 1);
      assert Pow2(d) * Shift(x, d) == 2 * (Pow2(d - 1) * Shift(x / 2, d - 1));
    }
  }

  /** Shifting divides by a power of two and rounds down, negative numbers included. */
  lemma ShiftIsFloor(x: int, d: nat)
    ensures Shift(x, d) == x / Pow2(d)
  {
    ShiftBounds(x, d);
    QuotientIs(x, Pow2(d), Shift(x, d));
  }

  lemma {:induction false} ShiftMonotone(x: int, y: int, d: nat)
    requires x <= y
    ensures Shift(x, d) <= Shift(y, d) <= Shift(x, d) + (y - x)
    decreases d
  {
    if d > 0 {
      ShiftMonotone(x / 2, y / 2, d - 1);
    }
  }

  lemma {:induction false} ShiftShrinks(x: int, d: nat)
    ensures if x >= 0 then 0 <= Shift(x, d) <= (if d > 0 then x / 2 else x) else (if d > 0 then x / 2 else x) <= Shift(x, d) < 0
    decreases d
  {
    if d > 0 {
      ShiftShrinks(x / 2, d - 1);
    }
  }

  /** Two shifts are one. */
  lemma {:induction false} ShiftAdds(x: int, d: nat, e: nat)
    ensures Shift(Shift(x, d), e) == Shift(x, d + e)
    decreases d
  {
    if d > 0 {
      ShiftAdds(x / 2, d - 1, e);
    }
  }

  // ---------------------------------------------------------------- sums

  lemma {:induction false} IntoBump(s: seq<int>, p: nat, c: int, lo: int, d: nat, idx: int)
    requires p < |s|
    ensures Into(s[p := s[p] + c], lo, d, idx) == Into(s, lo, d, idx) + if Shift(lo + p, d) == idx then c else 0
  {
    var t, n := s[p := s[p] + c], |s| - 1;
    if p < n {
      IntoBump(s[..n], p, c, lo, d, idx);
      assert t[..n] == s[..n][p := s[p] + c];
    } else {
      assert t[..n] == s[..n];
    }
  }

  lemma {:induction false} TotalBump(s: seq<int>, p: nat, c: int)
    requires p < |s|
    ensures Total(s[p := s[p] + c]) == Total(s) + c
  {
    var t, n := s[p := s[p] + c], |s| - 1;
    if p < n {
      TotalBump(s[..n], p, c);
      assert t[..n] == s[..n][p := s[p] + c];
    } else {
      assert t[..n] == s[..n];
    }
  }

  /** The indexes of n counts all become one of the width indexes from lo on. */
  predicate Fits(n: nat, offset: int, d: nat, lo: int, width: nat) {
    n > 0 ==> lo <= Shift(offset, d) && Shift(offset + n - 1, d) < lo + width
  }

  lemma FitsPrefix(n: nat, offset: int, d: nat, lo: int, width: nat)
    requires n > 0 && Fits(n, offset, d, lo, width)
    ensures lo <= Shift(offset + n - 1, d) < lo + width && Fits(n - 1, offset, d, lo, width)
  {
    ShiftMonotone(offset, offset + n - 1, d);
    ShiftMonotone(offset + n - 2, offset + n - 1, d);
  }

  /** One more count goes to the one place its index becomes. */
  lemma SumsNext(counts: seq<int>, k: nat, offset: int, d: nat, lo: int, n: nat)
    requires k < |counts| && lo <= Shift(offset + k, d) < lo + n
    ensures var p, s := Shift(offset + k, d) - lo, Sums(counts[..k], offset, d, lo, n);
            Sums(counts[..k + 1], offset, d, lo, n) == s[p := s[p] + counts[k]]
  {
    var c := counts[..k + 1];
    assert c[..k] == counts[..k];
    var p, s := Shift(offset + k, d) - lo, Sums(counts[..k], offset, d, lo, n);
    forall q | 0 <= q < n ensures Sums(c, offset, d, lo, n)[q] == s[p := s[p] + counts[k]][q] {
      assert Into(c, offset, d, lo + q) == Into(c[..k], offset, d, lo + q) + if Shift(offset + k, d) == lo + q then c[k] else 0;
    }
  }

  lemma {:induction false} NothingInto(n: nat, lo: int, d: nat, idx: int)
    ensures Into(seq(n, _ => 0), lo, d, idx) == 0 && Total(seq(n, _ => 0)) == 0
  {
    if n > 0 {
      NothingInto(n - 1, lo, d, idx);
      assert seq(n, _ => 0)[..n - 1] == seq(n - 1, _ => 0);
    }
  }

  lemma NoSums(offset: int, d: nat, lo: int, n: nat)
    ensures Sums([], offset, d, lo, n) == seq(n, _ => 0)
  {
    forall p | 0 <= p < n ensures Sums([], offset, d, lo, n)[p] == seq(n, _ => 0)[p] {
      assert Into([], offset, d, lo + p) == 0;
    }
  }

  /** Summing the sums: nothing is lost or counted twice, and a second downscaling sums as one of both. */
  lemma {:induction false} SumsOfSums(counts: seq<int>, offset: int, d: nat, lo: int, n: nat, e: nat, idx: int)
    requires Fits(|counts|, offset, d, lo, n)
    ensures Total(Sums(counts, offset, d, lo, n)) == Total(counts)
    ensures Into(Sums(counts, offset, d, lo, n), lo, e, idx) == Into(counts, offset, d + e, idx)
  {
    hide Sums, Shift;
    var k := |counts| - 1;
    if k < 0 {
      NothingInto(n, lo, e, idx);
      NoSums(offset, d, lo, n);
      assert counts == [];
    } else {
      FitsPrefix(k + 1, offset, d, lo, n);
      SumsOfSums(counts[..k], offset, d, lo, n, e, idx);
      SumsNext(counts, k, offset, d, lo, n);
      assert counts[..k + 1] == counts;
      var p, s := Shift(offset + k, d) - lo, Sums(counts[..k], offset, d, lo, n);
      IntoBump(s, p, counts[k], lo, e, idx);
      TotalBump(s, p, counts[k]);
      ShiftAdds(offset + k, d, e);
    }
  }

  lemma WrapFacts(x: nat, y: nat)
    ensures Wrap64(x) <= x && (Wrap64(x) == x <==> x < TWO64)
    ensures Wrap64(Wrap64(x) as int + Wrap64(y)) == Wrap64(x + y) && Wrap64(Wrap64(x) as int + y) == Wrap64(x + y)
  {
  }

  lemma {:induction false} WrappedInto(s: seq<nat>, lo: int, d: nat, idx: int)
    ensures 0 <= Into(Wrapped(s), lo, d, idx) && 0 <= Into(s, lo, d, idx)
    ensures Wrap64(Into(Wrapped(s), lo, d, idx)) == Wrap64(Into(s, lo, d, idx))
  {
    hide Wrap64, Shift;
    if s != [] {
      var r, n := s[..|s| - 1], |s| - 1;
      WrappedInto(r, lo, d, idx);
      assert Wrapped(s)[..n] == Wrapped(r);
      WrapFacts(Into(Wrapped(r), lo, d, idx), Wrapped(s)[n]);
      WrapFacts(Into(r, lo, d, idx), s[n]);
      WrapFacts(s[n], 0);
      WrapFacts(Into(Wrapped(r), lo, d, idx), s[n]);
    }
  }

  /** No sum overflows. */
  predicate AllFit(sums: seq<int>) {
    forall i :: 0 <= i < |sums| ==> sums[i] < TWO64
  }

  lemma {:induction false} WrappedTotal(s: seq<nat>)
    ensures 0 <= Total(Wrapped(s)) <= Total(s) && Wrap64(Total(Wrapped(s))) == Wrap64(Total(s))
    ensures Total(Wrapped(s)) == Total(s) <==> AllFit(s)
  {
    hide Wrap64;
    if s != [] {
      var r, n := s[..|s| - 1], |s| - 1;
      WrappedTotal(r);
      assert Wrapped(s)[..n] == Wrapped(r);
      WrapFacts(Total(Wrapped(r)), s[n]);
      WrapFacts(Total(Wrapped(r)), Wrap64(s[n]));
      WrapFacts(Total(r), s[n]);
      WrapFacts(s[n], 0);
    }
  }

  // ---------------------------------------------------------------- properties

  lemma WidthFits(b: Bucket, d: nat)
    ensures Fits(|b.counts|, b.offset, d, Shift(b.offset, d), Width(b, d))
  {
  }

  lemma {:induction false} SumsAreNat(counts: seq<uint64>, offset: int, d: nat, idx: int)
    ensures 0 <= Into(counts, offset, d, idx) <= Total(counts)
  {
    if counts != [] {
      SumsAreNat(counts[..|counts| - 1], offset, d, idx);
    }
  }

  /** The total is kept exactly when no sum overflows; it is never exceeded, and always kept modulo 2^64. */
  lemma TotalIsKept(b: Bucket, d: nat)
    ensures var c, sums := Downscaled(b, d), Sums(b.counts, b.offset, d, Shift(b.offset, d), Width(b, d));
            && Total(c.counts) <= Total(b.counts) && Wrap64(Total(c.counts)) == Wrap64(Total(b.counts))
            && (Total(c.counts) == Total(b.counts) <==> AllFit(sums))
            && (Total(b.counts) < TWO64 ==> Total(c.counts) == Total(b.counts))
  {
    var lo, n := Shift(b.offset, d), Width(b, d);
    var sums := Sums(b.counts, b.offset, d, lo, n);
    assert Downscaled(b, d).counts == Wrapped(sums);
    WidthFits(b, d);
    SumsOfSums(b.counts, b.offset, d, lo, n, 0, 0);
    SumsAreBounded(b, d, lo, n);
    hide Sums, Into, Wrap64, Wrapped, Total, Shift, Width, Downscaled, AllFit;
    TotalIsSmall(sums, Total(b.counts));
    WrappedTotal(sums);
  }

  lemma SumsAreBounded(b: Bucket, d: nat, lo: int, n: nat)
    ensures forall i :: 0 <= i < n ==> 0 <= Sums(b.counts, b.offset, d, lo, n)[i] <= Total(b.counts)
  {
    forall i | 0 <= i < n ensures 0 <= Sums(b.counts, b.offset, d, lo, n)[i] <= Total(b.counts) {
      SumsAreNat(b.counts, b.offset, d, lo + i);
    }
  }

  lemma TotalIsSmall(sums: seq<int>, total: int)
    requires forall i :: 0 <= i < |sums| ==> sums[i] <= total
    ensures total < TWO64 ==> AllFit(sums)
  {
  }

  /** Downscaling twice is downscaling once by the sum. */
  lemma DownscalingComposes(b: Bucket, d: nat, e: nat)
    ensures Downscaled(Downscaled(b, d), e) == Downscaled(b, d + e)
  {
    var c, lo := Downscaled(b, d), Shift(b.offset, d);
    var sums := Sums(b.counts, b.offset, d, lo, Width(b, d));
    ShiftAdds(b.offset, d, e);
    ShiftAdds(b.offset + |b.counts| - 1, d, e);
    assert b.counts != [] ==> c.offset + |c.counts| - 1 == Shift(b.offset + |b.counts| - 1, d);
    assert Width(c, e) == Width(b, d + e);
    WidthFits(b, d);
    forall i | 0 <= i < |sums| ensures sums[i] >= 0 {
      SumsAreNat(b.counts, b.offset, d, lo + i);
    }
    var t := Downscaled(b, d + e);
    forall p | 0 <= p < |t.counts| ensures Downscaled(c, e).counts[p] == t.counts[p] {
      SumsOfSums(b.counts, b.offset, d, lo, Width(b, d), e, t.offset + p);
      WrappedInto(sums, lo, e, t.offset + p);
    }
  }

  // ---------------------------------------------------------------- the function

  lemma WrapInRange(x: int32)
    ensures Wrap32(x) == x
  {
  }

  /** The last index in int32 arithmetic: beyond the range it comes out negative. */
  lemma LastIndex(b: Bucket)
    requires 0 < |b.counts| <= 0x8000_0000
    ensures var last := Wrap32(Wrap32(b.offset + Wrap32(|b.counts|)) - 1);
            if InRange(b) then last == b.offset + |b.counts| - 1 else last < 0 <= b.offset
  {
  }

  lemma {:induction false} UnscaledInto(counts: seq<int>, offset: int, p: nat)
    ensures Into(counts, offset, 0, offset + p) == if p < |counts| then counts[p] else 0
  {
    if counts != [] {
      UnscaledInto(counts[..|counts| - 1], offset, p);
    }
  }

  lemma UnscaledIsSame(b: Bucket, d: nat)
    requires b.counts == [] || d == 0
    ensures Downscaled(b, d) == Bucket(Downscaled(b, d).offset, b.counts)
  {
    if d == 0 {
      forall p | 0 <= p < |b.counts| ensures Into(b.counts, b.offset, 0, b.offset + p) == b.counts[p] {
        UnscaledInto(b.counts, b.offset, p);
      }
    }
  }

  function Result(b: Bucket, d: nat): Bucket {
    ShiftShrinks(b.offset, d);
    if InRange(b) || d == 0 then Downscaled(b, d) else Bucket(Shift(b.offset, d), [])
  }

  /** Observations are lost exactly when a sum overflows, or when an index leaves int32 and not all counts are 0. */
  lemma TotalIsKeptExactly(b: Bucket, d: nat)
    ensures Total(Result(b, d).counts) == Total(b.counts) <==>
            if InRange(b) || d == 0 then
              var sums := Sums(b.counts, b.offset, d, Shift(b.offset, d), Width(b, d)); AllFit(sums)
            else forall i :: 0 <= i < |b.counts| ==> b.counts[i] == 0
  {
    TotalIsKept(b, d);
    TotalIsZero(b.counts);
  }

  lemma {:induction false} TotalIsZero(counts: seq<uint64>)
    ensures Total(counts) >= 0 && (Total(counts) == 0 <==> forall i :: 0 <= i < |counts| ==> counts[i] == 0)
  {
    if counts != [] {
      TotalIsZero(counts[..|counts| - 1]);
    }
  }

  /** So is the function: two calls are one, also for a bucket whose counts are dropped. */
  lemma ResultComposes(b: Bucket, d: nat, e: nat)
    ensures Result(Result(b, d), e) == Result(b, d + e)
  {
    ShiftAdds(b.offset, d, e);
    if d == 0 {
      UnscaledIsSame(b, 0);
    } else if InRange(b) {
      DownscaledInRange(b, d);
      DownscalingComposes(b, d, e);
    } else {
      UnscaledIsSame(Result(b, d), e);
    }
  }

  lemma DownscaledInRange(b: Bucket, d: nat)
    requires InRange(b)
    ensures InRange(Downscaled(b, d))
  {
    if b.counts != [] {
      ShiftShrinks(b.offset + |b.counts| - 1, d);
    }
  }

  /** Two counts whose sum overflows are lost but for the rest, and one beyond int32 is lost altogether. */
  lemma TotalsAreLost()
    ensures var b := Bucket(0, [0xFFFF_FFFF_FFFF_FFFF, 1]); Result(b, 1).counts == [0] && Total(b.counts) == TWO64
    ensures var b := Bucket(0x7FFF_FFFF, [1, 1]); Result(b, 1).counts == [] && Total(b.counts) == 2
  {
    var c: seq<int> := [0xFFFF_FFFF_FFFF_FFFF, 1];
    var b := Bucket(0, [0xFFFF_FFFF_FFFF_FFFF, 1]);
    assert c[..1] == [0xFFFF_FFFF_FFFF_FFFF] && c[..1][..0] == [];
    assert Shift(0, 1) == 0 && Shift(1, 1) == 0 && Width(b, 1) == 1;
    assert Into(c[..1], 0, 1, 0) == 0xFFFF_FFFF_FFFF_FFFF;
    assert Into(c, 0, 1, 0) == TWO64 && Total(c[..1]) == 0xFFFF_FFFF_FFFF_FFFF;
    assert Sums(c, 0, 1, 0, 1) == [TWO64];
    var d: seq<int> := [1, 1];
    assert d[..1] == [1] && d[..1][..0] == [] && Total(d[..1]) == 1;
  }

  // ---------------------------------------------------------------- the function, for any number of counts

  /** Where count i goes, in int32 arithmetic. */
  function Position(offset: int32, i: nat, d: nat): int32 {
    ShiftShrinks(offset, d);
    Wrap32(Shift(Wrap32(offset + Wrap32(i)), d) - Shift(offset, d))
  }

  /** The sum of the first k counts that go to position p. */
  function Placed(b: Bucket, d: nat, k: nat, p: int): (sum: int)
    requires k <= |b.counts|
    ensures sum >= 0
  {
    if k == 0 then 0 else Placed(b, d, k - 1, p) + if Position(b.offset, k - 1, d) == p then b.counts[k - 1] else 0
  }

  function PlacedCounts(b: Bucket, d: nat, k: nat, n: nat): (r: seq<uint64>)
    requires k <= |b.counts|
    ensures |r| == n
  {
    seq(n, p requires 0 <= p < n => Wrap64(Placed(b, d, k, p)))
  }

  /** The last index, and how many indexes it makes, in int32 arithmetic. */
  function LastIn32(b: Bucket): int32 {
    Wrap32(Wrap32(b.offset + Wrap32(|b.counts|)) - 1)
  }

  function CountIn32(b: Bucket, d: nat): int32 {
    Wrap32(Wrap32(Shift(LastIn32(b), d) - Shift(b.offset, d)) + 1)
  }

  /** What the function returns. */
  function Returned(b: Bucket, d: nat): Bucket {
    ShiftShrinks(b.offset, d);
    if b.counts == [] || d == 0 then Bucket(Shift(b.offset, d), b.counts)
    else if CountIn32(b, d) <= 0 then Bucket(Shift(b.offset, d), [])
    else Bucket(Shift(b.offset, d), PlacedCounts(b, d, |b.counts|, CountIn32(b, d)))
  }

  /** For up to 2^31 counts: with indexes in int32 they are downscaled, and beyond all are dropped. */
  lemma ReturnedIsResult(b: Bucket, d: nat)
    requires |b.counts| <= 0x8000_0000
    ensures Returned(b, d) == Result(b, d)
  {
    if b.counts == [] || d == 0 {
      UnscaledIsSame(b, d);
    } else {
      LastIndex(b);
      ShiftShrinks(b.offset, d);
      ShiftShrinks(LastIn32(b), d);
      CountIs(b, d);
      if InRange(b) {
        PlacedIsSummed(b, d);
      }
    }
  }

  lemma CountIs(b: Bucket, d: nat)
    requires 0 < |b.counts| <= 0x8000_0000 && d > 0
    ensures if InRange(b) then CountIn32(b, d) == Width(b, d) else CountIn32(b, d) <= 0
  {
    LastIndex(b);
    ShiftShrinks(b.offset, d);
    ShiftShrinks(LastIn32(b), d);
    var x := Shift(LastIn32(b), d) - Shift(b.offset, d);
    WrapInRange(x);
    WrapInRange(x + 1);
  }

  lemma PlacedIsSummed(b: Bucket, d: nat)
    requires InRange(b) && 0 < |b.counts| <= 0x8000_0000 && d > 0
    ensures PlacedCounts(b, d, |b.counts|, Width(b, d)) == Wrapped(Sums(b.counts, b.offset, d, Shift(b.offset, d), Width(b, d)))
  {
    forall p | 0 <= p < Width(b, d) ensures Placed(b, d, |b.counts|, p) == Into(b.counts, b.offset, d, Shift(b.offset, d) + p) {
      PlacedIsInto(b, d, |b.counts|, p);
      assert b.counts[..|b.counts|] == b.counts;
    }
  }

  lemma {:induction false} PlacedIsInto(b: Bucket, d: nat, k: nat, p: int)
    requires InRange(b) && |b.counts| <= 0x8000_0000 && d > 0 && k <= |b.counts|
    ensures Placed(b, d, k, p) == Into(b.counts[..k], b.offset, d, Shift(b.offset, d) + p)
  {
    if k > 0 {
      PlacedIsInto(b, d, k - 1, p);
      PlaceOf(b, d, k - 1);
      assert b.counts[..k][..k - 1] == b.counts[..k - 1];
    }
  }

  /** The range guard drops nothing: with indexes in int32 every one gets its place. */
  lemma PlaceOf(b: Bucket, d: nat, i: nat)
    requires InRange(b) && i < |b.counts| <= 0x8000_0000 && d > 0
    ensures 0 <= Shift(b.offset + i, d) - Shift(b.offset, d) < Width(b, d)
    ensures Position(b.offset, i, d) == Shift(b.offset + i, d) - Shift(b.offset, d)
  {
    ShiftMonotone(b.offset, b.offset + i, d);
    ShiftMonotone(b.offset + i, b.offset + |b.counts| - 1, d);
    ShiftShrinks(b.offset, d);
    ShiftShrinks(b.offset + i, d);
    hide Wrap32, Shift;
    WrapInRange(i);
    WrapInRange(b.offset + i);
    WrapInRange(Shift(b.offset + i, d) - Shift(b.offset, d));
  }

  /** Adding a count in place, modulo 2^64, behind the range guard. */
  lemma PlacedNext(b: Bucket, d: nat, k: nat, n: nat)
    requires k < |b.counts|
    ensures var p, s := Position(b.offset, k, d), PlacedCounts(b, d, k, n);
            PlacedCounts(b, d, k + 1, n) ==
            if b.counts[k] != 0 && 0 <= p < n then s[p := Wrap64(s[p] as int + b.counts[k])] else s
  {
    hide Position, Wrap64;
    var p, s, t := Position(b.offset, k, d), PlacedCounts(b, d, k, n), PlacedCounts(b, d, k + 1, n);
    forall q | 0 <= q < n ensures t[q] == if q == p then Wrap64(s[q] as int + b.counts[k]) else s[q] {
      WrapFacts(Placed(b, d, k, q), b.counts[k]);
    }
    if b.counts[k] == 0 {
      forall q | 0 <= q < n ensures t[q] == s[q] {
        assert Placed(b, d, k + 1, q) == Placed(b, d, k, q);
      }
    }
  }

  method Downscale(b: Bucket, delta: int32) returns (r: Option<Bucket>)
    ensures r == if delta < 0 then None else Some(Returned(b, delta))
    ensures delta >= 0 && |b.counts| <= 0x8000_0000 ==> r == Some(Result(b, delta))
  {
    if delta < 0 {
      return None;
    }
    if |b.counts| <= 0x8000_0000 {
      ReturnedIsResult(b, delta);
    }
    ShiftShrinks(b.offset, delta);
    hide Wrap32, Shift, Result, PlacedCounts;
    var newOffset: int32 := Shift(b.offset, delta);
    if |b.counts| == 0 || delta < 1 {
      return Some(Bucket(newOffset, b.counts));
    }
    var last := Wrap32(Wrap32(b.offset + Wrap32(|b.counts|)) - 1);
    var count := Wrap32(Wrap32(Shift(last, delta) - newOffset) + 1);
    if count <= 0 {
      return Some(Bucket(newOffset, []));
    }
    var newCounts := new uint64[count](_ => 0);
    FillCounts(b, delta, newOffset, newCounts);
    r := Some(Bucket(newOffset, newCounts[..]));
  }

  /** The loop of the function. */
  method FillCounts(b: Bucket, delta: int32, newOffset: int32, newCounts: array<uint64>)
    requires delta > 0 && newOffset == Shift(b.offset, delta) && forall p :: 0 <= p < newCounts.Length ==> newCounts[p] == 0
    modifies newCounts
    ensures newCounts[..] == PlacedCounts(b, delta, |b.counts|, newCounts.Length)
  {
    NothingPlaced(b, delta, newCounts.Length);
    hide Wrap32, Wrap64, Shift, PlacedCounts;
    ghost var n := newCounts.Length;
    for i := 0 to |b.counts|
      invariant newCounts[..] == PlacedCounts(b, delta, i, n)
    {
      ghost var was := newCounts[..];
      PlacedNext(b, delta, i, n);
      if b.counts[i] != 0 {
        var position := Wrap32(Shift(Wrap32(b.offset + Wrap32(i)), delta) - newOffset);
        if 0 <= position < newCounts.Length {
          newCounts[position] := Wrap64(newCounts[position] as int + b.counts[i]);
          assert newCounts[..] == was[position := Wrap64(was[position] as int + b.counts[i])];
        }
      }
    }
  }

  lemma NothingPlaced(b: Bucket, d: nat, n: nat)
    ensures PlacedCounts(b, d, 0, n) == seq(n, _ => 0)
  {
  }
}
