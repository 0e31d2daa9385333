/** partmap/partitionmapping.go and partmap/murmur.go: partitions of the 32-bit space, numbered or named by the start
    of their range, and the framing of a mapping in bytes. gzip is an inverse pair around the bytes and left out. */
module PartitionMapping {
  import opened Arithmetic
  import opened Options

  const TWO16 := 0x1_0000
  const TWO32 := 0x1_0000_0000

  type uint8 = x: int | 0 <= x < 0x100
  type uint16 = x: int | 0 <= x < 0x1_0000
  type uint32 = x: int | 0 <= x < 0x1_0000_0000

  // ---------------------------------------------------------------- windows

  function Window(n: uint32): (w: uint32)
    requires n >= 2
    ensures w >= 1
  {
    WindowBounds(n);
    TWO32 / n
  }

  /** Where window i of width w starts, and the number of the window that starts there, in uint32 and uint16. */
  function StartOf(i: uint16, w: uint32): uint32 {
    i * w % TWO32
  }

  function NumberOf(start: uint32, w: uint32): uint16
    requires w > 0
  {
    start / w % TWO16
  }

  predicate Starts(start: uint32, w: uint32)
    requires w > 0
  {
    start % w == 0
  }

  function RangeStart(i: uint16, n: uint32): uint32
    requires n >= 2
  {
    StartOf(i, Window(n))
  }

  function Index(start: uint32, n: uint32): uint16
    requires n >= 2
  {
    NumberOf(start, Window(n))
  }

  predicate Aligned(start: uint32, n: uint32)
    requires n >= 2
  {
    Starts(start, Window(n))
  }

  lemma WindowBounds(n: uint32)
    requires n >= 2
    ensures 1 <= TWO32 / n <= 0x8000_0000 && n * (TWO32 / n) <= TWO32 < n * (TWO32 / n) + n
    ensures n <= TWO16 ==> TWO32 / n >= TWO16
  {
    var w := TWO32 / n;
    assert TWO32 == n * w + TWO32 % n;
    assert w >= 1 by { if w <= 0 { Monotone(n, w, 0); } }
    assert w <= 0x8000_0000 by { if w > 0x8000_0000 { Monotone(w, 2, n); } }
    if n <= TWO16 {
      WideWindow(n, w);
    }
  }

  /** The windows are as wide as that many can be within the 32-bit space. */
  lemma WindowIsWidest(n: uint32)
    requires n >= 2
    ensures n * Window(n) <= TWO32 < n * (Window(n) + 1)
  {
    WindowBounds(n);
  }

  lemma WideWindow(n: int, w: int)
    requires 0 <= n <= TWO16 && TWO32 < n * w + n
    ensures w >= TWO16
  {
    if w < TWO16 {
      Monotone(n, w, TWO16 - 1);
    }
  }

  lemma FewWindows(w: int, q: int)
    requires w >= TWO16 && 0 <= w * q < TWO32
    ensures 0 <= q < TWO16
  {
    if q >= TWO16 {
      Monotone(w, TWO16, q);
    } else if q < 0 {
      Monotone(w, q, -1);
    }
  }

  /** An index comes back from the start of its range exactly if that start is in the 32-bit space, as it is for
      every index below the number of partitions; the start is then aligned. */
  lemma IndexOfRangeStart(i: uint16, n: uint32)
    requires n >= 2
    ensures Index(RangeStart(i, n), n) == i <==> i * Window(n) < TWO32
    ensures i < n ==> i * Window(n) < TWO32
    ensures i * Window(n) < TWO32 ==> RangeStart(i, n) == i * Window(n) && Aligned(RangeStart(i, n), n)
  {
    var w := Window(n);
    WindowBounds(n);
    if i < n {
      Below(w, i, n);
    }
    if i * w < TWO32 {
      Monotone(w, 0, i);
      QuotientIs(i * w, w, i);
      SmallMod(i * w);
    } else {
      SmallerQuotient(i * w % TWO32, w, i);
    }
  }

  lemma SmallerQuotient(start: nat, w: int, i: nat)
    requires w > 0 && start < i * w
    ensures start / w % TWO16 < i
  {
    assert start == w * (start / w) + start % w;
    if start / w >= i {
      Monotone(w, i, start / w);
    }
  }

  lemma Below(w: int, i: int, n: int)
    requires 0 <= i < n && w >= 1 && n * w <= TWO32
    ensures 0 <= i * w == w * i < TWO32
  {
    Monotone(w, i, n - 1);
    Monotone(w, 0, i);
  }

  lemma SmallMod(x: uint32)
    ensures x % TWO32 == x
  {
  }

  /** An aligned range start comes back from its index, for up to 65536 partitions. */
  lemma RangeStartOfIndex(start: uint32, n: uint32)
    requires 2 <= n <= TWO16 && Aligned(start, n)
    ensures RangeStart(Index(start, n), n) == start
  {
    var w := Window(n);
    WindowBounds(n);
    var q := start / w;
    assert start == w * q by { Quotients(start, w); }
    FewWindows(w, q);
    assert Index(start, n) == q && w * q == q * w;
  }

  lemma Quotients(a: int, w: int)
    requires w > 0 && a % w == 0
    ensures a == w * (a / w)
  {
  }

  /** Every aligned range start comes back from its index if and only if there are at most 65536 partitions: beyond,
      the start of window 65536 comes back as 0. */
  lemma RangeStartsComeBackExactly(n: uint32)
    requires n >= 2
    ensures (forall start: uint32 :: Aligned(start, n) ==> RangeStart(Index(start, n), n) == start) <==> n <= TWO16
  {
    if n <= TWO16 {
      forall start: uint32 | Aligned(start, n) ensures RangeStart(Index(start, n), n) == start {
        RangeStartOfIndex(start, n);
      }
    } else {
      var start := WrappingStart(n);
    }
  }

  lemma WrappingStart(n: uint32) returns (start: uint32)
    requires n > TWO16
    ensures start > 0 && Aligned(start, n) && Index(start, n) == 0 && RangeStart(0, n) == 0
  {
    var w := Window(n);
    WindowBounds(n);
    NarrowWindow(n, w);
    start := TWO16 * w;
    QuotientIs(start, w, TWO16);
  }

  lemma NarrowWindow(n: int, w: int)
    requires n > TWO16 && w >= 1 && n * w <= TWO32
    ensures TWO16 * w < TWO32
  {
    assert n * w == TWO16 * w + (n - TWO16) * w;
    Monotone(n - TWO16, 1, w);
  }

  // ---------------------------------------------------------------- one index, one range start

  /** ToPartitionRangeStart, with its guard in uint16; None is its error. */
  function ToPartitionRangeStart(i: uint16, n: uint32): Option<uint32> {
    if n == 0 then None
    else if n == 1 then Some(0)
    else if i >= n % TWO16 then None
    else Some(RangeStart(i, n))
  }

  /** ToPartitionIndex; None is its error. */
  function ToPartitionIndex(start: uint32, n: uint32): Option<uint16> {
    if n == 0 then None else if n == 1 then Some(0) else Some(Index(start, n))
  }

  /** ToPartitionRangeStart succeeds for the one partition and else for the indexes below n modulo 65536, which is all
      that its guard lets through. What it returns is the start of the window of that number, and ToPartitionIndex
      takes it back, but for the one partition, of which every index comes back as 0. */
  lemma StartThenIndex(i: uint16, n: uint32)
    ensures ToPartitionRangeStart(i, n).Some? <==> n == 1 || (n >= 2 && i < n % TWO16)
    ensures var r := ToPartitionRangeStart(i, n);
            r.Some? ==> (n >= 2 ==> r.value == i * Window(n))
                        && (ToPartitionIndex(r.value, n) == Some(i) <==> n >= 2 || i == 0)
  {
    if n >= 2 {
      IndexOfRangeStart(i, n);
    }
  }

  /** An aligned start goes to its index and back exactly if its window is below n modulo 65536, and for the one
      partition exactly if it is 0. */
  lemma IndexThenStart(start: uint32, n: uint32)
    requires n >= 1 && (n >= 2 ==> Aligned(start, n))
    ensures ToPartitionRangeStart(ToPartitionIndex(start, n).value, n) == Some(start) <==>
            if n == 1 then start == 0 else start / Window(n) < n % TWO16
  {
    if n >= 2 {
      var w, i := Window(n), Index(start, n);
      var q := start / w;
      Divides(start, w);
      Quotients(start, w);
      WindowBounds(n);
      if i < n % TWO16 {
        Monotone(w, i, q);
        Monotone(w, 0, i);
        SmallMod(w * i);
        assert i * w == w * i;
        if w * i == w * q {
          QuotientIs(w * q, w, i);
        }
      }
    }
  }

  /** It fails for every index exactly if there is no partition, or a multiple of 65536 of them. */
  lemma NoRangeStartExactly(n: uint32)
    ensures (forall i: uint16 :: ToPartitionRangeStart(i, n).None?) <==> n % TWO16 == 0
  {
    assert n >= 1 && n % TWO16 > 0 ==> ToPartitionRangeStart(0, n).Some?;
  }

  /** For instance for 131072 partitions. */
  lemma NoRangeStartOf131072(i: uint16)
    ensures ToPartitionRangeStart(i, 0x2_0000).None?
  {
    NoRangeStartExactly(0x2_0000);
  }

  // ---------------------------------------------------------------- conversions of mappings

  type ByStart = map<uint32, uint16>
  type ByIndex = map<uint16, uint16>

  datatype Result<+T> = Ok(value: T) | NoPartitions | NotOne | Misaligned(start: uint32)

  /** The entries of `to` are those of `from` under their new key; of several entries with the same new key, one
      stays, depending on the order of the iteration. */
  ghost predicate Renamed<K, L>(from: map<K, uint16>, key: K -> L, to: map<L, uint16>) {
    && (forall k :: k in from ==> key(k) in to)
    && (forall l :: l in to ==> exists k :: k in from && key(k) == l && to[l] == from[k])
  }

  /** With different new keys nothing is lost, and a second renaming back is the identity. */
  lemma RenamedBack<K, L>(from: map<K, uint16>, key: K -> L, to: map<L, uint16>, back: L -> K, again: map<K, uint16>)
    requires Renamed(from, key, to) && Renamed(to, back, again) && forall k :: k in from ==> back(key(k)) == k
    ensures again == from
  {
    forall l | l in to ensures back(l) in from && to[l] == from[back(l)] {
      var k :| k in from && key(k) == l && to[l] == from[k];
    }
    forall k | k in from ensures k in again {
      assert back(key(k)) == k && key(k) in to;
    }
    forall k | k in again ensures k in from && again[k] == from[k] {
      var l :| l in to && back(l) == k && again[k] == to[l];
    }
  }

  function IndexIn(n: uint32): uint32 -> uint16
    requires n >= 2
  {
    start => Index(start, n)
  }

  function RangeStartIn(n: uint32): uint16 -> uint32
    requires n >= 2
  {
    i => RangeStart(i, n)
  }

  /** Go's map lookup. */
  function Get<K>(m: map<K, uint16>, k: K): uint16 {
    if k in m then m[k] else 0
  }

  /** What the conversions return when they do not fail. */
  ghost predicate ToIndexes(pm: ByStart, n: uint32, im: ByIndex) {
    if n < 2 then n == 1 && |pm| == 1 && im == map[0 := Get(pm, 0)]
    else (forall s :: s in pm ==> Aligned(s, n)) && Renamed(pm, IndexIn(n), im)
  }

  ghost predicate ToStarts(im: ByIndex, n: uint32, pm: ByStart) {
    if n < 2 then n == 1 && |im| == 1 && pm == map[0 := Get(im, 0)] else Renamed(im, RangeStartIn(n), pm)
  }

  method ToPartitionIndexMapping(pm: ByStart, n: uint32) returns (r: Result<ByIndex>)
    ensures r.NoPartitions? <==> n == 0
    ensures r.NotOne? <==> n == 1 && |pm| != 1
    ensures n == 1 && |pm| == 1 ==> r == Ok(map[0 := Get(pm, 0)])
    ensures n >= 2 ==> (r.Ok? <==> forall s :: s in pm ==> Aligned(s, n))
    ensures n >= 2 && r.Ok? ==> Renamed(pm, IndexIn(n), r.value)
    ensures r.Misaligned? ==> n >= 2 && r.start in pm && !Aligned(r.start, n)
    ensures r.Ok? ==> ToIndexes(pm, n, r.value)
  {
    if n == 0 {
      return NoPartitions;
    }
    if n == 1 {
      return if |pm| != 1 then NotOne else Ok(map[0 := Get(pm, 0)]);
    }
    var window := Window(n);
    var result: ByIndex := map[];
    var left := pm.Keys;
    RenamedNothing(pm, IndexIn(n));
    hide Renamed, Window, Starts, NumberOf, StartOf;
    while left != {}
      invariant left <= pm.Keys && forall s :: s in pm && s !in left ==> Aligned(s, n)
      invariant Renamed(pm - left, IndexIn(n), result)
      decreases |left|
    {
      var start :| start in left;
      if !Starts(start, window) {
        return Misaligned(start);
      }
      TakeOne(pm, left, start);
      RenamedNext(pm - left, IndexIn(n), result, start, pm[start]);
      left := left - {start};
      var i := NumberOf(start, window);
      result := result[i := pm[start]];
    }
    assert pm - {} == pm;
    r := Ok(result);
  }

  lemma RenamedNothing<K, L>(m: map<K, uint16>, key: K -> L)
    ensures m - m.Keys == map[] && Renamed(m - m.Keys, key, map[])
  {
  }

  lemma TakeOne<K>(m: map<K, uint16>, left: set<K>, k: K)
    requires k in left && k in m
    ensures k !in m - left && m - (left - {k}) == (m - left)[k := m[k]]
  {
  }

  lemma RenamedNext<K, L>(from: map<K, uint16>, key: K -> L, to: map<L, uint16>, k: K, v: uint16)
    requires Renamed(from, key, to) && k !in from
    ensures Renamed(from[k := v], key, to[key(k) := v])
  {
    var from', to' := from[k := v], to[key(k) := v];
    forall l | l in to' ensures exists j :: j in from' && key(j) == l && to'[l] == from'[j] {
      if l == key(k) {
        assert k in from' && to'[l] == from'[k];
      } else {
        var j :| j in from && key(j) == l && to[l] == from[j];
        assert j in from' && to'[l] == from'[j];
      }
    }
  }

  method ToPartitionMapping(im: ByIndex, n: uint32) returns (r: Result<ByStart>)
    ensures r.NoPartitions? <==> n == 0
    ensures r.NotOne? <==> n == 1 && |im| != 1
    ensures n == 1 && |im| == 1 ==> r == Ok(map[0 := Get(im, 0)])
    ensures n >= 2 ==> r.Ok? && Renamed(im, RangeStartIn(n), r.value)
    ensures r.Ok? ==> ToStarts(im, n, r.value)
  {
    if n == 0 {
      return NoPartitions;
    }
    if n == 1 {
      return if |im| != 1 then NotOne else Ok(map[0 := Get(im, 0)]);
    }
    var window := Window(n);
    var result: ByStart := map[];
    var left := im.Keys;
    RenamedNothing(im, RangeStartIn(n));
    hide Renamed, Window, Starts, NumberOf, StartOf;
    while left != {}
      invariant left <= im.Keys
      invariant Renamed(im - left, RangeStartIn(n), result)
      decreases |left|
    {
      var i :| i in left;
      TakeOne(im, left, i);
      RenamedNext(im - left, RangeStartIn(n), result, i, im[i]);
      left := left - {i};
      var start := StartOf(i, window);
      result := result[start := im[i]];
    }
    assert im - {} == im;
    r := Ok(result);
  }

  /** By range start and back by index is the identity, when all starts are in the 32-bit space, as they are for all
      indexes below the number of partitions; the way back does not fail. For the one partition it is the identity
      exactly if the one index is 0. */
  lemma IndexRoundTrip(im: ByIndex, n: uint32, pm: ByStart, again: ByIndex)
    requires ToStarts(im, n, pm) && (n >= 2 ==> forall i :: i in im ==> i < n || i * Window(n) < TWO32)
    ensures n >= 2 ==> forall s :: s in pm ==> Aligned(s, n)
    ensures n == 1 ==> |pm| == 1
    ensures ToIndexes(pm, n, again) ==> (again == im <==> n >= 2 || 0 in im)
  {
    if n >= 2 {
      ManyIndexesComeBack(im, n, pm, again);
    } else if 0 in im {
      OnlyKey(im, 0);
    }
  }

  lemma OnlyKey<K>(m: map<K, uint16>, k: K)
    requires |m| == 1 && k in m
    ensures m == map[k := m[k]]
  {
    assert |m.Keys - {k}| == |m.Keys| - 1 == 0;
    assert m.Keys == {k};
  }

  /** With one partition, 5 to node 7 becomes 0 to node 0 on the way and stays so: node 7 is lost without an error. */
  lemma OnePartitionLosesItsNode()
    ensures var im: ByIndex, pm: ByStart := map[5 := 7], map[0 := 0]; ToStarts(im, 1, pm) && ToIndexes(pm, 1, map[0 := 0])
    ensures var pm: ByStart, im: ByIndex := map[5 := 7], map[0 := 0]; ToIndexes(pm, 1, im) && ToStarts(im, 1, map[0 := 0])
  {
  }

  lemma ManyIndexesComeBack(im: ByIndex, n: uint32, pm: ByStart, again: ByIndex)
    requires n >= 2 && (forall i :: i in im ==> i < n || i * Window(n) < TWO32)
    requires Renamed(im, RangeStartIn(n), pm)
    ensures forall s :: s in pm ==> Aligned(s, n)
    ensures Renamed(pm, IndexIn(n), again) ==> again == im
  {
    forall i | i in im ensures Aligned(RangeStart(i, n), n) && IndexIn(n)(RangeStartIn(n)(i)) == i {
      IndexOfRangeStart(i, n);
    }
    forall s | s in pm ensures Aligned(s, n) {
      var i :| i in im && RangeStartIn(n)(i) == s && pm[s] == im[i];
    }
    if Renamed(pm, IndexIn(n), again) {
      RenamedBack(im, RangeStartIn(n), pm, IndexIn(n), again);
    }
  }

  /** The one range start comes back exactly if it is 0. */
  lemma OneRangeStartRoundTrip(pm: ByStart, im: ByIndex, again: ByStart)
    requires ToIndexes(pm, 1, im) && ToStarts(im, 1, again)
    ensures again == pm <==> 0 in pm
  {
    if 0 in pm {
      OnlyKey(pm, 0);
    }
  }

  /** By index and back by range start is the identity for aligned mappings of up to 65536 partitions. */
  lemma RangeStartRoundTrip(pm: ByStart, n: uint32, im: ByIndex, again: ByStart)
    requires 2 <= n <= TWO16 && forall s :: s in pm ==> Aligned(s, n)
    requires Renamed(pm, IndexIn(n), im) && Renamed(im, RangeStartIn(n), again)
    ensures again == pm
  {
    forall s | s in pm ensures RangeStartIn(n)(IndexIn(n)(s)) == s {
      RangeStartOfIndex(s, n);
    }
    RenamedBack(pm, IndexIn(n), im, RangeStartIn(n), again);
  }

  predicate AllAligned(pm: ByStart, n: uint32)
    requires n >= 2
  {
    forall s :: s in pm ==> Aligned(s, n)
  }

  /** Whatever order the two iterations take. */
  ghost predicate ComesBack(pm: ByStart, n: uint32)
    requires n >= 2
  {
    forall im, again :: Renamed(pm, IndexIn(n), im) && Renamed(im, RangeStartIn(n), again) ==> again == pm
  }

  /** Every aligned mapping comes back if and only if there are at most 65536 partitions. */
  lemma RangeStartRoundTripExactly(n: uint32)
    requires n >= 2
    ensures (forall pm :: AllAligned(pm, n) ==> ComesBack(pm, n)) <==> n <= TWO16
  {
    if n <= TWO16 {
      forall pm | AllAligned(pm, n) ensures ComesBack(pm, n) {
        forall im, again | Renamed(pm, IndexIn(n), im) && Renamed(im, RangeStartIn(n), again) ensures again == pm {
          RangeStartRoundTrip(pm, n, im, again);
        }
      }
    } else {
      var start := WrappingStart(n);
      var pm: ByStart, im: ByIndex, again: ByStart := map[start := 1], map[0 := 1], map[0 := 1];
      assert IndexIn(n)(start) == 0 && RangeStartIn(n)(0) == 0;
      assert start in pm && 0 in im && Renamed(pm, IndexIn(n), im) && Renamed(im, RangeStartIn(n), again);
      assert AllAligned(pm, n) && 0 in again && again != pm;
      assert !ComesBack(pm, n);
    }
  }

  // ---------------------------------------------------------------- the hash's partition

  /** Murmur3Partition32 for a hash; None is the division by zero. */
  method Partition32(hash: uint32, n: uint32) returns (r: Option<(uint32, uint32)>)
    ensures r.None? <==> n == 0
    ensures n == 1 ==> r == Some((0, 0))
    ensures n >= 2 ==> var (i, start) := r.value;
              && start == i * Window(n) && start <= hash < start + Window(n)
              && (forall j: nat :: j * Window(n) <= hash < j * Window(n) + Window(n) ==> j == i)
              && (i < n <==> hash < n * Window(n))
    ensures n >= 2 && n <= TWO16 ==> r.value.0 == Index(hash, n)
  {
    if n == 0 {
      return None;
    }
    if n == 1 {
      return Some((0, 0));
    }
    WindowOf(hash, n);
    r := Some((hash / Window(n), hash / Window(n) * Window(n)));
  }

  /** The quotient is the one window the hash is in. */
  lemma WindowOf(hash: uint32, n: uint32)
    requires n >= 2
    ensures var w := Window(n); var i := hash / w;
            && 0 <= i <= hash && i * w <= hash < i * w + w && (i < n <==> hash < n * w)
            && (forall j: nat :: j * w <= hash < j * w + w ==> j == i)
            && (n <= TWO16 ==> i < TWO16)
  {
    var w := Window(n);
    hide Window;
    var i := hash / w;
    Divides(hash, w);
    Compares(hash, w, i, n);
    forall j: nat | j * w <= hash < j * w + w ensures j == i {
      OnlyWindow(hash, w, j);
    }
    if n <= TWO16 {
      WideEnough(n);
      FewWindows(w, i);
    }
  }

  lemma WideEnough(n: uint32)
    requires 2 <= n <= TWO16
    ensures Window(n) >= TWO16
  {
    WindowBounds(n);
  }

  lemma OnlyWindow(hash: int, w: int, j: int)
    requires w > 0 && j * w <= hash < j * w + w
    ensures hash / w == j
  {
    assert j * w == w * j;
    QuotientIs(hash, w, j);
  }

  lemma Compares(hash: int, w: int, i: int, n: int)
    requires w > 0 && w * i <= hash < w * i + w
    ensures i < n <==> hash < n * w
  {
    assert n * w == w * n;
    if i < n {
      Monotone(w, i + 1, n);
    } else {
      Monotone(w, n, i);
    }
  }

  lemma Divides(a: nat, w: nat)
    requires w > 0
    ensures 0 <= a / w <= a && a / w * w == w * (a / w) <= a < a / w * w + w
  {
    var i, r := a / w, a % w;
    assert a == w * i + r;
    NotNegative(w, i, r);
  }

  lemma NotNegative(w: int, i: int, r: int)
    requires 0 <= r < w && w * i + r >= 0
    ensures 0 <= i <= w * i + r
  {
    if i < 0 {
      Monotone(w, i, -1);
    } else {
      Monotone(i, 1, w);
    }
  }

  /** For a power of two the windows are all of the 32-bit space, so every hash has an index below n. */
  lemma PowersOfTwoCover(n: uint32, k: nat)
    requires n >= 2 && n == Pow2(k) && k < 32
    ensures n * Window(n) == TWO32
  {
    var m := Pow2(32 - k);
    Pow2Adds(k, 32 - k);
    Pow2Of32();
    assert n * m == TWO32;
    QuotientIs(TWO32, n, m);
  }

  lemma Pow2Of32()
    ensures Pow2(32) == TWO32
  {
    assert Pow2(4) == 16;
    Pow2Adds(4, 4);
    Pow2Adds(8, 8);
    Pow2Adds(16, 16);
  }

  // ---------------------------------------------------------------- framing

  type Entry = (uint32, uint16)

  function Bytes4(x: uint32): (b: seq<uint8>)
    ensures |b| == 4
  {
    var y := x / 0x100;
    var z := y / 0x100;
    [z / 0x100, z % 0x100, y % 0x100, x % 0x100]
  }

  function Bytes2(x: uint16): (b: seq<uint8>)
    ensures |b| == 2
  {
    [x / 0x100, x % 0x100]
  }

  function Read4(b: seq<uint8>): uint32
    requires |b| >= 4
  {
    ((b[0] as int * 0x100 + b[1]) * 0x100 + b[2]) * 0x100 + b[3]
  }

  function Read2(b: seq<uint8>): uint16
    requires |b| >= 2
  {
    b[0] as int * 0x100 + b[1]
  }

  /** The bytes are those of the number in base 256, the weightiest first. */
  lemma BytesAreBigEndian(x: uint32, y: uint16)
    ensures var b := Bytes4(x); x == b[0] as int * 0x1000000 + b[1] as int * 0x10000 + b[2] as int * 0x100 + b[3] as int
    ensures var b := Bytes2(y); y == b[0] as int * 0x100 + b[1] as int
  {
  }

  lemma ReadBytes(x: uint32, y: uint16, rest: seq<uint8>)
    ensures Read4(Bytes4(x) + rest) == x && Read2(Bytes2(y) + rest) == y
  {
  }

  function Body(entries: seq<Entry>): seq<uint8> {
    if entries == [] then [] else Bytes4(entries[0].0) + Bytes2(entries[0].1) + Body(entries[1..])
  }

  /** Each entry takes six bytes, four for its start and two for its value. */
  lemma {:induction false} BodyIsEntries(entries: seq<Entry>, i: nat)
    requires i < |entries|
    ensures |Body(entries)| == 6 * |entries|
    ensures Body(entries)[6 * i..6 * i + 4] == Bytes4(entries[i].0) && Body(entries)[6 * i + 4..6 * i + 6] == Bytes2(entries[i].1)
  {
    var head, rest := Bytes4(entries[0].0) + Bytes2(entries[0].1), entries[1..];
    hide Bytes4, Bytes2;
    if rest == [] {
      assert Body(entries) == head + Body([]) == head + [] == head;
    } else {
      var j := if i == 0 then 0 else i - 1;
      BodyIsEntries(rest, j);
      assert Body(entries) == head + Body(rest);
      if i > 0 {
        SliceBehind(head, Body(rest), 6 * j, 6 * j + 4);
        SliceBehind(head, Body(rest), 6 * j + 4, 6 * j + 6);
      }
    }
  }

  lemma SliceBehind<X>(a: seq<X>, b: seq<X>, i: nat, j: nat)
    requires i <= j <= |b|
    ensures (a + b)[|a| + i..|a| + j] == b[i..j]
  {
  }

  /** The mapping that up to n more entries make of m, and whether the bytes do not run out before. */
  function Parsed(b: seq<uint8>, n: nat, m: ByStart): (ByStart, bool)
    decreases n
  {
    if n == 0 then (m, true)
    else if |b| < 6 then (m, false)
    else Parsed(b[6..], n - 1, m[Read4(b) := Read2(b[4..])])
  }

  /** What bytes make of a mapping; without a length it stays as it was. */
  function Decoded(b: seq<uint8>, was: ByStart): (ByStart, bool) {
    if |b| < 4 then (was, false) else Parsed(b[4..], Read4(b), map[])
  }

  /** The entries list the mapping, each key once: an order of the iteration. */
  predicate Lists(entries: seq<Entry>, pm: ByStart) {
    && (forall i :: 0 <= i < |entries| ==> entries[i].0 in pm && pm[entries[i].0] == entries[i].1)
    && (forall i, j :: 0 <= i < j < |entries| ==> entries[i].0 != entries[j].0)
    && |entries| == |pm|
  }

  method Marshal(pm: ByStart) returns (b: seq<uint8>, ghost order: seq<Entry>)
    ensures Lists(order, pm) && b == Bytes4(|pm| % TWO32) + Body(order)
    ensures forall was :: Decoded(b, was) == (pm, true) <==> |pm| < TWO32
  {
    b, order := Bytes4(|pm| % TWO32), [];
    var left := pm.Keys;
    while left != {}
      invariant left <= pm.Keys && |order| + |left| == |pm| && b == Bytes4(|pm| % TWO32) + Body(order)
      invariant forall i :: 0 <= i < |order| ==> order[i].0 in pm && order[i].0 !in left && pm[order[i].0] == order[i].1
      invariant forall i, j :: 0 <= i < j < |order| ==> order[i].0 != order[j].0
      decreases |left|
    {
      var start :| start in left;
      left := left - {start};
      BodyAppends(order, (start, pm[start]));
      b := b + Bytes4(start);
      b := b + Bytes2(pm[start]);
      order := order + [(start, pm[start])];
    }
    assert b == b + [];
    forall was ensures Decoded(b, was) == (pm, true) <==> |pm| < TWO32 {
      MarshalRoundTrip(pm, order, [], was);
    }
  }

  lemma {:induction false} BodyAppends(entries: seq<Entry>, e: Entry)
    ensures Body(entries + [e]) == Body(entries) + Bytes4(e.0) + Bytes2(e.1)
  {
    if entries == [] {
      assert [e][1..] == [] && Body([]) == [];
    } else {
      BodyAppends(entries[1..], e);
      assert (entries + [e])[1..] == entries[1..] + [e];
    }
  }

  /** Unmarshal, on a mapping that was `was`: the mapping afterwards, also after the error of bytes that run out. */
  method Unmarshal(b: seq<uint8>, was: ByStart) returns (pm: ByStart, ok: bool)
    ensures (pm, ok) == Decoded(b, was) && (|b| < 4 ==> pm == was && !ok)
  {
    if |b| < 4 {
      return was, false;
    }
    var n := Read4(b);
    var rest := b[4..];
    pm := map[];
    for i := 0 to n
      invariant Parsed(b[4..], n, map[]) == Parsed(rest, n - i, pm)
    {
      if |rest| < 6 {
        return pm, false;
      }
      pm := pm[Read4(rest) := Read2(rest[4..])];
      rest := rest[6..];
    }
    ok := true;
  }

  /** Reading one entry of a body. */
  lemma ParsedNext(entries: seq<Entry>, rest: seq<uint8>, n: nat, m: ByStart)
    requires entries != [] && n > 0
    ensures Parsed(Body(entries) + rest, n, m) == Parsed(Body(entries[1..]) + rest, n - 1, m[entries[0].0 := entries[0].1])
  {
    hide Bytes4, Bytes2, Read4, Read2;
    var (start, node) := entries[0];
    var more := Body(entries[1..]) + rest;
    var b := Body(entries) + rest;
    assert b == Bytes4(start) + (Bytes2(node) + more) && b[4..] == Bytes2(node) + more && b[6..] == more;
    ReadBytes(start, node, Bytes2(node) + more);
    ReadBytes(start, node, more);
  }

  lemma {:induction false} ParsedBody(entries: seq<Entry>, n: nat, rest: seq<uint8>, m: ByStart)
    requires n <= |entries|
    ensures Parsed(Body(entries) + rest, n, m) == (Put(entries[..n], m), true)
    decreases n
  {
    hide Body;
    if n > 0 {
      ParsedNext(entries, rest, n, m);
      ParsedBody(entries[1..], n - 1, rest, m[entries[0].0 := entries[0].1]);
      assert entries[..n][1..] == entries[1..][..n - 1];
    }
  }

  /** m with the entries put into it in order. */
  function Put(entries: seq<Entry>, m: ByStart): ByStart {
    if entries == [] then m else Put(entries[1..], m[entries[0].0 := entries[0].1])
  }

  lemma {:induction false} PutIs(entries: seq<Entry>, m: ByStart)
    requires forall i, j :: 0 <= i < j < |entries| ==> entries[i].0 != entries[j].0
    ensures forall i :: 0 <= i < |entries| ==> entries[i].0 in Put(entries, m) && Put(entries, m)[entries[i].0] == entries[i].1
    ensures forall k :: k in Put(entries, m) ==> k in m || exists i :: 0 <= i < |entries| && entries[i].0 == k
    ensures forall k :: k in m && (forall i :: 0 <= i < |entries| ==> entries[i].0 != k) ==> k in Put(entries, m) && Put(entries, m)[k] == m[k]
  {
    if entries != [] {
      PutIs(entries[1..], m[entries[0].0 := entries[0].1]);
      forall i | 1 <= i < |entries| ensures entries[i] == entries[1..][i - 1] {}
    }
  }

  lemma {:induction false} KeysListed(entries: seq<Entry>)
    requires forall i, j :: 0 <= i < j < |entries| ==> entries[i].0 != entries[j].0
    ensures |set i | 0 <= i < |entries| :: entries[i].0| == |entries|
  {
    if entries != [] {
      var n := |entries| - 1;
      KeysListed(entries[..n]);
      var before := set i | 0 <= i < n :: entries[..n][i].0;
      assert before == set i | 0 <= i < n :: entries[i].0;
      assert (set i | 0 <= i < |entries| :: entries[i].0) == before + {entries[n].0};
    }
  }

  /** Entries that list a mapping make it up. */
  lemma ListsPut(entries: seq<Entry>, pm: ByStart)
    requires Lists(entries, pm)
    ensures Put(entries, map[]) == pm
  {
    PutIs(entries, map[]);
    KeysListed(entries);
    hide Put;
    var keys := set i | 0 <= i < |entries| :: entries[i].0;
    assert |pm.Keys| == |keys| && keys <= pm.Keys;
    SameSize(keys, pm.Keys);
    forall k | k in pm ensures k in Put(entries, map[]) {
      assert k in keys;
    }
  }

  lemma SameSize<T>(a: set<T>, b: set<T>)
    requires a <= b && |a| == |b|
    ensures a == b
  {
    assert |b - a| == |b| - |a|;
  }

  /** Unmarshalling gives back the mapping, in whatever order it was marshalled and whatever follows the bytes,
      exactly when its length fits 32 bits. */
  lemma MarshalRoundTrip(pm: ByStart, order: seq<Entry>, rest: seq<uint8>, was: ByStart)
    requires Lists(order, pm)
    ensures Decoded(Bytes4(|pm| % TWO32) + Body(order) + rest, was) == (pm, true) <==> |pm| < TWO32
    ensures |pm| >= TWO32 ==> Decoded(Bytes4(|pm| % TWO32) + Body(order) + rest, was) == (map[], true)
  {
    var b, n := Bytes4(|pm| % TWO32) + Body(order) + rest, |pm| % TWO32;
    ReadBytes(n, 0, Body(order) + rest);
    assert b == Bytes4(n) + (Body(order) + rest) && b[4..] == Body(order) + rest;
    ParsedBody(order, n, rest, map[]);
    ListsPut(order, pm);
    if n == |pm| {
      assert order[..n] == order;
    } else {
      StartsAreFew(pm);
      assert n == 0 && pm != map[];
    }
  }

  /** Bytes cut short are an error that leaves the entries read so far. */
  lemma ShortReadKeepsSome(entries: seq<Entry>, tail: seq<uint8>, n: uint32, was: ByStart)
    requires |entries| < n && |tail| < 6
    ensures Decoded(Bytes4(n) + Body(entries) + tail, was) == (Put(entries, map[]), false)
  {
    hide *;
    Regroup(Bytes4(n), Body(entries), tail);
    DecodedBehind(n, Body(entries) + tail, was);
    ShortBody(entries, tail, n, map[]);
  }

  lemma Regroup<X>(a: seq<X>, b: seq<X>, c: seq<X>)
    ensures a + b + c == a + (b + c)
  {
  }

  lemma DecodedBehind(n: uint32, rest: seq<uint8>, was: ByStart)
    ensures Decoded(Bytes4(n) + rest, was) == Parsed(rest, n, map[])
  {
    ReadBytes(n, 0, rest);
    hide Bytes4, Read4, Parsed;
    assert (Bytes4(n) + rest)[4..] == rest;
  }

  lemma {:induction false} ShortBody(entries: seq<Entry>, tail: seq<uint8>, n: nat, m: ByStart)
    requires |entries| < n && |tail| < 6
    ensures Parsed(Body(entries) + tail, n, m) == (Put(entries, m), false)
    decreases |entries|
  {
    if entries == [] {
      assert Body([]) + tail == tail;
    } else {
      ParsedNext(entries, tail, n, m);
      ShortBody(entries[1..], tail, n - 1, m[entries[0].0 := entries[0].1]);
    }
  }

  /** The mapping that is lost: of all 2^32 range starts. It is read back as the empty one, without an error. */
  lemma FullMappingIsLost(was: ByStart) returns (pm: ByStart, order: seq<Entry>)
    ensures Lists(order, pm) && |pm| == TWO32
    ensures Decoded(Bytes4(|pm| % TWO32) + Body(order), was) == (map[], true)
  {
    order := StartsInOrder(TWO32);
    KeysListed(order);
    PutIs(order, map[]);
    pm := Put(order, map[]);
    assert pm.Keys == set i | 0 <= i < |order| :: order[i].0;
    assert |pm| == |pm.Keys|;
    MarshalRoundTrip(pm, order, [], was);
    var b := Bytes4(|pm| % TWO32) + Body(order);
    assert b + [] == b;
  }

  lemma {:induction false} StartsInOrder(n: nat) returns (order: seq<Entry>)
    requires n <= TWO32
    ensures |order| == n && forall i :: 0 <= i < n ==> order[i] == (i, 0)
  {
    order := [];
    if n > 0 {
      order := StartsInOrder(n - 1);
      order := order + [(n - 1, 0)];
    }
  }

  /** There are 2^32 range starts. */
  lemma StartsAreFew(pm: ByStart)
    ensures |pm| <= TWO32
  {
    KeysBelow(pm.Keys, TWO32);
    assert |pm| == |pm.Keys|;
  }

  lemma {:induction false} KeysBelow(keys: set<uint32>, bound: nat)
    requires forall k :: k in keys ==> k < bound
    ensures |keys| <= bound
    decreases bound
  {
    if bound > 0 {
      KeysBelow(keys - {bound - 1}, bound - 1);
    } else {
      assert keys == {};
    }
  }
}
