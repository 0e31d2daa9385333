/** stats/metric/percentile.go, over exact arithmetic. */
module Percentile {
  // ---------------------------------------------------------------- nearest rank

  predicate Ordered(s: seq<real>) {
    forall i, j :: 0 <= i < j < |s| ==> s[i] <= s[j]
  }

  function Inserted(s: seq<real>, x: real): seq<real> {
    if s == [] then [x] else if s[|s| - 1] <= x then s + [x] else Inserted(s[..|s| - 1], x) + [s[|s| - 1]]
  }

  function Sorted(s: seq<real>): seq<real> {
    if s == [] then [] else Inserted(Sorted(s[..|s| - 1]), s[|s| - 1])
  }

  lemma {:induction false} InsertedIsBounded(s: seq<real>, x: real, b: real)
    requires x <= b && forall i :: 0 <= i < |s| ==> s[i] <= b
    ensures forall i :: 0 <= i < |Inserted(s, x)| ==> Inserted(s, x)[i] <= b
  {
    if s != [] {
      InsertedIsBounded(s[..|s| - 1], x, b);
    }
  }

  lemma {:induction false} InsertedIsOrdered(s: seq<real>, x: real)
    requires Ordered(s)
    ensures Ordered(Inserted(s, x))
  {
    if s != [] && s[|s| - 1] > x {
      InsertedIsOrdered(s[..|s| - 1], x);
      InsertedIsBounded(s[..|s| - 1], x, s[|s| - 1]);
    }
  }

  lemma {:induction false} InsertedHas(s: seq<real>, x: real)
    ensures multiset(Inserted(s, x)) == multiset(s) + multiset{x}
  {
    if s != [] {
      InsertedHas(s[..|s| - 1], x);
      assert s == s[..|s| - 1] + [s[|s| - 1]];
    }
  }

  lemma {:induction false} SortedIsOrdered(s: seq<real>)
    ensures Ordered(Sorted(s)) && multiset(Sorted(s)) == multiset(s)
  {
    if s != [] {
      var n := |s| - 1;
      SortedIsOrdered(s[..n]);
      InsertedIsOrdered(Sorted(s[..n]), s[n]);
      InsertedHas(Sorted(s[..n]), s[n]);
      assert s == s[..n] + [s[n]];
    }
  }

  /** How many elements are at most v. */
  function AtMost(s: seq<real>, v: real): nat {
    if s == [] then 0 else AtMost(s[..|s| - 1], v) + if s[|s| - 1] <= v then 1 else 0
  }

  lemma {:induction false} AtMostAppends(s: seq<real>, t: seq<real>, v: real)
    ensures AtMost(s + t, v) == AtMost(s, v) + AtMost(t, v)
  {
    if t == [] {
      assert s + t == s;
    } else {
      AtMostAppends(s, t[..|t| - 1], v);
      assert (s + t)[..|s + t| - 1] == s + t[..|t| - 1];
    }
  }

  lemma WithoutOne(s: seq<real>, i: nat, v: real)
    requires i < |s|
    ensures var rest := s[..i] + s[i + 1..];
            multiset(rest) == multiset(s) - multiset{s[i]} && AtMost(s, v) == AtMost(rest, v) + if s[i] <= v then 1 else 0
  {
    assert AtMost([s[i]], v) == if s[i] <= v then 1 else 0;
    hide AtMost;
    var a, x, b := s[..i], [s[i]], s[i + 1..];
    assert s == a + x + b;
    AtMostAppends(a + x, b, v);
    AtMostAppends(a, x, v);
    AtMostAppends(a, b, v);
  }

  /** The count does not depend on the order. */
  lemma {:induction false} AtMostOfPermutation(s: seq<real>, t: seq<real>, v: real)
    requires multiset(s) == multiset(t)
    ensures |s| == |t| && AtMost(s, v) == AtMost(t, v)
  {
    assert |s| == |multiset(s)| == |multiset(t)| == |t|;
    if s == [] {
      assert t == [];
    } else {
      hide AtMost;
      assert s[0] in multiset(t);
      var i :| 0 <= i < |t| && t[i] == s[0];
      WithoutOne(s, 0, v);
      WithoutOne(t, i, v);
      AtMostOfPermutation(s[..0] + s[1..], t[..i] + t[i + 1..], v);
    }
  }

  lemma {:induction false} AllAtMost(s: seq<real>, v: real)
    ensures AtMost(s, v) <= |s|
    ensures (forall i :: 0 <= i < |s| ==> s[i] <= v) ==> AtMost(s, v) == |s|
    ensures (forall i :: 0 <= i < |s| ==> s[i] > v) ==> AtMost(s, v) == 0
  {
    if s != [] {
      AllAtMost(s[..|s| - 1], v);
    }
  }

  /** In order, r + 1 elements are at most the r-th, and at most r are at most anything less. */
  lemma RankCounts(s: seq<real>, r: nat, u: real)
    requires Ordered(s) && r < |s|
    ensures AtMost(s, s[r]) >= r + 1
    ensures u < s[r] ==> AtMost(s, u) <= r
  {
    hide AtMost;
    var a, b := s[..r + 1], s[r + 1..];
    assert s == a + b;
    assert forall i :: 0 <= i < |a| ==> a[i] <= s[r];
    AtMostAppends(a, b, s[r]);
    AllAtMost(a, s[r]);
    BelowRank(s, r, u);
  }

  lemma BelowRank(s: seq<real>, r: nat, u: real)
    requires Ordered(s) && r < |s|
    ensures u < s[r] ==> AtMost(s, u) <= r
  {
    hide AtMost;
    var a, b := s[..r], s[r..];
    assert s == a + b;
    AtMostAppends(a, b, u);
    AllAtMost(a, u);
    if u < s[r] {
      forall i | 0 <= i < |b| ensures b[i] > u {
        assert b[i] == s[r + i];
      }
      AllAtMost(b, u);
    }
  }

  lemma LeastIsFirst(o: seq<real>, s: seq<real>)
    requires Ordered(o) && multiset(o) == multiset(s) && o != []
    ensures forall u :: u in s ==> o[0] <= u
  {
    forall u | u in s ensures o[0] <= u {
      assert u in multiset(o);
      var i :| 0 <= i < |o| && o[i] == u;
    }
  }

  function Ceil(x: real): int {
    -(-x).Floor
  }

  /** p percent of n. */
  function Share(p: real, n: nat): real {
    p / 100.0 * n as real
  }

  /** At least p percent of the values are at most v. */
  predicate Covers(s: seq<real>, p: real, v: real) {
    AtMost(s, v) as real * 100.0 >= p * |s| as real
  }

  lemma ShareCovers(s: seq<real>, p: real, v: real)
    ensures Covers(s, p, v) <==> AtMost(s, v) as real >= Share(p, |s|)
  {
    var q, n := p / 100.0, |s| as real;
    assert q * 100.0 == p;
    assert q * n * 100.0 == p * n;
  }

  /** v is the least of the values that at least p percent of them do not exceed. */
  ghost predicate IsPercentile(s: seq<real>, p: real, v: real) {
    v in s && Covers(s, p, v) && forall u :: u in s && Covers(s, p, u) ==> v <= u
  }

  lemma RankIsPercentile(s: seq<real>, p: real, r: nat)
    requires s != [] && 0.0 <= p <= 100.0
    requires var q := Share(p, |s|);
             r < |s| && q <= (r + 1) as real && (r as real < q || r == 0)
    ensures |Sorted(s)| == |s| && IsPercentile(s, p, Sorted(s)[r])
  {
    SortedIsOrdered(s);
    hide Share, Sorted, AtMost, Covers;
    var o := Sorted(s);
    AtMostOfPermutation(o, s, 0.0);
    var v := o[r];
    RankCounts(o, r, v);
    AtMostOfPermutation(o, s, v);
    ShareCovers(s, p, v);
    assert v in multiset(o);
    LeastIsFirst(o, s);
    forall u | u in s && Covers(s, p, u) ensures v <= u {
      RankCounts(o, r, u);
      AtMostOfPermutation(o, s, u);
      ShareCovers(s, p, u);
    }
  }

  /** The rank computed from the share q of n values is in range and the nearest. */
  lemma RankFits(q: real, n: nat)
    requires 0.0 <= q <= n as real && n > 0
    ensures var r := if Ceil(q) - 1 < 0 then 0 else Ceil(q) - 1; r < n && q <= (r + 1) as real && (r as real < q || r == 0)
  {
    var c := Ceil(q);
    assert (c - 1) as real < q <= c as real;
    assert (c - 1) as real < n as real;
  }

  method NearestRankPercentile(values: seq<real>, p: real) returns (v: real)
    requires values != [] && 0.0 <= p <= 100.0
    ensures IsPercentile(values, p, v)
  {
    hide IsPercentile, Ceil, Sorted, Share;
    var sorted := Sorted(values);
    var q := Share(p, |values|);
    ShareAtMost(p, |values|);
    RankFits(q, |values|);
    var rank := Ceil(q) - 1;
    if rank < 0 {
      rank := 0;
    }
    if rank >= |values| {
      rank := |values| - 1;
    }
    RankIsPercentile(values, p, rank);
    v := sorted[rank];
  }

  lemma ShareAtMost(p: real, n: nat)
    requires 0.0 <= p <= 100.0
    ensures 0.0 <= Share(p, n) <= n as real
  {
    var share := p / 100.0;
    assert 0.0 <= share <= 1.0;
  }

  // ---------------------------------------------------------------- the rolling window

  /** The values stamped no earlier than the cutoff. */
  function Within(times: seq<int>, values: seq<real>, cutoff: int): seq<real>
    requires |times| == |values|
  {
    if times == [] then []
    else
      var n := |times| - 1;
      Within(times[..n], values[..n], cutoff) + if times[n] >= cutoff then [values[n]] else []
  }

  lemma {:induction false} WithinAppends(t: seq<int>, v: seq<real>, u: seq<int>, w: seq<real>, cutoff: int)
    requires |t| == |v| && |u| == |w|
    ensures Within(t + u, v + w, cutoff) == Within(t, v, cutoff) + Within(u, w, cutoff)
  {
    if u == [] {
      assert t + u == t && v + w == v;
    } else {
      var n := |u| - 1;
      WithinAppends(t, v, u[..n], w[..n], cutoff);
      assert (t + u)[..|t + u| - 1] == t + u[..n] && (v + w)[..|v + w| - 1] == v + w[..n];
    }
  }

  lemma SameCover(s: seq<real>, t: seq<real>, p: real, v: real)
    requires multiset(s) == multiset(t)
    ensures (v in s <==> v in t) && (Covers(s, p, v) <==> Covers(t, p, v))
  {
    hide AtMost, Share;
    AtMostOfPermutation(s, t, v);
    assert v in multiset(s) <==> v in multiset(t);
  }

  lemma IsPercentileOfPermutation(s: seq<real>, t: seq<real>, p: real, v: real)
    requires multiset(s) == multiset(t) && IsPercentile(s, p, v)
    ensures IsPercentile(t, p, v)
  {
    hide Covers;
    SameCover(s, t, p, v);
    forall u | u in t && Covers(t, p, u) ensures v <= u {
      SameCover(s, t, p, u);
    }
  }

  lemma WithinNext(t: seq<int>, v: seq<real>, time: int, value: real, cutoff: int)
    requires |t| == |v|
    ensures Within(t + [time], v + [value], cutoff) == Within(t, v, cutoff) + if time >= cutoff then [value] else []
  {
  }

  const DEFAULT_CAPACITY := 512

  /** The ring read from its oldest element on. */
  function Unrolled<T>(ring: seq<T>, next: int, size: int): seq<T>
    requires 0 <= next <= size <= |ring|
  {
    ring[next..size] + ring[..next]
  }

  function LastOf<T>(s: seq<T>, size: int): seq<T> {
    if 0 <= size <= |s| then s[|s| - size..] else s
  }

  /** Writing at next and moving on drops the oldest element of a full ring and appends to any. */
  lemma WriteUnrolled<T>(ring: seq<T>, next: int, size: int, log: seq<T>, x: T)
    requires 0 <= next < |ring| && size == (if |log| < |ring| then |log| else |ring|)
    requires (size < |ring| ==> next == size) && Unrolled(ring, next, size) == LastOf(log, size)
    ensures var to, n := if next + 1 == |ring| then 0 else next + 1, if size < |ring| then size + 1 else size;
            Unrolled(ring[next := x], to, n) == LastOf(log + [x], n)
  {
    if size < |ring| {
      assert LastOf(log, size) == log == ring[..next];
      assert ring[next := x][..next + 1] == log + [x];
    } else {
      DropsOldest(ring, next, x);
      assert LastOf(log + [x], size) == LastOf(log, size)[1..] + [x];
    }
  }

  /** A full ring loses its oldest element. */
  lemma DropsOldest<T>(ring: seq<T>, next: int, x: T)
    requires 0 <= next < |ring|
    ensures var to := if next + 1 == |ring| then 0 else next + 1;
            Unrolled(ring[next := x], to, |ring|) == Unrolled(ring, next, |ring|)[1..] + [x]
  {
    assert Unrolled(ring, next, |ring|) == [ring[next]] + (ring[next + 1..] + ring[..next]);
    if next + 1 == |ring| {
      assert Unrolled(ring[next := x], 0, |ring|) == ring[..next] + [x];
    } else {
      assert Unrolled(ring[next := x], next + 1, |ring|) == ring[next + 1..] + ring[..next] + [x];
    }
  }

  class PercentileTracker {
    const capacity: int
    const times: array<int>
    const values: array<real>
    var next: int
    var size: int
    ghost var stamps: seq<int>     // every observation ever made
    ghost var observed: seq<real>

    ghost predicate Valid()
      reads this, times, values
    {
      && 0 < capacity == times.Length == values.Length && 0 <= next < capacity
      && |stamps| == |observed| && size == (if |observed| < capacity then |observed| else capacity)
      && (size < capacity ==> next == size)
      && Unrolled(times[..], next, size) == LastOf(stamps, size) && Unrolled(values[..], next, size) == LastOf(observed, size)
    }

    constructor (capacity: int)
      ensures Valid() && observed == [] && this.capacity == if capacity <= 0 then 512 else capacity
      ensures fresh(times) && fresh(values)
    {
      var n := if capacity <= 0 then DEFAULT_CAPACITY else capacity;
      this.capacity := n;
      times, values := new int[n], new real[n];
      next, size, stamps, observed := 0, 0, [], [];
    }

    /** The ring keeps the last observations, as many as its capacity. */
    method Observe(value: real, now: int)
      requires Valid()
      modifies this, times, values
      ensures Valid() && stamps == old(stamps) + [now] && observed == old(observed) + [value]
    {
      hide Unrolled, LastOf;
      ghost var ts, vs, at := times[..], values[..], next;
      WriteUnrolled(ts, next, size, stamps, now);
      WriteUnrolled(vs, next, size, observed, value);
      times[next] := now;
      values[next] := value;
      assert times[..] == ts[at := now] && values[..] == vs[at := value];
      next := next + 1;
      if next == capacity {
        next := 0;
      }
      if size < capacity {
        size := size + 1;
      }
      stamps, observed := stamps + [now], observed + [value];
    }

    /** The retained observations stamped no earlier than the cutoff. */
    ghost function Recent(cutoff: int): seq<real>
      requires Valid()
      reads this, times, values
    {
      Within(LastOf(stamps, size), LastOf(observed, size), cutoff)
    }

    method Collect(cutoff: int) returns (inside: seq<real>)
      requires Valid()
      ensures multiset(inside) == multiset(Recent(cutoff)) && |inside| == |Recent(cutoff)|
    {
      hide Within;
      inside := [];
      WithinIsEmpty([], [], cutoff);
      for i := 0 to size
        invariant inside == Within(times[..i], values[..i], cutoff)
      {
        assert times[..i + 1] == times[..i] + [times[i]] && values[..i + 1] == values[..i] + [values[i]];
        WithinNext(times[..i], values[..i], times[i], values[i], cutoff);
        if times[i] >= cutoff {
          inside := inside + [values[i]];
        }
      }
      RingIsLast(times[..size], values[..size], next, cutoff);
      assert times[..size][next..] + times[..size][..next] == Unrolled(times[..], next, size);
      assert values[..size][next..] + values[..size][..next] == Unrolled(values[..], next, size);
      assert |inside| == |multiset(inside)| == |multiset(Recent(cutoff))| == |Recent(cutoff)|;
    }

    /** The percentile of the retained observations of the window, and whether there is one. */
    method Percentile(p: real, window: int, now: int) returns (v: real, ok: bool)
      requires Valid()
      ensures ok <==> 0.0 <= p <= 100.0 && window > 0 && Recent(now - window) != []
      ensures ok ==> IsPercentile(Recent(now - window), p, v)
      ensures !ok ==> v == 0.0
    {
      hide IsPercentile, Within, PercentileTracker.Valid, PercentileTracker.Recent;
      if p < 0.0 || p > 100.0 || window <= 0 {
        return 0.0, false;
      }
      var inside := Collect(now - window);
      if |inside| == 0 {
        return 0.0, false;
      }
      v := NearestRankPercentile(inside, p);
      IsPercentileOfPermutation(inside, Recent(now - window), p, v);
      ok := true;
    }
  }

  lemma {:induction false} WithinIsEmpty(t: seq<int>, v: seq<real>, cutoff: int)
    requires |t| == |v|
    ensures Within(t, v, cutoff) == [] <==> forall i :: 0 <= i < |t| ==> t[i] < cutoff
  {
    if t != [] {
      WithinIsEmpty(t[..|t| - 1], v[..|v| - 1], cutoff);
    }
  }

  /** Turning the ring does not change what is inside the window. */
  lemma RingIsLast(t: seq<int>, v: seq<real>, k: int, cutoff: int)
    requires |t| == |v| && 0 <= k <= |t|
    ensures multiset(Within(t, v, cutoff)) == multiset(Within(t[k..] + t[..k], v[k..] + v[..k], cutoff))
  {
    hide Within;
    WithinAppends(t[..k], v[..k], t[k..], v[k..], cutoff);
    WithinAppends(t[k..], v[k..], t[..k], v[..k], cutoff);
    assert t[..k] + t[k..] == t && v[..k] + v[k..] == v;
  }
}
