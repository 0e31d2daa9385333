/** The TTL cache of cachettl/cachettl.go: first what its list means, then the pointer code that keeps it. */
module TtlEntries {

  /** A node's contents. `ttl` is the one it was created with; a later Put of the key leaves it alone. */
  datatype Entry<K, V> = Entry(key: K, value: V, ttl: int, expiration: int)

  /** Ascending by expiration. */
  ghost predicate Sorted<K, V>(es: seq<Entry<K, V>>) {
    forall i, j :: 0 <= i < j < |es| ==> es[i].expiration <= es[j].expiration
  }

  ghost predicate DistinctKeys<K, V>(es: seq<Entry<K, V>>) {
    forall i, j :: 0 <= i < j < |es| ==> es[i].key != es[j].key
  }

  /** The position of a key, or -1. */
  function Find<K(==), V>(es: seq<Entry<K, V>>, key: K): (r: int)
    ensures -1 <= r < |es|
    ensures if r >= 0 then es[r].key == key else forall i :: 0 <= i < |es| ==> es[i].key != key
  {
    if es == [] then -1
    else if es[|es| - 1].key == key then |es| - 1
    else Find(es[..|es| - 1], key)
  }

  /** Where add links a node: behind everything that expires no later. */
  function Slot<K, V>(es: seq<Entry<K, V>>, expiration: int): (p: nat)
    ensures p <= |es|
    ensures p > 0 ==> es[p - 1].expiration <= expiration
    ensures forall i :: p <= i < |es| ==> expiration < es[i].expiration
  {
    if es == [] || es[|es| - 1].expiration <= expiration then |es| else Slot(es[..|es| - 1], expiration)
  }

  function Insert<K, V>(es: seq<Entry<K, V>>, e: Entry<K, V>): (r: seq<Entry<K, V>>)
    ensures |r| == |es| + 1 && r[Slot(es, e.expiration)] == e
    ensures forall i :: 0 <= i < Slot(es, e.expiration) ==> r[i] == es[i]
    ensures forall i :: Slot(es, e.expiration) < i < |r| ==> r[i] == es[i - 1]
  {
    var p := Slot(es, e.expiration);
    es[..p] + [e] + es[p..]
  }

  function Drop<K, V>(es: seq<Entry<K, V>>, i: nat): (r: seq<Entry<K, V>>)
    requires i < |es|
    ensures |r| == |es| - 1
    ensures forall j :: 0 <= j < i ==> r[j] == es[j]
    ensures forall j :: i <= j < |r| ==> r[j] == es[j + 1]
  {
    es[..i] + es[i + 1..]
  }

  /** The key is present and not expired: its expiration is later than now. */
  predicate Hit<K(==), V>(es: seq<Entry<K, V>>, key: K, now: int) {
    Find(es, key) >= 0 && es[Find(es, key)].expiration > now
  }

  /** Get, before its cleanup: a hit is moved to its refreshed place. */
  function Touched<K(==), V>(es: seq<Entry<K, V>>, key: K, now: int, refresh: bool): seq<Entry<K, V>> {
    if Hit(es, key, now) && refresh then
      var i := Find(es, key);
      Insert(Drop(es, i), es[i].(expiration := now + es[i].ttl))
    else es
  }

  /** How many entries the cleanup removes: it stops at the first one that has not expired before now. */
  function Stale<K, V>(es: seq<Entry<K, V>>, now: int): (n: nat)
    ensures n <= |es|
  {
    if es != [] && es[0].expiration < now then 1 + Stale(es[1..], now) else 0
  }

  /** The entries Get leaves. */
  function AfterGet<K(==), V>(es: seq<Entry<K, V>>, key: K, now: int, refresh: bool): seq<Entry<K, V>> {
    var t := Touched(es, key, now, refresh);
    t[Stale(t, now)..]
  }

  /** The entries Get evicts, in order. */
  function Evicted<K(==), V>(es: seq<Entry<K, V>>, key: K, now: int, refresh: bool): seq<Entry<K, V>> {
    var t := Touched(es, key, now, refresh);
    t[..Stale(t, now)]
  }

  function AfterPut<K(==), V>(es: seq<Entry<K, V>>, key: K, value: V, ttl: int, now: int): seq<Entry<K, V>> {
    var i := Find(es, key);
    if i >= 0 then Insert(Drop(es, i), es[i].(value := value, expiration := now + ttl))
    else Insert(es, Entry(key, value, ttl, now + ttl))
  }

  ghost predicate WellKept<K, V>(es: seq<Entry<K, V>>) {
    Sorted(es) && DistinctKeys(es)
  }

  lemma InsertKeeps<K, V>(es: seq<Entry<K, V>>, e: Entry<K, V>)
    requires WellKept(es) && forall i :: 0 <= i < |es| ==> es[i].key != e.key
    ensures WellKept(Insert(es, e))
  {
    hide Insert;
    var p := Slot(es, e.expiration);
    assert forall i :: 0 <= i < p ==> es[i].expiration <= e.expiration;
  }

  lemma DropKeeps<K, V>(es: seq<Entry<K, V>>, i: nat)
    requires WellKept(es) && i < |es|
    ensures WellKept(Drop(es, i)) && forall j :: 0 <= j < |Drop(es, i)| ==> Drop(es, i)[j].key != es[i].key
  {
    hide Drop;
  }

  lemma SuffixKeeps<K, V>(es: seq<Entry<K, V>>, n: nat)
    requires WellKept(es) && n <= |es|
    ensures WellKept(es[n..]) && WellKept(es[..n])
  {
  }

  lemma GetKeeps<K, V>(es: seq<Entry<K, V>>, key: K, now: int, refresh: bool)
    requires WellKept(es)
    ensures WellKept(Touched(es, key, now, refresh))
    ensures WellKept(AfterGet(es, key, now, refresh)) && WellKept(Evicted(es, key, now, refresh))
  {
    hide Insert, Drop, WellKept;
    if Hit(es, key, now) && refresh {
      var i := Find(es, key);
      DropKeeps(es, i);
      InsertKeeps(Drop(es, i), es[i].(expiration := now + es[i].ttl));
    }
    var t := Touched(es, key, now, refresh);
    SuffixKeeps(t, Stale(t, now));
  }

  lemma PutKeeps<K, V>(es: seq<Entry<K, V>>, key: K, value: V, ttl: int, now: int)
    requires WellKept(es)
    ensures WellKept(AfterPut(es, key, value, ttl, now))
  {
    var i := Find(es, key);
    if i >= 0 {
      DropKeeps(es, i);
      InsertKeeps(Drop(es, i), es[i].(value := value, expiration := now + ttl));
    } else {
      InsertKeeps(es, Entry(key, value, ttl, now + ttl));
    }
  }

  lemma {:induction false} StaleExactly<K, V>(es: seq<Entry<K, V>>, now: int)
    requires Sorted(es)
    ensures forall i :: 0 <= i < |es| ==> (es[i].expiration < now <==> i < Stale(es, now))
  {
    if es != [] && es[0].expiration < now {
      StaleExactly(es[1..], now);
      assert forall i :: 1 <= i < |es| ==> es[i] == es[1..][i - 1];
    }
  }

  lemma {:induction false} AllStale<K, V>(es: seq<Entry<K, V>>, now: int)
    requires forall i :: 0 <= i < |es| ==> es[i].expiration < now
    ensures Stale(es, now) == |es|
  {
    if es != [] {
      AllStale(es[1..], now);
    }
  }

  // ------------------------------------------------------- refinement of a plain map

  /** The plain reading: key to (value, creation ttl, expiration). */
  ghost function AsMap<K, V>(es: seq<Entry<K, V>>): map<K, Entry<K, V>>
    requires DistinctKeys(es)
  {
    map i | 0 <= i < |es| :: es[i].key := es[i]
  }

  lemma Looked<K, V>(es: seq<Entry<K, V>>, key: K)
    requires DistinctKeys(es)
    ensures key in AsMap(es) <==> Find(es, key) >= 0
    ensures key in AsMap(es) ==> AsMap(es)[key] == es[Find(es, key)]
  {
  }

  /** A list and a map say the same when each entry is in the map and each key of the map is in the list. */
  lemma MapIs<K, V>(es: seq<Entry<K, V>>, m: map<K, Entry<K, V>>)
    requires DistinctKeys(es)
    requires forall i :: 0 <= i < |es| ==> es[i].key in m && m[es[i].key] == es[i]
    requires forall k :: k in m ==> Find(es, k) >= 0
    ensures AsMap(es) == m
  {
    forall k | k in m ensures k in AsMap(es) { Looked(es, k); }
  }

  lemma InMap<K, V>(es: seq<Entry<K, V>>)
    requires DistinctKeys(es)
    ensures forall i :: 0 <= i < |es| ==> es[i].key in AsMap(es) && AsMap(es)[es[i].key] == es[i]
    ensures forall k :: k in AsMap(es) ==> Find(es, k) >= 0 && AsMap(es)[k] == es[Find(es, k)]
  {
    hide Find;
  }

  lemma InsertedKeys<K, V>(es: seq<Entry<K, V>>, e: Entry<K, V>, k: K)
    requires k == e.key || Find(es, k) >= 0
    ensures Find(Insert(es, e), k) >= 0
  {
    hide Insert, Find, Slot;
    var p, r := Slot(es, e.expiration), Insert(es, e);
    if k == e.key {
      assert r[p].key == k;
    } else {
      var i := Find(es, k);
      assert r[if i < p then i else i + 1].key == k;
    }
  }

  lemma InsertedMap<K, V>(es: seq<Entry<K, V>>, e: Entry<K, V>)
    requires WellKept(es) && forall i :: 0 <= i < |es| ==> es[i].key != e.key
    ensures DistinctKeys(Insert(es, e)) && AsMap(Insert(es, e)) == AsMap(es)[e.key := e]
  {
    hide Insert, AsMap, Find, Slot;
    InsertKeeps(es, e);
    InMap(es);
    forall k | k in AsMap(es)[e.key := e] ensures Find(Insert(es, e), k) >= 0 { InsertedKeys(es, e, k); }
    MapIs(Insert(es, e), AsMap(es)[e.key := e]);
  }

  lemma DroppedKeys<K, V>(es: seq<Entry<K, V>>, i: nat, k: K)
    requires i < |es| && k != es[i].key && Find(es, k) >= 0
    ensures Find(Drop(es, i), k) >= 0
  {
    hide Drop, Find;
    var j, r := Find(es, k), Drop(es, i);
    assert r[if j < i then j else j - 1].key == k;
  }

  lemma DroppedEntry<K, V>(es: seq<Entry<K, V>>, i: nat, j: nat)
    requires WellKept(es) && i < |es| && j < |es| - 1
    ensures var r := Drop(es, i); r[j].key in AsMap(es) && r[j].key != es[i].key && AsMap(es)[r[j].key] == r[j]
  {
    hide Drop;
    InMap(es);
    hide AsMap, Find;
    var o := if j < i then j else j + 1;
    assert Drop(es, i)[j] == es[o];
  }

  lemma DroppedMap<K, V>(es: seq<Entry<K, V>>, i: nat)
    requires WellKept(es) && i < |es|
    ensures DistinctKeys(Drop(es, i)) && AsMap(Drop(es, i)) == AsMap(es) - {es[i].key}
  {
    DropKeeps(es, i);
    InMap(es);
    hide Drop, AsMap, Find, Sorted, DistinctKeys;
    var r, m := Drop(es, i), AsMap(es) - {es[i].key};
    forall j | 0 <= j < |r| ensures r[j].key in m && m[r[j].key] == r[j] { DroppedEntry(es, i, j); }
    forall k | k in m ensures Find(r, k) >= 0 { DroppedKeys(es, i, k); }
    MapIs(r, m);
  }

  lemma TouchedMap<K, V>(es: seq<Entry<K, V>>, key: K, now: int, refresh: bool)
    requires WellKept(es)
    ensures DistinctKeys(Touched(es, key, now, refresh))
    ensures AsMap(Touched(es, key, now, refresh)) ==
            if key in AsMap(es) && AsMap(es)[key].expiration > now && refresh
            then AsMap(es)[key := AsMap(es)[key].(expiration := now + AsMap(es)[key].ttl)] else AsMap(es)
  {
    hide Insert, Drop, AsMap, Find, Slot, DistinctKeys, Sorted;
    Looked(es, key);
    if Hit(es, key, now) && refresh {
      var i := Find(es, key);
      ReputMap(es, i, es[i].(expiration := now + es[i].ttl));
    }
  }

  /** Get is a lookup in a plain map whose hits are refreshed, followed by dropping exactly the entries that
      expire before now; the dropped ones come out once each, in ascending order of expiration. */
  lemma GetRefinesMap<K, V>(es: seq<Entry<K, V>>, key: K, now: int, refresh: bool)
    requires WellKept(es)
    ensures var m := AsMap(es);
            var touched := if key in m && m[key].expiration > now && refresh
                           then m[key := m[key].(expiration := now + m[key].ttl)] else m;
            && (Hit(es, key, now) <==> key in m && m[key].expiration > now)
            && WellKept(AfterGet(es, key, now, refresh))
            && AsMap(AfterGet(es, key, now, refresh)) == (map k | k in touched && touched[k].expiration >= now :: touched[k])
            && WellKept(Evicted(es, key, now, refresh))
            && AsMap(Evicted(es, key, now, refresh)) == (map k | k in touched && touched[k].expiration < now :: touched[k])
  {
    Looked(es, key);
    GetKeeps(es, key, now, refresh);
    TouchedMap(es, key, now, refresh);
    var t := Touched(es, key, now, refresh);
    StaleExactly(t, now);
    SuffixMap(t, Stale(t, now), now);
    PrefixMap(t, Stale(t, now), now);
  }

  // ------------------------------------------------------- a clock that moves during Get

  /** Get reads its clock for the lookup, for the refresh, and at every node of its cleanup. */
  function TouchedLate<K(==), V>(es: seq<Entry<K, V>>, key: K, now: int, again: int, refresh: bool): seq<Entry<K, V>> {
    if Hit(es, key, now) && refresh then
      var i := Find(es, key);
      Insert(Drop(es, i), es[i].(expiration := again + es[i].ttl))
    else es
  }

  /** The cleanup with a reading for each node it comes to. */
  function StaleBy<K, V>(es: seq<Entry<K, V>>, readings: seq<int>): (n: nat)
    requires |readings| >= |es|
    ensures n <= |es|
  {
    if es != [] && es[0].expiration < readings[0] then 1 + StaleBy(es[1..], readings[1..]) else 0
  }

  /** The last reading it makes. */
  function LastReading<K, V>(es: seq<Entry<K, V>>, readings: seq<int>): int
    requires |readings| >= |es| > 0
  {
    var n := StaleBy(es, readings);
    readings[if n < |es| then n else n - 1]
  }

  predicate Ascending(readings: seq<int>) {
    forall i, j :: 0 <= i < j < |readings| ==> readings[i] <= readings[j]
  }

  /** It removes what it would remove by its last reading alone. */
  lemma {:induction false} LastReadingDecides<K, V>(es: seq<Entry<K, V>>, readings: seq<int>)
    requires |readings| >= |es| > 0 && Ascending(readings)
    ensures StaleBy(es, readings) == Stale(es, LastReading(es, readings))
  {
    if es[0].expiration < readings[0] {
      assert readings[0] <= LastReading(es, readings);
      if |es| > 1 {
        LastReadingDecides(es[1..], readings[1..]);
        assert LastReading(es[1..], readings[1..]) == LastReading(es, readings);
      }
    }
  }

  function AfterLateGet<K(==), V>(es: seq<Entry<K, V>>, key: K, now: int, again: int, readings: seq<int>, refresh: bool): seq<Entry<K, V>>
    requires |readings| >= |es|
  {
    var t := TouchedLate(es, key, now, again, refresh);
    t[StaleBy(t, readings)..]
  }

  function EvictedLate<K(==), V>(es: seq<Entry<K, V>>, key: K, now: int, again: int, readings: seq<int>, refresh: bool): seq<Entry<K, V>>
    requires |readings| >= |es|
  {
    var t := TouchedLate(es, key, now, again, refresh);
    t[..StaleBy(t, readings)]
  }

  /** A clock that stands still gives Get as it is above. */
  lemma LateGetInTime<K, V>(es: seq<Entry<K, V>>, key: K, now: int, readings: seq<int>, refresh: bool)
    requires |readings| >= |es| && forall i :: 0 <= i < |readings| ==> readings[i] == now
    ensures AfterLateGet(es, key, now, now, readings, refresh) == AfterGet(es, key, now, refresh)
    ensures EvictedLate(es, key, now, now, readings, refresh) == Evicted(es, key, now, refresh)
  {
    var t := Touched(es, key, now, refresh);
    TouchedLength(es, key, now, refresh);
    assert TouchedLate(es, key, now, now, refresh) == t;
    hide Touched, TouchedLate, Insert, Drop, Find, Slot;
    if t != [] {
      LastReadingDecides(t, readings);
    }
  }

  lemma TouchedLength<K, V>(es: seq<Entry<K, V>>, key: K, now: int, refresh: bool)
    ensures |Touched(es, key, now, refresh)| == |es|
  {
  }

  /** The expiration a hit has when the cleanup comes to it. */
  function HitExpires<K(==), V>(es: seq<Entry<K, V>>, key: K, now: int, again: int, refresh: bool): int
    requires Hit(es, key, now)
  {
    if refresh then again + es[Find(es, key)].ttl else es[Find(es, key)].expiration
  }

  lemma TouchedLateHit<K, V>(es: seq<Entry<K, V>>, key: K, now: int, again: int, refresh: bool)
    requires WellKept(es) && Hit(es, key, now)
    ensures var t := TouchedLate(es, key, now, again, refresh); var p := Find(t, key);
            WellKept(t) && |t| == |es| && p >= 0 && t[p] == es[Find(es, key)].(expiration := HitExpires(es, key, now, again, refresh))
  {
    var t := TouchedLate(es, key, now, again, refresh);
    hide Insert, Drop, Find, Slot;
    if refresh {
      var e := es[Find(es, key)].(expiration := again + es[Find(es, key)].ttl);
      ReputMap(es, Find(es, key), e);
      Looked(t, key);
    }
  }

  /** The reading by which the cleanup of a hit's Get stops. */
  function StoppedBy<K(==), V>(es: seq<Entry<K, V>>, key: K, now: int, again: int, readings: seq<int>, refresh: bool): int
    requires Hit(es, key, now) && |readings| >= |es|
  {
    LastReading(TouchedLate(es, key, now, again, refresh), readings)
  }

  /** A hit is evicted by its own Get exactly if it has expired by the last reading of the cleanup. */
  lemma HitIsEvictedExactly<K, V>(es: seq<Entry<K, V>>, key: K, now: int, again: int, readings: seq<int>, refresh: bool)
    requires WellKept(es) && Hit(es, key, now) && |readings| >= |es| && Ascending(readings)
    ensures Find(AfterLateGet(es, key, now, again, readings, refresh), key) < 0 <==>
            HitExpires(es, key, now, again, refresh) < StoppedBy(es, key, now, again, readings, refresh)
  {
    var t, later := TouchedLate(es, key, now, again, refresh), StoppedBy(es, key, now, again, readings, refresh);
    TouchedLateHit(es, key, now, again, refresh);
    LastReadingDecides(t, readings);
    StaleExactly(t, later);
    FoundInSuffix(t, key, Stale(t, later));
  }

  lemma FoundInSuffix<K, V>(t: seq<Entry<K, V>>, key: K, n: nat)
    requires DistinctKeys(t) && n <= |t| && Find(t, key) >= 0
    ensures Find(t[n..], key) < 0 <==> Find(t, key) < n
  {
    hide Find;
    var p := Find(t, key);
    if p >= n {
      assert t[n..][p - n].key == key;
    } else {
      assert forall i :: 0 <= i < |t[n..]| ==> t[n..][i] == t[n + i];
    }
  }

  lemma SuffixMap<K, V>(t: seq<Entry<K, V>>, n: nat, now: int)
    requires WellKept(t) && n <= |t| && forall i :: 0 <= i < |t| ==> (t[i].expiration < now <==> i < n)
    ensures AsMap(t[n..]) == (map k | k in AsMap(t) && AsMap(t)[k].expiration >= now :: AsMap(t)[k])
  {
    hide AsMap, Find, DistinctKeys, Sorted;
    SuffixKeeps(t, n);
    InMap(t);
    var m := AsMap(t);
    var late := (map k | k in m && m[k].expiration >= now :: m[k]);
    forall k | k in late ensures Find(t[n..], k) >= 0 {
      assert t[n..][Find(t, k) - n].key == k;
    }
    MapIs(t[n..], late);
  }

  lemma PrefixMap<K, V>(t: seq<Entry<K, V>>, n: nat, now: int)
    requires WellKept(t) && n <= |t| && forall i :: 0 <= i < |t| ==> (t[i].expiration < now <==> i < n)
    ensures AsMap(t[..n]) == (map k | k in AsMap(t) && AsMap(t)[k].expiration < now :: AsMap(t)[k])
  {
    hide AsMap, Find, DistinctKeys, Sorted;
    SuffixKeeps(t, n);
    InMap(t);
    var m := AsMap(t);
    var early := (map k | k in m && m[k].expiration < now :: m[k]);
    forall k | k in early ensures Find(t[..n], k) >= 0 {
      assert t[..n][Find(t, k)].key == k;
    }
    MapIs(t[..n], early);
  }

  lemma ReputMap<K, V>(es: seq<Entry<K, V>>, i: nat, e: Entry<K, V>)
    requires WellKept(es) && i < |es| && e.key == es[i].key
    ensures WellKept(Insert(Drop(es, i), e)) && AsMap(Insert(Drop(es, i), e)) == AsMap(es)[e.key := e]
  {
    hide Insert, Drop, AsMap, Slot, Sorted, DistinctKeys;
    DropKeeps(es, i);
    DroppedMap(es, i);
    InsertKeeps(Drop(es, i), e);
    InsertedMap(Drop(es, i), e);
    assert (AsMap(es) - {e.key})[e.key := e] == AsMap(es)[e.key := e];
  }

  /** Put replaces the value and the expiration of a present key, and nothing else. */
  lemma PutRefinesMap<K, V>(es: seq<Entry<K, V>>, key: K, value: V, ttl: int, now: int)
    requires WellKept(es)
    ensures WellKept(AfterPut(es, key, value, ttl, now))
    ensures AsMap(AfterPut(es, key, value, ttl, now)) ==
            AsMap(es)[key := Entry(key, value, if key in AsMap(es) then AsMap(es)[key].ttl else ttl, now + ttl)]
  {
    hide Insert, Drop, AsMap, Find, Slot, Sorted, DistinctKeys;
    PutKeeps(es, key, value, ttl, now);
    Looked(es, key);
    var i := Find(es, key);
    if i >= 0 {
      ReputMap(es, i, es[i].(value := value, expiration := now + ttl));
    } else {
      InsertedMap(es, Entry(key, value, ttl, now + ttl));
    }
  }
}

module TtlCaches {
  import opened TtlEntries

  class Node<K, V> {
    var key: K
    var value: V
    var prev: Node?<K, V>
    var next: Node?<K, V>
    var ttl: int
    var expiration: int

    constructor (key: K, value: V, ttl: int, expiration: int)
      ensures Holds(Entry(key, value, ttl, expiration)) && prev == null && next == null
    {
      this.key, this.value, this.ttl, this.expiration := key, value, ttl, expiration;
      prev, next := null, null;
    }

    ghost predicate Holds(e: Entry<K, V>)
      reads this`key, this`value, this`ttl, this`expiration
    {
      key == e.key && value == e.value && ttl == e.ttl && expiration == e.expiration
    }
  }

  /** What the eviction callback is given. */
  function Pairs<K, V>(es: seq<Entry<K, V>>): (r: seq<(K, V)>)
    ensures |r| == |es|
  {
    seq(|es|, i requires 0 <= i < |es| => (es[i].key, es[i].value))
  }

  function Next(i: nat, n: nat): nat { if i + 1 == n then 0 else i + 1 }

  function Prev(i: nat, n: nat): nat
    requires n > 0
  {
    if i == 0 then n - 1 else i - 1
  }

  ghost predicate Distinct<X>(s: seq<X>) {
    forall i, j :: 0 <= i < j < |s| ==> s[i] != s[j]
  }

  /** The nodes of `ring` are linked in a circle in that order, both ways. */
  ghost predicate Linked<K, V>(ring: seq<Node<K, V>>)
    reads ring
  {
    && (forall i {:trigger ring[i].next} :: 0 <= i < |ring| ==> ring[i].next == ring[Next(i, |ring|)])
    && (forall i {:trigger ring[i].prev} :: 0 <= i < |ring| ==> ring[i].prev == ring[Prev(i, |ring|)])
  }

  /** The list; until the first Put the root's links are nil. */
  ghost predicate Circle<K, V>(root: Node<K, V>, ring: seq<Node<K, V>>)
    reads ring
  {
    && |ring| > 0 && ring[0] == root && Distinct(ring)
    && (if root.next == null then |ring| == 1 && root.prev == null else Linked(ring))
  }

  /** The nodes behind the root hold the entries. */
  ghost predicate Filled<K, V>(ring: seq<Node<K, V>>, entries: seq<Entry<K, V>>)
    reads ring
  {
    && |ring| == |entries| + 1
    && (forall i :: 0 <= i < |entries| ==> ring[i + 1].Holds(entries[i]))
  }

  /** The map leads each key to its node, and knows no other key. */
  ghost predicate Mapped<K, V>(m: map<K, Node<K, V>>, ring: seq<Node<K, V>>, entries: seq<Entry<K, V>>)
    requires |ring| == |entries| + 1
  {
    && (forall i :: 0 <= i < |entries| ==> entries[i].key in m && m[entries[i].key] == ring[i + 1])
    && (forall k :: k in m ==> Find(entries, k) >= 0)
  }

  /** No expiration lies before the root's. */
  ghost predicate SinceZero<K, V>(es: seq<Entry<K, V>>) {
    forall i :: 0 <= i < |es| ==> es[i].expiration >= 0
  }

  lemma InsertSinceZero<K, V>(es: seq<Entry<K, V>>, e: Entry<K, V>)
    requires SinceZero(es) && e.expiration >= 0
    ensures SinceZero(Insert(es, e))
  {
    hide Insert, Slot;
  }

  lemma DropFirst<K, V>(es: seq<Entry<K, V>>)
    requires |es| > 0 && WellKept(es) && SinceZero(es)
    ensures Drop(es, 0) == es[1..] && WellKept(es[1..]) && SinceZero(es[1..])
  {
  }

  lemma DropSinceZero<K, V>(es: seq<Entry<K, V>>, i: nat)
    requires SinceZero(es) && i < |es|
    ensures SinceZero(Drop(es, i))
  {
    hide Drop;
  }

  lemma DistinctCut<X>(s: seq<X>, k: nat)
    requires Distinct(s) && k < |s|
    ensures Distinct(s[..k] + s[k + 1..]) && s[k] !in s[..k] + s[k + 1..]
  {
  }

  lemma DistinctSplice<X>(s: seq<X>, k: nat, x: X)
    requires Distinct(s) && k <= |s| && x !in s
    ensures Distinct(s[..k] + [x] + s[k..])
  {
  }

  lemma OnlyAt<X>(s: seq<X>, j: nat)
    requires Distinct(s) && j < |s|
    ensures forall i :: 0 <= i < |s| && s[i] == s[j] ==> i == j
  {
  }

  lemma SlotIs<K, V>(es: seq<Entry<K, V>>, expiration: int, p: nat)
    requires Sorted(es) && p <= |es| && (p > 0 ==> es[p - 1].expiration <= expiration)
    requires forall i :: p <= i < |es| ==> expiration < es[i].expiration
    ensures Slot(es, expiration) == p
  {
  }

  lemma MappedCut<K, V>(m: map<K, Node<K, V>>, ring: seq<Node<K, V>>, es: seq<Entry<K, V>>, i: nat)
    requires |ring| == |es| + 1 && i < |es| && Mapped(m, ring, es) && DistinctKeys(es)
    ensures Mapped(m - {es[i].key}, ring[..i + 1] + ring[i + 2..], Drop(es, i))
  {
    hide Drop, Find, DistinctKeys;
    var r, m', ring' := Drop(es, i), m - {es[i].key}, ring[..i + 1] + ring[i + 2..];
    forall j | 0 <= j < |r| ensures r[j].key in m' && m'[r[j].key] == ring'[j + 1] {
      var o := if j < i then j else j + 1;
      assert r[j] == es[o];
      KeysDiffer(es, i, o);
    }
    forall k | k in m' ensures Find(r, k) >= 0 {
      var o := Find(es, k);
      assert r[if o < i then o else o - 1].key == k;
    }
  }

  lemma Unmapped<K, V>(m: map<K, Node<K, V>>, ring: seq<Node<K, V>>, es: seq<Entry<K, V>>, key: K)
    requires |ring| == |es| + 1 && Mapped(m, ring, es) && key !in m
    ensures Find(es, key) < 0 && forall i :: 0 <= i < |es| ==> es[i].key != key
  {
  }

  lemma InMapped<K, V>(m: map<K, Node<K, V>>, ring: seq<Node<K, V>>, es: seq<Entry<K, V>>, key: K)
    requires |ring| == |es| + 1 && Mapped(m, ring, es) && key in m
    ensures Find(es, key) >= 0 && m[key] == ring[Find(es, key) + 1] && es[Find(es, key)].key == key
  {
  }

  lemma AtMapped<K, V>(m: map<K, Node<K, V>>, ring: seq<Node<K, V>>, es: seq<Entry<K, V>>, i: nat)
    requires |ring| == |es| + 1 && Mapped(m, ring, es) && i < |es|
    ensures es[i].key in m && m[es[i].key] == ring[i + 1]
  {
  }

  lemma DropIgnores<K, V>(es: seq<Entry<K, V>>, i: nat, e: Entry<K, V>)
    requires i < |es|
    ensures Drop(es[i := e], i) == Drop(es, i)
  {
  }

  /** What moving the i-th node, with new contents e, does to the list and to the map. */
  lemma Replaced<K, V>(m: map<K, Node<K, V>>, ring: seq<Node<K, V>>, es: seq<Entry<K, V>>, i: nat, e: Entry<K, V>)
    requires |ring| == |es| + 1 && Mapped(m, ring, es) && WellKept(es) && SinceZero(es)
    requires i < |es| && e.key == es[i].key && e.expiration >= 0
    ensures Sorted(Drop(es, i)) && WellKept(Insert(Drop(es, i), e)) && SinceZero(Insert(Drop(es, i), e))
    ensures Drop(es[i := e], i) == Drop(es, i)
    ensures var cut, p := ring[..i + 1] + ring[i + 2..], Slot(Drop(es, i), e.expiration) + 1;
            Mapped(m, cut[..p] + [ring[i + 1]] + cut[p..], Insert(Drop(es, i), e))
  {
    hide Mapped, Slot, Insert, Find, Drop, Sorted, DistinctKeys, SinceZero;
    DropIgnores(es, i, e);
    DropKeeps(es, i);
    InsertKeeps(Drop(es, i), e);
    DropSinceZero(es, i);
    InsertSinceZero(Drop(es, i), e);
    MappedCut(m, ring, es, i);
    MappedSplice(m - {e.key}, ring[..i + 1] + ring[i + 2..], Drop(es, i), ring[i + 1], e);
    AtMapped(m, ring, es, i);
    assert (m - {e.key})[e.key := ring[i + 1]] == m;
  }

  lemma KeysDiffer<K, V>(es: seq<Entry<K, V>>, i: nat, j: nat)
    requires DistinctKeys(es) && i < |es| && j < |es| && i != j
    ensures es[i].key != es[j].key
  {
  }

  lemma MappedSplice<K, V>(m: map<K, Node<K, V>>, ring: seq<Node<K, V>>, es: seq<Entry<K, V>>, n: Node<K, V>, e: Entry<K, V>)
    requires |ring| == |es| + 1 && Mapped(m, ring, es) && e.key !in m
    ensures var p := Slot(es, e.expiration) + 1; Mapped(m[e.key := n], ring[..p] + [n] + ring[p..], Insert(es, e))
  {
    hide Insert, Find, Slot;
    var p := Slot(es, e.expiration) + 1;
    var r, m', ring' := Insert(es, e), m[e.key := n], ring[..p] + [n] + ring[p..];
    forall j | 0 <= j < |r| ensures r[j].key in m' && m'[r[j].key] == ring'[j + 1] {
      if j + 1 < p {
        assert r[j] == es[j];
      } else if j + 1 > p {
        assert r[j] == es[j - 1];
      }
    }
    forall k | k in m' ensures Find(r, k) >= 0 {
      InsertedKeys(es, e, k);
    }
  }

  class Cache<K(==), V> {
    const root: Node<K, V>
    var m: map<K, Node<K, V>>
    const refreshTTL: bool
    const zero: V
    ghost var ring: seq<Node<K, V>>      // the root, then the nodes in list order
    ghost var entries: seq<Entry<K, V>>  // what they hold

    ghost predicate Valid()
      reads this, ring
    {
      && |ring| == |entries| + 1 && Circle(root, ring) && Filled(ring, entries) && Mapped(m, ring, entries)
      && WellKept(entries) && root.expiration == 0
      && SinceZero(entries)
    }

    constructor (refreshTTL: bool, blank: K, zero: V)
      ensures Valid() && entries == [] && this.refreshTTL == refreshTTL && this.zero == zero
    {
      var r := new Node<K, V>(blank, zero, 0, 0);
      root := r;
      m := map[];
      this.refreshTTL := refreshTTL;
      this.zero := zero;
      ring := [r];
      entries := [];
    }

    /** node.remove: the node's own links stay as they were. */
    method Unlink(n: Node<K, V>, ghost k: nat)
      requires Circle(root, ring) && root.next != null && 1 <= k < |ring| && ring[k] == n
      modifies this`ring, ring`prev, ring`next
      ensures ring == old(ring)[..k] + old(ring)[k + 1..] && n !in ring
      ensures Circle(root, ring) && root.next != null && n.next == old(n.next) && (k == 1 ==> root.next == n.next)
    {
      hide Distinct;
      ghost var was, size := ring, |ring|;
      ghost var r := was[..k] + was[k + 1..];
      DistinctCut(was, k);
      OnlyAt(was, k - 1);
      OnlyAt(was, Next(k, size));
      n.prev.next := n.next;
      n.next.prev := n.prev;
      ring := r;
      forall i | 0 <= i < |r| ensures r[i].next == r[Next(i, |r|)] && r[i].prev == r[Prev(i, |r|)] {
        var o := if i < k then i else i + 1;
        assert r[i] == was[o];
      }
    }

    /** The splice in add, behind position j: its links forward and its links back. */
    method LinkBehind(cn: Node<K, V>, n: Node<K, V>, ghost j: nat)
      requires Circle(root, ring) && root.next != null && j < |ring| && ring[j] == cn && n !in ring
      modifies this`ring, ring`prev, ring`next, n`prev, n`next
      ensures ring == old(ring)[..j + 1] + [n] + old(ring)[j + 1..]
      ensures Circle(root, ring) && root.next != null
    {
      hide Distinct;
      DistinctSplice(ring, j + 1, n);
      ghost var r := ring[..j + 1] + [n] + ring[j + 1..];
      var save := LinkForward(cn, n, j);
      LinkBack(cn, n, save, j);
      ring := r;
      assert r[0] == root && r[0].next == r[Next(0, |r|)];
    }

    method LinkForward(cn: Node<K, V>, n: Node<K, V>, ghost j: nat) returns (save: Node<K, V>)
      requires Linked(ring) && Distinct(ring) && j < |ring| && ring[j] == cn && n !in ring
      modifies ring`next, n`next
      ensures save == ring[Next(j, |ring|)]
      ensures var r := ring[..j + 1] + [n] + ring[j + 1..]; forall i {:trigger r[i].next} :: 0 <= i < |r| ==> r[i].next == r[Next(i, |r|)]
    {
      hide Distinct;
      ghost var size, r := |ring|, ring[..j + 1] + [n] + ring[j + 1..];
      OnlyAt(ring, j);
      save := cn.next;
      cn.next := n;
      n.next := save;
      forall i | 0 <= i < |r| ensures r[i].next == r[Next(i, |r|)] {
        if i != j && i != j + 1 {
          var o := if i < j then i else i - 1;
          assert r[i] == ring[o] && r[Next(i, |r|)] == ring[Next(o, size)];
        }
      }
    }

    method LinkBack(cn: Node<K, V>, n: Node<K, V>, save: Node<K, V>, ghost j: nat)
      requires forall i {:trigger ring[i].prev} :: 0 <= i < |ring| ==> ring[i].prev == ring[Prev(i, |ring|)]
      requires Distinct(ring) && j < |ring| && ring[j] == cn && n !in ring && save == ring[Next(j, |ring|)]
      modifies ring`prev, n`prev
      ensures var r := ring[..j + 1] + [n] + ring[j + 1..]; forall i {:trigger r[i].prev} :: 0 <= i < |r| ==> r[i].prev == r[Prev(i, |r|)]
    {
      hide Distinct;
      ghost var size, r := |ring|, ring[..j + 1] + [n] + ring[j + 1..];
      OnlyAt(ring, Next(j, size));
      n.prev := cn;
      save.prev := n;
      forall i | 0 <= i < |r| ensures r[i].prev == r[Prev(i, |r|)] {
        if i != j + 1 && i != Next(j + 1, |r|) {
          var o := if i <= j then i else i - 1;
          assert r[i] == ring[o] && r[Prev(i, |r|)] == ring[Prev(o, size)];
        }
      }
    }

    method UnlinkEntry(n: Node<K, V>, ghost i: nat)
      requires Circle(root, ring) && root.next != null && i < |entries| && Filled(ring, entries) && ring[i + 1] == n
      modifies this`ring, this`entries, ring`prev, ring`next
      ensures Circle(root, ring) && root.next != null && |ring| == |entries| + 1 && Filled(ring, entries)
      ensures n.next == old(n.next) && (i == 0 ==> root.next == n.next)
      ensures ring == old(ring)[..i + 1] + old(ring)[i + 2..] && n !in ring
      ensures forall i :: 0 <= i < |ring| ==> ring[i] in old(ring)
      ensures entries == Drop(old(entries), i)
    {
      hide Linked, Distinct, Drop;
      ghost var es, was := entries, ring;
      Unlink(n, i + 1);
      entries := Drop(es, i);
      assert forall j :: 0 <= j < |es| ==> was[j + 1].Holds(es[j]);
      forall j | 0 <= j < |entries| ensures ring[j + 1].Holds(entries[j]) {
        var o := if j < i then j else j + 1;
        assert ring[j + 1] == was[o + 1] && entries[j] == es[o];
      }
    }

    method LinkEntry(cn: Node<K, V>, n: Node<K, V>, ghost j: nat, ghost e: Entry<K, V>)
      requires Circle(root, ring) && root.next != null && j < |ring| && ring[j] == cn && n !in ring && n.Holds(e)
      requires Filled(ring, entries) && Slot(entries, e.expiration) == j
      modifies this`ring, this`entries, ring`prev, ring`next, n`prev, n`next
      ensures Circle(root, ring) && root.next != null && |ring| == |entries| + 1 && Filled(ring, entries)
      ensures ring == old(ring)[..j + 1] + [n] + old(ring)[j + 1..]
      ensures entries == Insert(old(entries), e)
    {
      hide Linked, Distinct, Insert, Slot;
      ghost var es, was := entries, ring;
      LinkBehind(cn, n, j);
      entries := Insert(es, e);
      assert forall i :: 0 <= i < |es| ==> was[i + 1].Holds(es[i]);
      forall i | 0 <= i < |entries| ensures ring[i + 1].Holds(entries[i]) {
        if i != j {
          var o := if i < j then i else i - 1;
          assert ring[i + 1] == was[o + 1] && entries[i] == es[o];
        }
      }
    }

    method Add(n: Node<K, V>, ghost e: Entry<K, V>)
      requires Circle(root, ring) && root.next != null && n !in ring && n.Holds(e) && e.expiration >= 0
      requires Filled(ring, entries) && Sorted(entries) && root.expiration == 0
      modifies this`ring, this`entries, ring`prev, ring`next, n`prev, n`next
      ensures Circle(root, ring) && root.next != null && |ring| == |entries| + 1 && Filled(ring, entries)
      ensures var p := Slot(old(entries), e.expiration) + 1; ring == old(ring)[..p] + [n] + old(ring)[p..]
      ensures forall i :: 0 <= i < |ring| ==> ring[i] == n || ring[i] in old(ring)
      ensures entries == Insert(old(entries), e)
    {
      var cn: Node?<K, V> := root.prev;
      ghost var j: nat := |ring| - 1;
      while cn != null
        invariant j < |ring| && cn == ring[j]
        invariant forall i :: j <= i < |entries| ==> entries[i].expiration > e.expiration
        decreases j
      {
        if n.expiration >= cn.expiration {
          SlotIs(entries, e.expiration, j);
          break;
        }
        cn := cn.prev;
        j := j - 1;
      }
      LinkEntry(cn, n, j, e);
    }

    /** The first node ever, when the root's links are still nil. */
    method PutFirst(n: Node<K, V>, ghost e: Entry<K, V>)
      requires Valid() && root.next == null && n !in ring && n.Holds(e) && e.expiration >= 0
      modifies this, root`prev, root`next, n`prev, n`next
      ensures Valid() && entries == Insert(old(entries), e) && ring == [root, n]
    {
      m := m[n.key := n];
      root.next, root.prev := n, n;
      n.prev, n.next := root, root;
      ring, entries := [root, n], [e];
    }

    method PutNew(n: Node<K, V>, ghost e: Entry<K, V>)
      requires Valid() && root.next != null && n !in ring && n.Holds(e) && e.expiration >= 0 && e.key !in m
      modifies this, ring`prev, ring`next, n`prev, n`next
      ensures Valid() && entries == Insert(old(entries), e)
      ensures forall i :: 0 <= i < |ring| ==> ring[i] == n || ring[i] in old(ring)
    {
      hide Mapped, Circle, Filled, Slot, Insert, Sorted, DistinctKeys, SinceZero;
      Unmapped(m, ring, entries, e.key);
      InsertKeeps(entries, e);
      MappedSplice(m, ring, entries, n, e);
      InsertSinceZero(entries, e);
      m := m[n.key := n];
      Add(n, e);
    }

    method Rewrite(n: Node<K, V>, ghost i: nat, value: V, expiration: int)
      requires Circle(root, ring) && Filled(ring, entries) && i < |entries| && ring[i + 1] == n
      modifies this`entries, n`value, n`expiration
      ensures Circle(root, ring) && root.next != null && Filled(ring, entries)
      ensures entries == old(entries)[i := old(entries)[i].(value := value, expiration := expiration)]
      ensures n.Holds(entries[i])
    {
      n.value := value;
      n.expiration := expiration;
      entries := entries[i := entries[i].(value := value, expiration := expiration)];
    }

    /** A present key keeps its node, which moves to its new place. */
    method PutAgain(key: K, value: V, expiration: int)
      requires Valid() && key in m && expiration >= 0
      modifies this, ring
      ensures Valid() && forall i :: 0 <= i < |ring| ==> ring[i] in old(ring)
      ensures var i := Find(old(entries), key);
              entries == Insert(Drop(old(entries), i), old(entries)[i].(value := value, expiration := expiration))
    {
      hide Mapped, Circle, Slot, Insert, Drop, Find, Sorted, DistinctKeys, SinceZero;
      ghost var es, was, i := entries, ring, Find(entries, key);
      InMapped(m, was, es, key);
      var n := m[key];
      ghost var e := es[i].(value := value, expiration := expiration);
      Replaced(m, was, es, i, e);
      Rewrite(n, i, value, expiration);
      UnlinkEntry(n, i);
      assert entries == Drop(es, i);
      Add(n, e);
    }

    /** Put. Its expiration must not lie before the root's, the zero time, which ends the search in add. */
    method Put(key: K, value: V, ttl: int, now: int)
      requires Valid() && now + ttl >= 0
      modifies this, ring
      ensures Valid() && (forall i :: 0 <= i < |ring| ==> ring[i] in old(ring) || fresh(ring[i]))
      ensures entries == AfterPut(old(entries), key, value, ttl, now)
    {
      hide Linked, Distinct, Filled, Mapped, Slot, Insert, Drop, Find, WellKept, SinceZero;
      if key !in m {
        Unmapped(m, ring, entries, key);
        var n := new Node(key, value, ttl, now + ttl);
        if root.next == null {
          PutFirst(n, Entry(key, value, ttl, now + ttl));
        } else {
          PutNew(n, Entry(key, value, ttl, now + ttl));
        }
      } else {
        InMapped(m, ring, entries, key);
        PutAgain(key, value, now + ttl);
      }
    }

    /** A hit under refresh: remove, give a new expiration, add. */
    method Refresh(key: K, now: int)
      requires Valid() && key in m && now + m[key].ttl >= 0
      modifies this, ring
      ensures Valid() && forall i :: 0 <= i < |ring| ==> ring[i] in old(ring)
      ensures var i, es := Find(old(entries), key), old(entries);
              i >= 0 && entries == Insert(Drop(es, i), es[i].(expiration := now + es[i].ttl))
    {
      hide Mapped, Slot, Insert, Drop, Find, Sorted, DistinctKeys, SinceZero, Distinct, Linked;
      ghost var es, was, i := entries, ring, Find(entries, key);
      InMapped(m, was, es, key);
      var n := m[key];
      ghost var e := es[i].(expiration := now + n.ttl);
      Replaced(m, was, es, i, e);
      UnlinkEntry(n, i);
      assert entries == Drop(es, i) && n.ttl == es[i].ttl;
      n.expiration := now + n.ttl;
      Add(n, e);
    }

    /** One eviction: the first node leaves the list and the map. */
    method EvictFirst(cn: Node<K, V>) returns (pair: (K, V))
      requires Valid() && root.next == cn && cn != root
      modifies this, ring`prev, ring`next
      ensures Valid() && root.next == cn.next && forall i :: 0 <= i < |ring| ==> ring[i] in old(ring)
      ensures |old(entries)| > 0 && entries == old(entries)[1..]
      ensures pair == (old(entries)[0].key, old(entries)[0].value)
    {
      hide Mapped, Circle, Filled, Slot, Insert, Drop, Find, Sorted, DistinctKeys, SinceZero;
      FirstIs(cn);
      AtMapped(m, ring, entries, 0);
      MappedCut(m, ring, entries, 0);
      DropFirst(entries);
      UnlinkEntry(cn, 0);
      m := m - {cn.key};
      pair := (cn.key, cn.value);
    }

    /** The deferred part of Get: evict from the head until something has not expired before now. */
    method Cleanup(now: int) returns (evicted: seq<(K, V)>)
      requires Valid()
      modifies this, ring
      ensures Valid() && forall i :: 0 <= i < |ring| ==> ring[i] in old(ring)
      ensures entries == old(entries)[Stale(old(entries), now)..]
      ensures evicted == Pairs(old(entries)[..Stale(old(entries), now)])
    {
      hide Circle, Mapped, Filled, WellKept, SinceZero;
      ghost var all, k := entries, 0;
      evicted := [];
      var cn := root.next;
      while cn != null && cn != root
        invariant Valid() && cn == root.next && forall i :: 0 <= i < |ring| ==> ring[i] in old(ring)
        invariant k <= |all| && entries == all[k..] && evicted == Pairs(all[..k])
        invariant Stale(all, now) == k + Stale(entries, now)
        decreases |entries|
      {
        FirstIs(cn);
        if now > cn.expiration {
          var pair := EvictFirst(cn);
          evicted := evicted + [pair];
          k := k + 1;
          assert all[..k] == all[..k - 1] + [all[k - 1]];
        } else {
          break;
        }
        cn := cn.next;
      }
      EndsAt();
    }

    lemma FirstIs(cn: Node<K, V>)
      requires Valid() && root.next == cn && cn != root
      ensures |entries| > 0 && ring[1] == cn && cn.Holds(entries[0])
    {
    }

    lemma EndsAt()
      requires Valid()
      ensures root.next == null || root.next == root ==> entries == []
    {
    }

    /** The body of Get, before its deferred cleanup. */
    method Lookup(key: K, now: int) returns (value: V)
      requires Valid() && (Hit(entries, key, now) && refreshTTL ==> now + entries[Find(entries, key)].ttl >= 0)
      modifies this, ring
      ensures Valid() && forall i :: 0 <= i < |ring| ==> ring[i] in old(ring)
      ensures value == if Hit(old(entries), key, now) then old(entries)[Find(old(entries), key)].value else zero
      ensures entries == Touched(old(entries), key, now, refreshTTL)
    {
      hide Circle, WellKept, SinceZero, Insert, Drop, Slot, Mapped, Find;
      if key in m {
        KeyHeld(key);
      } else {
        Unmapped(m, ring, entries, key);
      }
      value := zero;
      if key in m && m[key].expiration > now {
        value := m[key].value;
        if refreshTTL {
          Refresh(key, now);
        }
      }
    }

    /** Get: the hit's value, or the zero value; and what the eviction callback was given, in order. A hit is
        refreshed with the ttl its node was created with, which must not lead before the zero time. */
    method Get(key: K, now: int) returns (value: V, evicted: seq<(K, V)>)
      requires Valid() && (Hit(entries, key, now) && refreshTTL ==> now + entries[Find(entries, key)].ttl >= 0)
      modifies this, ring
      ensures Valid() && forall i :: 0 <= i < |ring| ==> ring[i] in old(ring)
      ensures value == if Hit(old(entries), key, now) then old(entries)[Find(old(entries), key)].value else zero
      ensures entries == AfterGet(old(entries), key, now, refreshTTL)
      ensures evicted == Pairs(Evicted(old(entries), key, now, refreshTTL))
    {
      hide Valid, Touched, Find, Stale, Pairs;
      value := Lookup(key, now);
      evicted := Cleanup(now);
    }

    lemma KeyHeld(key: K)
      requires Valid() && key in m
      ensures var i := Find(entries, key); i >= 0 && m[key] in ring && m[key].Holds(entries[i])
    {
      InMapped(m, ring, entries, key);
    }
  }
}
