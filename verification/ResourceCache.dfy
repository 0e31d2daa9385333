/** The refcounted resource cache of resourcettl/cache.go, over what the TTL cache is proved to do. Every public
    operation is one atomic step with one clock reading. */
module ResourceLifecycle {
  import opened Options
  import opened TtlEntries

  /** A resource id; 0 stands for the empty string, the TTL cache's zero value. */
  type Id = nat
  type Handle = nat

  /** The cache's maps and its TTL cache; then history: what was created, what was cleaned up (one element a
      call of cleanup), the checkin functions not yet called, and the last clock reading. */
  datatype State<K, R> = State(
    entries: seq<Entry<K, Id>>, resources: map<Id, R>, checkouts: map<Id, int>, expiries: set<Id>,
    made: map<Id, R>, cleaned: seq<(Id, Option<R>)>, live: map<Handle, (Id, Option<R>)>, clock: int)

  datatype Config = Config(ttl: int, refresh: bool)

  /** Go's reading of a map: nothing there is the zero value. */
  function Resource<K, R>(s: State<K, R>, id: Id): Option<R> {
    if id in s.resources then Some(s.resources[id]) else None
  }

  function Checkouts<K, R>(s: State<K, R>, id: Id): int {
    if id in s.checkouts then s.checkouts[id] else 0
  }

  /** onEvicted. */
  function Evict<K, R>(s: State<K, R>, id: Id): State<K, R> {
    if id !in s.checkouts then s
    else if s.checkouts[id] == 0 then
      s.(resources := s.resources - {id}, checkouts := s.checkouts - {id}, cleaned := s.cleaned + [(id, Resource(s, id))])
    else s.(expiries := s.expiries + {id})
  }

  function EvictAll<K, R>(s: State<K, R>, evicted: seq<Entry<K, Id>>): State<K, R> {
    if evicted == [] then s else Evict(EvictAll(s, evicted[..|evicted| - 1]), evicted[|evicted| - 1].value)
  }

  /** The id the TTL cache returns for a key. */
  function CachedId<K(==)>(entries: seq<Entry<K, Id>>, key: K, now: int): Id {
    if Hit(entries, key, now) then entries[Find(entries, key)].value else 0
  }

  /** A Get of the TTL cache, with the evictions it reports. */
  function Get<K(==), R>(c: Config, s: State<K, R>, key: K, now: int): State<K, R> {
    EvictAll(s.(entries := AfterGet(s.entries, key, now, c.refresh), clock := now), Evicted(s.entries, key, now, c.refresh))
  }

  /** The increment of a checkout count, and the checkin function handed out with it. */
  function Lend<K, R>(s: State<K, R>, id: Id, handle: Handle): State<K, R> {
    s.(checkouts := s.checkouts[id := Checkouts(s, id) + 1], live := s.live[handle := (id, Resource(s, id))])
  }

  /** newResource, after the caller's function returned r. */
  function Create<K(==), R>(c: Config, s: State<K, R>, key: K, now: int, id: Id, r: R, handle: Handle): State<K, R> {
    var t := s.(resources := s.resources[id := r], made := s.made[id := r],
                entries := AfterPut(s.entries, key, id, c.ttl, now));
    Lend(t, id, handle)
  }

  /** Checkout; `outcome` is what the caller's function would give, with the fresh id drawn for it. */
  function Checkout<K(==), R>(c: Config, s: State<K, R>, key: K, now: int, outcome: Option<(Id, R)>, handle: Handle): State<K, R> {
    var id, t := CachedId(s.entries, key, now), Get(c, s, key, now);
    if id != 0 then Lend(t, id, handle)
    else match outcome
      case None => t
      case Some((id, r)) => Create(c, t, key, now, id, r, handle)
  }

  function Invalidate<K(==), R>(c: Config, s: State<K, R>, key: K, now: int): State<K, R> {
    var id, t := CachedId(s.entries, key, now), Get(c, s, key, now);
    if id != 0 then Evict(t.(entries := AfterPut(t.entries, key, 0, -1, now)), id) else t
  }

  /** The function Checkout returned; only its first call counts. */
  function Checkin<K, R>(s: State<K, R>, handle: Handle): State<K, R> {
    if handle !in s.live then s
    else
      var (id, r) := s.live[handle];
      var t := s.(live := s.live - {handle}, checkouts := s.checkouts[id := Checkouts(s, id) - 1]);
      if id in t.expiries && t.checkouts[id] == 0
      then t.(expiries := t.expiries - {id}, cleaned := t.cleaned + [(id, r)])
      else t
  }

  // ------------------------------------------------------------------- the lifecycle

  ghost function Ids<K>(es: seq<Entry<K, Id>>): set<Id> {
    set i | 0 <= i < |es| && es[i].value != 0 :: es[i].value
  }

  ghost predicate DistinctIds<K>(es: seq<Entry<K, Id>>) {
    forall i, j :: 0 <= i < j < |es| && es[i].value != 0 ==> es[i].value != es[j].value
  }

  ghost function Cleaned<K, R>(s: State<K, R>): set<Id> {
    set i | 0 <= i < |s.cleaned| :: s.cleaned[i].0
  }

  /** The checkouts of a resource that are not checked in. */
  ghost function Outstanding<R>(live: map<Handle, (Id, Option<R>)>, id: Id): set<Handle> {
    set h | h in live && live[h].0 == id
  }

  /** What holds of a resource the cache still accounts for: its count is its outstanding checkouts, and it has
      not been cleaned up. */
  ghost predicate Tracked<K, R>(s: State<K, R>, id: Id) {
    && id in s.made && id in s.resources && id in s.checkouts && id !in Cleaned(s)
  }

  /** Cleanup is called at most once a resource, on the resource itself. */
  ghost predicate CleanLog<R>(cleaned: seq<(Id, Option<R>)>, made: map<Id, R>) {
    && (forall i, j :: 0 <= i < j < |cleaned| ==> cleaned[i].0 != cleaned[j].0)
    && (forall i :: 0 <= i < |cleaned| ==> cleaned[i].0 in made && cleaned[i].1 == Some(made[cleaned[i].0]))
  }

  /** The maps agree with what was made and with what is checked out. */
  ghost predicate Counted<K, R>(s: State<K, R>) {
    && 0 !in s.made
    && (forall id :: id in s.checkouts ==> id in s.made && s.checkouts[id] == |Outstanding(s.live, id)|)
    && (forall id :: id in s.resources ==> id in s.made && s.resources[id] == s.made[id])
  }

  /** Everything cached, expired but checked out, or checked out is tracked. */
  ghost predicate Held<K, R>(s: State<K, R>, cached: set<Id>) {
    && (forall id :: id in cached ==> Tracked(s, id) && id !in s.expiries)
    && (forall id :: id in s.expiries ==> Tracked(s, id) && s.checkouts[id] > 0)
    && (forall h :: h in s.live ==> Tracked(s, s.live[h].0) && s.live[h].1 == Some(s.made[s.live[h].0]))
  }

  /** The invariant, for `cached` the ids the TTL cache holds (or is about to report evicted). */
  ghost predicate Core<K, R>(s: State<K, R>, cached: set<Id>) {
    CleanLog(s.cleaned, s.made) && Counted(s) && Held(s, cached)
  }

  /** Created, and no longer cached, nor waiting for its last checkin, nor cleaned up. */
  ghost function Orphans<K, R>(s: State<K, R>, cached: set<Id>): set<Id> {
    s.made.Keys - cached - s.expiries - Cleaned(s)
  }

  lemma CleanedOnce<K, R>(s: State<K, R>, t: State<K, R>, id: Id)
    requires CleanLog(s.cleaned, s.made) && id in s.made && id !in Cleaned(s)
    requires t.made == s.made && t.cleaned == s.cleaned + [(id, Some(s.made[id]))]
    ensures CleanLog(t.cleaned, t.made) && Cleaned(t) == Cleaned(s) + {id}
  {
    assert t.cleaned[|s.cleaned|].0 == id;
    forall x | x in Cleaned(s) ensures x in Cleaned(t) {
      var i :| 0 <= i < |s.cleaned| && s.cleaned[i].0 == x;
      assert t.cleaned[i].0 == x;
    }
    assert forall i :: 0 <= i < |s.cleaned| ==> s.cleaned[i].0 in Cleaned(s);
  }

  lemma EvictHolds<K, R>(s: State<K, R>, cached: set<Id>, id: Id)
    requires Held(s, cached) && id in cached && s.checkouts[id] == 0 && forall h :: h in s.live ==> s.live[h].0 != id
    requires Cleaned(Evict(s, id)) == Cleaned(s) + {id}
    ensures Held(Evict(s, id), cached - {id})
  {
    hide Cleaned;
  }

  /** A resource nobody holds is cleaned up. */
  lemma EvictIdle<K, R>(s: State<K, R>, cached: set<Id>, id: Id)
    requires Core(s, cached) && id in cached && s.checkouts[id] == 0
    ensures Core(Evict(s, id), cached - {id}) && Orphans(Evict(s, id), cached - {id}) == Orphans(s, cached)
  {
    var t := Evict(s, id);
    assert Tracked(s, id);
    CleanedOnce(s, t, id);
    hide CleanLog, Cleaned, Held;
    forall h | h in t.live ensures t.live[h].0 != id {
      assert t.live[h].0 == id ==> h in Outstanding(s.live, id);
    }
    EvictHolds(s, cached, id);
    assert Counted(t);
  }

  /** An eviction cleans the resource up at once or leaves it to its last checkin; either way it is accounted for. */
  lemma EvictKeeps<K, R>(s: State<K, R>, cached: set<Id>, id: Id)
    requires Core(s, cached) && (id == 0 || id in cached)
    ensures Core(Evict(s, id), cached - {id})
    ensures Orphans(Evict(s, id), cached - {id}) == Orphans(s, cached)
  {
    if id == 0 {
      assert cached - {id} == cached;
    } else if s.checkouts[id] == 0 {
      EvictIdle(s, cached, id);
    } else {
      hide CleanLog;
      var t := Evict(s, id);
      assert Cleaned(t) == Cleaned(s);
      assert Held(t, cached - {id});
    }
  }

  lemma {:induction false} EvictAllKeeps<K, R>(s: State<K, R>, cached: set<Id>, evicted: seq<Entry<K, Id>>)
    requires Core(s, cached) && DistinctIds(evicted) && Ids(evicted) <= cached
    ensures Core(EvictAll(s, evicted), cached - Ids(evicted))
    ensures Orphans(EvictAll(s, evicted), cached - Ids(evicted)) == Orphans(s, cached)
    ensures EvictAll(s, evicted).entries == s.entries && EvictAll(s, evicted).clock == s.clock
    ensures EvictAll(s, evicted).made == s.made && EvictAll(s, evicted).live == s.live
  {
    hide Core, Orphans;
    if evicted == [] {
      assert cached - Ids(evicted) == cached;
    } else {
      var n := |evicted| - 1;
      var rest, id := evicted[..n], evicted[n].value;
      LastId(evicted);
      EvictAllKeeps(s, cached, rest);
      EvictKeeps(EvictAll(s, rest), cached - Ids(rest), id);
      assert (cached - Ids(rest)) - {id} == cached - Ids(evicted) || id == 0;
      assert id == 0 ==> (cached - Ids(rest)) == cached - Ids(evicted);
      if id == 0 {
        NothingIsZero(EvictAll(s, rest), cached - Ids(rest));
      }
    }
  }

  lemma LastId<K>(es: seq<Entry<K, Id>>)
    requires |es| > 0 && DistinctIds(es)
    ensures var n := |es| - 1;
            && DistinctIds(es[..n]) && es[n].value !in Ids(es[..n])
            && Ids(es) == Ids(es[..n]) + (if es[n].value == 0 then {} else {es[n].value})
  {
    var n := |es| - 1;
    forall x | x in Ids(es) ensures x in Ids(es[..n]) || x == es[n].value {
      var i :| 0 <= i < |es| && es[i].value == x;
      assert i < n ==> es[..n][i].value == x;
    }
    forall x | x in Ids(es[..n]) ensures x in Ids(es) && x != es[n].value {
      var i :| 0 <= i < n && es[..n][i].value == x;
      assert es[i].value == x;
    }
    assert es[n].value != 0 ==> es[n].value in Ids(es);
  }

  lemma NothingIsZero<K, R>(s: State<K, R>, cached: set<Id>)
    requires Core(s, cached)
    ensures cached - {0} == cached
  {
  }

  /** A checkout is counted and remembered together. */
  lemma LendCounts<K, R>(s: State<K, R>, id: Id, handle: Handle)
    requires Counted(s) && id in s.checkouts && handle !in s.live
    ensures Counted(Lend(s, id, handle))
  {
    var t := Lend(s, id, handle);
    assert Outstanding(t.live, id) == Outstanding(s.live, id) + {handle};
    assert forall x :: x != id ==> Outstanding(t.live, x) == Outstanding(s.live, x);
  }

  lemma LendHolds<K, R>(s: State<K, R>, cached: set<Id>, id: Id, handle: Handle)
    requires Held(s, cached) && id in cached && handle !in s.live && s.resources[id] == s.made[id] && s.checkouts[id] >= 0
    requires Cleaned(Lend(s, id, handle)) == Cleaned(s)
    ensures Held(Lend(s, id, handle), cached)
  {
    hide Cleaned;
  }

  lemma LendKeeps<K, R>(s: State<K, R>, cached: set<Id>, id: Id, handle: Handle)
    requires Core(s, cached) && id in cached && handle !in s.live
    ensures Core(Lend(s, id, handle), cached) && Orphans(Lend(s, id, handle), cached) == Orphans(s, cached)
  {
    var t := Lend(s, id, handle);
    assert Cleaned(t) == Cleaned(s);
    assert Tracked(s, id);
    LendCounts(s, id, handle);
    LendHolds(s, cached, id, handle);
    hide CleanLog, Outstanding, Cleaned, Counted, Held;
  }

  /** The state `newResource` leaves, but for the TTL cache. */
  ghost predicate Created<K, R>(s: State<K, R>, t: State<K, R>, id: Id, r: R, handle: Handle) {
    && id != 0 && id !in s.made && handle !in s.live
    && t == Lend(s.(resources := s.resources[id := r], made := s.made[id := r], entries := t.entries), id, handle)
  }

  lemma CreateCounts<K, R>(s: State<K, R>, t: State<K, R>, id: Id, r: R, handle: Handle)
    requires Counted(s) && Created(s, t, id, r, handle) && forall h :: h in s.live ==> s.live[h].0 in s.made
    ensures Counted(t)
  {
    assert Outstanding(s.live, id) == {};
    assert Outstanding(t.live, id) == {handle};
    assert forall x :: x != id ==> Outstanding(t.live, x) == Outstanding(s.live, x);
  }

  lemma CreateHolds<K, R>(s: State<K, R>, t: State<K, R>, cached: set<Id>, lost: set<Id>, id: Id, r: R, handle: Handle)
    requires Held(s, cached) && Created(s, t, id, r, handle) && id !in s.checkouts
    requires Cleaned(t) == Cleaned(s) && id !in Cleaned(s)
    ensures Held(t, cached - lost + {id})
  {
    hide Cleaned;
  }

  /** A new resource, checked out once; `lost` is what its TTL cache entry overwrote. */
  lemma CreateKeeps<K, R>(s: State<K, R>, t: State<K, R>, cached: set<Id>, lost: set<Id>, id: Id, r: R, handle: Handle)
    requires Core(s, cached) && Created(s, t, id, r, handle) && lost <= cached
    ensures Core(t, cached - lost + {id}) && Orphans(t, cached - lost + {id}) == Orphans(s, cached) + lost
  {
    assert Cleaned(t) == Cleaned(s) && id !in Cleaned(s);
    assert CleanLog(t.cleaned, t.made);
    CreateCounts(s, t, id, r, handle);
    CreateHolds(s, t, cached, lost, id, r, handle);
    hide CleanLog, Outstanding, Cleaned, Counted, Held;
  }

  lemma CheckinCounts<K, R>(s: State<K, R>, handle: Handle)
    requires Counted(s) && handle in s.live && s.live[handle].0 in s.checkouts
    ensures Counted(Checkin(s, handle))
    ensures var id := s.live[handle].0;
            s.checkouts[id] == 1 ==> forall h :: h in s.live && h != handle ==> s.live[h].0 != id
  {
    var id, t := s.live[handle].0, Checkin(s, handle);
    assert handle in Outstanding(s.live, id);
    assert Outstanding(t.live, id) == Outstanding(s.live, id) - {handle};
    assert forall x :: x != id ==> Outstanding(t.live, x) == Outstanding(s.live, x);
    if s.checkouts[id] == 1 {
      assert |Outstanding(t.live, id)| == 0;
      forall h | h in s.live && h != handle ensures s.live[h].0 != id {
        assert h !in Outstanding(t.live, id);
      }
    }
  }

  lemma CheckinHolds<K, R>(s: State<K, R>, cached: set<Id>, handle: Handle)
    requires Held(s, cached) && handle in s.live && s.live[handle].0 in s.checkouts
    requires var (id, t) := (s.live[handle].0, Checkin(s, handle));
             if id in s.expiries && s.checkouts[id] == 1
             then Cleaned(t) == Cleaned(s) + {id} && forall h :: h in s.live && h != handle ==> s.live[h].0 != id
             else Cleaned(t) == Cleaned(s)
    ensures Held(Checkin(s, handle), cached)
  {
    hide Cleaned;
  }

  /** The last checkin of an expired resource cleans it up; no other checkin cleans anything up. */
  lemma CheckinKeeps<K, R>(s: State<K, R>, cached: set<Id>, handle: Handle)
    requires Core(s, cached)
    ensures Core(Checkin(s, handle), cached) && Orphans(Checkin(s, handle), cached) == Orphans(s, cached)
  {
    if handle in s.live {
      var id, t := s.live[handle].0, Checkin(s, handle);
      assert Tracked(s, id) && s.live[handle].1 == Some(s.made[id]);
      CheckinCounts(s, handle);
      if id in s.expiries && s.checkouts[id] == 1 {
        CleanedOnce(s, t, id);
      } else {
        assert Cleaned(t) == Cleaned(s);
      }
      hide CleanLog, Cleaned, Counted, Held;
      CheckinHolds(s, cached, handle);
    }
  }

  // --------------------------------------------------------- what the TTL cache does to the ids

  lemma InsertIds<K>(es: seq<Entry<K, Id>>, e: Entry<K, Id>)
    requires DistinctIds(es) && e.value !in Ids(es)
    ensures DistinctIds(Insert(es, e)) && Ids(Insert(es, e)) == Ids(es) + (if e.value == 0 then {} else {e.value})
  {
    hide Insert, Slot;
    var p, r := Slot(es, e.expiration), Insert(es, e);
    forall i | 0 <= i < |es| && es[i].value != 0 ensures es[i].value in Ids(es) && es[i].value in Ids(r) {
      assert r[if i < p then i else i + 1] == es[i];
    }
    assert r[p].value != 0 ==> e.value in Ids(r);
    forall x | x in Ids(r) ensures x in Ids(es) || x == e.value {
      var i :| 0 <= i < |r| && r[i].value == x;
      assert i != p ==> r[i] == es[if i < p then i else i - 1];
    }
  }

  lemma DropIds<K>(es: seq<Entry<K, Id>>, i: nat)
    requires DistinctIds(es) && i < |es|
    ensures DistinctIds(Drop(es, i)) && Ids(Drop(es, i)) == Ids(es) - {es[i].value}
  {
    hide Drop;
    var r := Drop(es, i);
    forall x | x in Ids(es) && x != es[i].value ensures x in Ids(r) {
      var j :| 0 <= j < |es| && es[j].value == x;
      assert r[if j < i then j else j - 1] == es[j];
    }
    forall x | x in Ids(r) ensures x in Ids(es) && x != es[i].value {
      var j :| 0 <= j < |r| && r[j].value == x;
      var o := if j < i then j else j + 1;
      assert r[j] == es[o] && o != i;
    }
  }

  lemma TouchedIds<K>(es: seq<Entry<K, Id>>, key: K, now: int, refresh: bool)
    requires DistinctIds(es)
    ensures DistinctIds(Touched(es, key, now, refresh)) && Ids(Touched(es, key, now, refresh)) == Ids(es)
  {
    hide DistinctIds, Insert, Drop, Find, Slot;
    if Hit(es, key, now) && refresh {
      var i := Find(es, key);
      DropIds(es, i);
      InsertIds(Drop(es, i), es[i].(expiration := now + es[i].ttl));
      assert es[i].value != 0 ==> es[i].value in Ids(es);
      assert 0 !in Ids(es);
    }
  }

  lemma SplitIds<K>(es: seq<Entry<K, Id>>, n: nat)
    requires DistinctIds(es) && n <= |es|
    ensures DistinctIds(es[..n]) && DistinctIds(es[n..])
    ensures Ids(es) == Ids(es[..n]) + Ids(es[n..]) && Ids(es[..n]) !! Ids(es[n..])
  {
    forall x | x in Ids(es) ensures x in Ids(es[..n]) || x in Ids(es[n..]) {
      var i :| 0 <= i < |es| && es[i].value == x;
      assert if i < n then es[..n][i].value == x else es[n..][i - n].value == x;
    }
  }

  ghost function LostTo<K>(es: seq<Entry<K, Id>>, key: K): set<Id> {
    var i := Find(es, key);
    if i >= 0 && es[i].value != 0 then {es[i].value} else {}
  }

  lemma PutIds<K>(es: seq<Entry<K, Id>>, key: K, id: Id, ttl: int, now: int)
    requires DistinctIds(es) && id !in Ids(es)
    ensures DistinctIds(AfterPut(es, key, id, ttl, now)) && LostTo(es, key) <= Ids(es)
    ensures Ids(AfterPut(es, key, id, ttl, now)) == Ids(es) - LostTo(es, key) + (if id == 0 then {} else {id})
  {
    hide DistinctIds, Insert, Drop, Find, Slot;
    var i := Find(es, key);
    if i >= 0 {
      DropIds(es, i);
      InsertIds(Drop(es, i), es[i].(value := id, expiration := now + ttl));
      assert es[i].value != 0 ==> es[i].value in Ids(es);
      assert 0 !in Ids(es);
    } else {
      InsertIds(es, Entry(key, id, ttl, now + ttl));
    }
  }

  /** Every entry was created with the cache's ttl; a cached resource expires at most one ttl from now. */
  ghost predicate Terms<K>(c: Config, es: seq<Entry<K, Id>>, clock: int) {
    && (forall i :: 0 <= i < |es| ==> es[i].ttl == c.ttl)
    && (forall i :: 0 <= i < |es| && es[i].value != 0 ==> es[i].expiration <= clock + c.ttl)
  }

  lemma TouchedTerms<K>(c: Config, es: seq<Entry<K, Id>>, key: K, clock: int, now: int)
    requires Terms(c, es, clock) && clock <= now
    ensures Terms(c, Touched(es, key, now, c.refresh), now)
  {
    hide Insert, Drop, Find, Slot;
  }

  lemma PutTerms<K>(c: Config, es: seq<Entry<K, Id>>, key: K, id: Id, ttl: int, now: int)
    requires Terms(c, es, now) && (ttl == c.ttl || (id == 0 && Find(es, key) >= 0))
    ensures Terms(c, AfterPut(es, key, id, ttl, now), now)
  {
    hide Insert, Drop, Find, Slot;
  }

  /** A hit survives the cleanup of its own Get. */
  lemma HitStays<K>(c: Config, es: seq<Entry<K, Id>>, key: K, clock: int, now: int)
    requires WellKept(es) && Terms(c, es, clock) && clock <= now && CachedId(es, key, now) != 0
    ensures var left := AfterGet(es, key, now, c.refresh);
            Find(left, key) >= 0 && left[Find(left, key)].value == CachedId(es, key, now)
  {
    GetRefinesMap(es, key, now, c.refresh);
    Looked(es, key);
    Looked(AfterGet(es, key, now, c.refresh), key);
  }

  /** The instant at which a cached resource has expired for a lookup but not for the cleanup. */
  predicate AtExpiry<K(==)>(es: seq<Entry<K, Id>>, key: K, now: int) {
    var i := Find(es, key);
    i >= 0 && es[i].value != 0 && es[i].expiration == now
  }

  /** What a miss leaves under the key. */
  lemma MissLeaves<K>(es: seq<Entry<K, Id>>, key: K, now: int, refresh: bool)
    requires WellKept(es) && CachedId(es, key, now) == 0
    ensures LostTo(AfterGet(es, key, now, refresh), key) == if AtExpiry(es, key, now) then {es[Find(es, key)].value} else {}
  {
    GetRefinesMap(es, key, now, refresh);
    Looked(es, key);
    Looked(AfterGet(es, key, now, refresh), key);
  }

  // ------------------------------------------------- a clock that moves during Get

  /** A Get whose refresh and cleanup read the clock again, the cleanup at every node. */
  function LateGet<K(==), R>(c: Config, s: State<K, R>, key: K, now: int, again: int, readings: seq<int>, later: int): State<K, R>
    requires |readings| >= |s.entries|
  {
    EvictAll(s.(entries := AfterLateGet(s.entries, key, now, again, readings, c.refresh), clock := later),
             EvictedLate(s.entries, key, now, again, readings, c.refresh))
  }

  /** Of the resources evicted, exactly those not checked out are cleaned up. */
  lemma {:induction false} EvictAllCleans<K, R>(s: State<K, R>, cached: set<Id>, evicted: seq<Entry<K, Id>>, id: Id)
    requires Core(s, cached) && DistinctIds(evicted) && Ids(evicted) <= cached && id in cached
    ensures var t := EvictAll(s, evicted);
            && (id in Cleaned(t) <==> id in Ids(evicted) && s.checkouts[id] == 0)
            && (id in Cleaned(t) ==> id !in t.resources)
            && (id !in Cleaned(t) ==> id in t.resources && id in t.checkouts && t.checkouts[id] == s.checkouts[id])
    decreases |evicted|
  {
    CachedIsTracked(s, cached, id);
    if evicted != [] {
      var n := |evicted| - 1;
      var rest, last := evicted[..n], evicted[n].value;
      hide Core, DistinctIds, Ids, Cleaned;
      LastId(evicted);
      EvictAllCleans(s, cached, rest, id);
      EvictAllKeeps(s, cached, rest);
      EvictCleans(EvictAll(s, rest), cached - Ids(rest), last, id);
    }
  }

  lemma CachedIsTracked<K, R>(s: State<K, R>, cached: set<Id>, id: Id)
    requires Core(s, cached) && id in cached
    ensures Tracked(s, id) && id != 0
  {
  }

  lemma EvictCleans<K, R>(s: State<K, R>, cached: set<Id>, last: Id, id: Id)
    requires Core(s, cached) && (last == 0 || last in cached) && id != 0
    ensures var t := Evict(s, last);
            && Cleaned(t) == Cleaned(s) + (if last != 0 && s.checkouts[last] == 0 then {last} else {})
            && (id != last ==> (id in t.resources <==> id in s.resources) && (id in t.checkouts <==> id in s.checkouts)
                               && (id in s.checkouts ==> t.checkouts[id] == s.checkouts[id]))
            && (last != 0 ==> last in s.checkouts && last in s.resources && last !in Cleaned(s))
            && (last != 0 && s.checkouts[last] == 0 ==> last !in t.resources)
            && (last != 0 && s.checkouts[last] != 0 ==> t.resources == s.resources && t.checkouts == s.checkouts)
  {
    if last == 0 {
      assert 0 !in s.checkouts;
    } else {
      CachedIsTracked(s, cached, last);
      var t := Evict(s, last);
      if s.checkouts[last] == 0 {
        CleanedOnce(s, t, last);
      }
    }
  }

  /** A resource just looked up is cleaned up by its own Get exactly if nobody has it checked out and it has expired
      by the last reading of the cleanup; the checkout then hands out nothing. */
  lemma HitIsCleanedExactly<K, R>(c: Config, s: State<K, R>, key: K, now: int, again: int, readings: seq<int>, later: int)
    requires Inv(c, s) && CachedId(s.entries, key, now) != 0 && |readings| >= |s.entries| && Ascending(readings)
    ensures var id, t := CachedId(s.entries, key, now), LateGet(c, s, key, now, again, readings, later);
            && id in s.checkouts
            && (id in Cleaned(t) <==> s.checkouts[id] == 0 && HitExpires(s.entries, key, now, again, c.refresh)
                                                              < StoppedBy(s.entries, key, now, again, readings, c.refresh))
            && (Resource(t, id) == None <==> id in Cleaned(t))
  {
    var es, id := s.entries, CachedId(s.entries, key, now);
    var u := s.(entries := AfterLateGet(es, key, now, again, readings, c.refresh), clock := later);
    var touched := TouchedLate(es, key, now, again, c.refresh);
    TouchedLateHit(es, key, now, again, c.refresh);
    LastReadingDecides(touched, readings);
    var n, p := StaleBy(touched, readings), Find(touched, key);
    StaleExactly(touched, LastReading(touched, readings));
    TouchedLateIds(es, key, now, again, c.refresh);
    SplitIds(touched, n);
    SameBooks(s, u, Ids(es));
    assert id in Ids(es);
    CachedIsTracked(s, Ids(es), id);
    IdInPrefix(touched, n, p);
    hide Core, Inv, Ids, DistinctIds, WellKept, Cleaned, TouchedLate, Stale, StaleBy, LastReading;
    EvictAllCleans(u, Ids(es), touched[..n], id);
  }

  /** For instance, without refresh, looked up at 5, expired at 6, cleaned up by the same Get at 7. */
  lemma HitCanBeCleaned()
    ensures var c, s := Config(5, false), State([Entry('k', 1, 5, 6)], map[1 := 'a'], map[1 := 0], {}, map[1 := 'a'], [], map[], 1);
            Inv(c, s) && CachedId(s.entries, 'k', 5) == 1 && 1 in Cleaned(LateGet(c, s, 'k', 5, 5, [7], 7))
  {
    var c, s := Config(5, false), State([Entry('k', 1, 5, 6)], map[1 := 'a'], map[1 := 0], {}, map[1 := 'a'], [], map[], 1);
    assert Find(s.entries, 'k') == 0;
    assert Outstanding(s.live, 1) == {};
    assert StaleBy(s.entries, [7]) == 1;
    HitIsCleanedExactly(c, s, 'k', 5, 5, [7], 7);
  }

  lemma IdInPrefix<K>(es: seq<Entry<K, Id>>, n: nat, p: int)
    requires DistinctIds(es) && n <= |es| && 0 <= p < |es| && es[p].value != 0
    ensures es[p].value in Ids(es[..n]) <==> p < n
  {
    if p < n {
      assert es[..n][p].value == es[p].value;
    }
  }

  lemma TouchedLateIds<K>(es: seq<Entry<K, Id>>, key: K, now: int, again: int, refresh: bool)
    requires DistinctIds(es)
    ensures DistinctIds(TouchedLate(es, key, now, again, refresh)) && Ids(TouchedLate(es, key, now, again, refresh)) == Ids(es)
  {
    hide DistinctIds, Insert, Drop, Find, Slot;
    if Hit(es, key, now) && refresh {
      var i := Find(es, key);
      DropIds(es, i);
      InsertIds(Drop(es, i), es[i].(expiration := again + es[i].ttl));
      assert es[i].value != 0 ==> es[i].value in Ids(es);
      assert 0 !in Ids(es);
    }
  }

  // ------------------------------------------------------------------------------ runs

  datatype Step<K, R> =
    | DoCheckout(key: K, now: int, outcome: Option<(Id, R)>, handle: Handle)
    | DoInvalidate(key: K, now: int)
    | DoCheckin(handle: Handle)

  function Initial<K, R>(now: int): State<K, R> {
    State([], map[], map[], {}, map[], [], map[], now)
  }

  /** Clocks do not run backwards; drawn ids are fresh and not empty; a checkin function is new when handed out. */
  ghost predicate Enabled<K, R>(s: State<K, R>, step: Step<K, R>) {
    match step
    case DoCheckout(_, now, outcome, handle) =>
      now >= s.clock && handle !in s.live && (outcome.Some? ==> outcome.value.0 != 0 && outcome.value.0 !in s.made)
    case DoInvalidate(_, now) => now >= s.clock
    case DoCheckin(_) => true
  }

  function Apply<K(==), R>(c: Config, s: State<K, R>, step: Step<K, R>): State<K, R> {
    match step
    case DoCheckout(key, now, outcome, handle) => Checkout(c, s, key, now, outcome, handle)
    case DoInvalidate(key, now) => Invalidate(c, s, key, now)
    case DoCheckin(handle) => Checkin(s, handle)
  }

  ghost predicate Inv<K, R>(c: Config, s: State<K, R>) {
    && WellKept(s.entries) && DistinctIds(s.entries) && Terms(c, s.entries, s.clock)
    && Core(s, Ids(s.entries))
  }

  /** A checkout that creates a resource at the very instant the cached one expires. */
  predicate Loses<K(==), R>(s: State<K, R>, step: Step<K, R>) {
    step.DoCheckout? && step.outcome.Some? && AtExpiry(s.entries, step.key, step.now)
  }

  lemma GetKeepsAll<K, R>(c: Config, s: State<K, R>, key: K, now: int)
    requires Inv(c, s) && now >= s.clock
    ensures var t := Get(c, s, key, now);
            && Inv(c, t) && Orphans(t, Ids(t.entries)) == Orphans(s, Ids(s.entries))
            && t.entries == AfterGet(s.entries, key, now, c.refresh) && t.made == s.made && t.live == s.live && t.clock == now
  {
    var u := s.(entries := AfterGet(s.entries, key, now, c.refresh), clock := now);
    var touched, evicted := Touched(s.entries, key, now, c.refresh), Evicted(s.entries, key, now, c.refresh);
    var n := Stale(touched, now);
    TtlEntries.GetKeeps(s.entries, key, now, c.refresh);
    TouchedIds(s.entries, key, now, c.refresh);
    SplitIds(touched, n);
    TouchedTerms(c, s.entries, key, s.clock, now);
    assert Terms(c, u.entries, now);
    SameBooks(s, u, Ids(s.entries));
    hide Core, Orphans, Ids, DistinctIds, WellKept, Terms, Touched, Stale;
    EvictAllKeeps(u, Ids(s.entries), evicted);
    assert Ids(s.entries) - Ids(evicted) == Ids(u.entries);
  }

  lemma SameBooks<K, R>(s: State<K, R>, u: State<K, R>, cached: set<Id>)
    requires Core(s, cached) && u == s.(entries := u.entries, clock := u.clock)
    ensures Core(u, cached) && Orphans(u, cached) == Orphans(s, cached)
  {
    assert Cleaned(u) == Cleaned(s);
  }

  lemma CreateKeepsAll<K, R>(c: Config, u: State<K, R>, key: K, id: Id, r: R, handle: Handle)
    requires Inv(c, u) && id != 0 && id !in u.made && handle !in u.live
    ensures var t := Create(c, u, key, u.clock, id, r, handle);
            Inv(c, t) && Orphans(t, Ids(t.entries)) == Orphans(u, Ids(u.entries)) + LostTo(u.entries, key)
  {
    hide Core, Orphans, DistinctIds, WellKept, Terms, AfterPut;
    NotMade(u, id);
    TtlEntries.PutKeeps(u.entries, key, id, c.ttl, u.clock);
    PutIds(u.entries, key, id, c.ttl, u.clock);
    PutTerms(c, u.entries, key, id, c.ttl, u.clock);
    CreateKeeps(u, Create(c, u, key, u.clock, id, r, handle), Ids(u.entries), LostTo(u.entries, key), id, r, handle);
  }

  lemma CheckoutKeeps<K, R>(c: Config, s: State<K, R>, key: K, now: int, outcome: Option<(Id, R)>, handle: Handle)
    requires Inv(c, s) && Enabled(s, DoCheckout(key, now, outcome, handle))
    ensures var t := Checkout(c, s, key, now, outcome, handle);
            && Inv(c, t)
            && Orphans(t, Ids(t.entries)) == Orphans(s, Ids(s.entries)) +
                 if Loses(s, DoCheckout(key, now, outcome, handle)) then {s.entries[Find(s.entries, key)].value} else {}
  {
    hide Core, Orphans, DistinctIds, WellKept, Terms, Get, Create, AfterGet, LostTo;
    var id, u := CachedId(s.entries, key, now), Get(c, s, key, now);
    GetKeepsAll(c, s, key, now);
    if id != 0 {
      HitStays(c, s.entries, key, s.clock, now);
      assert id in Ids(u.entries);
      LendKeeps(u, Ids(u.entries), id, handle);
    } else if outcome.Some? {
      var (drawn, r) := outcome.value;
      MissLeaves(s.entries, key, now, c.refresh);
      CreateKeepsAll(c, u, key, drawn, r, handle);
    }
  }

  lemma NotMade<K, R>(s: State<K, R>, id: Id)
    requires Core(s, Ids(s.entries)) && id !in s.made
    ensures id !in Ids(s.entries)
  {
  }

  lemma BlankKeepsAll<K, R>(c: Config, u: State<K, R>, key: K)
    requires Inv(c, u) && Find(u.entries, key) >= 0 && u.entries[Find(u.entries, key)].value != 0
    ensures var id := u.entries[Find(u.entries, key)].value;
            var t := Evict(u.(entries := AfterPut(u.entries, key, 0, -1, u.clock)), id);
            Inv(c, t) && Orphans(t, Ids(t.entries)) == Orphans(u, Ids(u.entries))
  {
    hide Core, Orphans, DistinctIds, WellKept, Terms, AfterPut;
    var id := u.entries[Find(u.entries, key)].value;
    assert id in Ids(u.entries) && 0 !in Ids(u.entries);
    TtlEntries.PutKeeps(u.entries, key, 0, -1, u.clock);
    PutIds(u.entries, key, 0, -1, u.clock);
    PutTerms(c, u.entries, key, 0, -1, u.clock);
    var v := u.(entries := AfterPut(u.entries, key, 0, -1, u.clock));
    SameBooks(u, v, Ids(u.entries));
    EvictKeeps(v, Ids(u.entries), id);
    assert Ids(v.entries) == Ids(u.entries) - {id};
  }

  lemma InvalidateKeeps<K, R>(c: Config, s: State<K, R>, key: K, now: int)
    requires Inv(c, s) && now >= s.clock
    ensures var t := Invalidate(c, s, key, now);
            Inv(c, t) && Orphans(t, Ids(t.entries)) == Orphans(s, Ids(s.entries))
  {
    hide Core, Orphans, DistinctIds, WellKept, Terms, Get, AfterGet, AfterPut;
    GetKeepsAll(c, s, key, now);
    if CachedId(s.entries, key, now) != 0 {
      HitStays(c, s.entries, key, s.clock, now);
      BlankKeepsAll(c, Get(c, s, key, now), key);
    }
  }

  /** Every step keeps the invariant, and a created resource drops out of account exactly when a Checkout creates
      another under its key at its expiration instant. */
  lemma StepKeeps<K, R>(c: Config, s: State<K, R>, step: Step<K, R>)
    requires Inv(c, s) && Enabled(s, step)
    ensures var t := Apply(c, s, step);
            && Inv(c, t)
            && (Orphans(t, Ids(t.entries)) == Orphans(s, Ids(s.entries)) <==> !Loses(s, step))
            && Orphans(s, Ids(s.entries)) <= Orphans(t, Ids(t.entries))
  {
    match step
    case DoCheckout(key, now, outcome, handle) =>
      CheckoutKeeps(c, s, key, now, outcome, handle);
      if Loses(s, step) {
        assert s.entries[Find(s.entries, key)].value in Ids(s.entries);
      }
    case DoInvalidate(key, now) => InvalidateKeeps(c, s, key, now);
    case DoCheckin(handle) => CheckinKeeps(s, Ids(s.entries), handle);
  }

  // ------------------------------------------------------- what a caller is given, and what is forgotten

  /** The id cached for a key, told by the entries as a map. */
  lemma CachedIdIs<K>(es: seq<Entry<K, Id>>, key: K, now: int)
    requires DistinctKeys(es)
    ensures var m := AsMap(es); CachedId(es, key, now) == if key in m && m[key].expiration > now then m[key].value else 0
  {
    Looked(es, key);
  }

  /** The two caches agree on every other key. */
  ghost predicate SameBut<K>(es: seq<Entry<K, Id>>, fs: seq<Entry<K, Id>>, key: K)
    requires DistinctKeys(es) && DistinctKeys(fs)
  {
    AsMap(es) - {key} == AsMap(fs) - {key}
  }

  lemma BlankForgets<K>(es: seq<Entry<K, Id>>, key: K, now: int, later: int)
    requires WellKept(es) && now <= later
    ensures var t := AfterPut(es, key, 0, -1, now); WellKept(t) && CachedId(t, key, later) == 0 && SameBut(es, t, key)
  {
    hide AfterPut;
    PutRefinesMap(es, key, 0, -1, now);
    CachedIdIs(AfterPut(es, key, 0, -1, now), key, later);
  }

  /** A key that misses misses from then on. */
  lemma MissStays<K>(es: seq<Entry<K, Id>>, key: K, now: int, later: int, refresh: bool)
    requires WellKept(es) && CachedId(es, key, now) == 0 && now <= later
    ensures WellKept(AfterGet(es, key, now, refresh)) && CachedId(AfterGet(es, key, now, refresh), key, later) == 0
  {
    hide AfterGet;
    GetRefinesMap(es, key, now, refresh);
    CachedIdIs(es, key, now);
    CachedIdIs(AfterGet(es, key, now, refresh), key, later);
  }

  /** A cached resource is looked up, and its count is still the number of its checkouts. */
  lemma GetKeepsHit<K, R>(c: Config, s: State<K, R>, key: K, now: int)
    requires Inv(c, s) && now >= s.clock && CachedId(s.entries, key, now) != 0
    ensures var id, g := CachedId(s.entries, key, now), Get(c, s, key, now);
            && id in Ids(g.entries) && Find(g.entries, key) >= 0 && g.entries[Find(g.entries, key)].value == id
            && Tracked(s, id) && Tracked(g, id) && id !in g.expiries && g.checkouts[id] == s.checkouts[id]
  {
    var id, g := CachedId(s.entries, key, now), Get(c, s, key, now);
    GetKeepsAll(c, s, key, now);
    HitStays(c, s.entries, key, s.clock, now);
    assert s.entries[Find(s.entries, key)].value in Ids(s.entries);
    assert g.entries[Find(g.entries, key)].value in Ids(g.entries);
    hide Get, Outstanding, CleanLog, Ids, Tracked, DistinctIds, WellKept, Terms;
    CachedIsTracked(s, Ids(s.entries), id);
    CachedIsTracked(g, Ids(g.entries), id);
    assert Tracked(s, id) && Tracked(g, id);
    CountIsOutstanding(s, id);
    CountIsOutstanding(g, id);
  }

  lemma CountIsOutstanding<K, R>(s: State<K, R>, id: Id)
    requires Counted(s) && Tracked(s, id)
    ensures s.checkouts[id] == |Outstanding(s.live, id)|
  {
  }

  /** Invalidate forgets the resource of the key: no later lookup finds it, it is cleaned up at once if nobody has
      it checked out and left to its last checkin otherwise, and the other keys are as after a Get. Where nothing
      is cached it is a Get. */
  lemma InvalidateForgets<K, R>(c: Config, s: State<K, R>, key: K, now: int, later: int)
    requires Inv(c, s) && s.clock <= now <= later
    ensures var id, g, t := CachedId(s.entries, key, now), Get(c, s, key, now), Invalidate(c, s, key, now);
            && WellKept(g.entries) && WellKept(t.entries)
            && CachedId(t.entries, key, later) == 0 && SameBut(g.entries, t.entries, key)
            && t.made == s.made && t.live == s.live
            && (id == 0 ==> t == g)
            && (id != 0 ==> (id in s.checkouts
                 && Cleaned(t) == Cleaned(g) + (if s.checkouts[id] == 0 then {id} else {})
                 && t.expiries == g.expiries + (if s.checkouts[id] == 0 then {} else {id})))
  {
    var id, g := CachedId(s.entries, key, now), Get(c, s, key, now);
    GetKeepsAll(c, s, key, now);
    if id == 0 {
      MissStays(s.entries, key, now, later, c.refresh);
    } else {
      GetKeepsHit(c, s, key, now);
      hide Get, Core, DistinctIds, Ids, AfterPut, WellKept, Cleaned, Terms, CachedId, AfterGet, Tracked, DistinctKeys, Sorted, AsMap;
      BlankForgets(g.entries, key, now, later);
      BlankEvicts(g, key, id, now);
    }
  }

  /** Blanking the entry of a cached resource and evicting it. */
  lemma BlankEvicts<K, R>(g: State<K, R>, key: K, id: Id, now: int)
    requires Core(g, Ids(g.entries)) && id in Ids(g.entries)
    ensures var t := Evict(g.(entries := AfterPut(g.entries, key, 0, -1, now)), id);
            && t.entries == AfterPut(g.entries, key, 0, -1, now) && t.made == g.made && t.live == g.live && id in g.checkouts
            && Cleaned(t) == Cleaned(g) + (if g.checkouts[id] == 0 then {id} else {})
            && t.expiries == g.expiries + (if g.checkouts[id] == 0 then {} else {id})
  {
    hide Core, Ids, AfterPut;
    var v := g.(entries := AfterPut(g.entries, key, 0, -1, now));
    CachedIsTracked(g, Ids(g.entries), id);
    SameBooks(g, v, Ids(g.entries));
    assert Cleaned(v) == Cleaned(g);
    EvictCleans(v, Ids(g.entries), id, id);
  }

  /** When the resource of the key expires, as its last checkout leaves it. */
  function ExpiresAt<K(==)>(c: Config, es: seq<Entry<K, Id>>, key: K, now: int): int {
    if CachedId(es, key, now) != 0 && !c.refresh then es[Find(es, key)].expiration else now + c.ttl
  }

  /** Checkout hands out the cached resource if there is one and otherwise the one the caller's function gives, and
      it is the one cached for the key until it expires; a function that fails makes it a Get. The other keys are
      as after a Get. */
  lemma CheckoutHandsOut<K, R>(c: Config, s: State<K, R>, key: K, now: int, outcome: Option<(Id, R)>, handle: Handle, later: int)
    requires Inv(c, s) && Enabled(s, DoCheckout(key, now, outcome, handle)) && now <= later
    ensures var id, g, t := CachedId(s.entries, key, now), Get(c, s, key, now), Checkout(c, s, key, now, outcome, handle);
            WellKept(g.entries) && WellKept(t.entries) && SameBut(g.entries, t.entries, key) &&
            if id == 0 && outcome == None then t == g
            else
              var given := if id != 0 then id else outcome.value.0;
              && t.made == (if id != 0 then s.made else s.made[given := outcome.value.1])
              && given in t.made && t.live == s.live[handle := (given, Some(t.made[given]))]
              && CachedId(t.entries, key, later) == if later < ExpiresAt(c, s.entries, key, now) then given else 0
  {
    hide Get, Core, DistinctIds, Ids, AfterPut, WellKept, Terms, CachedId, AfterGet, Tracked, DistinctKeys, Sorted, AsMap;
    var id, g := CachedId(s.entries, key, now), Get(c, s, key, now);
    GetKeepsAll(c, s, key, now);
    KeptApart(g.entries);
    if id != 0 {
      GetKeepsHit(c, s, key, now);
      HitExpiry(c, s.entries, key, s.clock, now, later);
      ResourceIsMade(g, id);
    } else if outcome.Some? {
      PutIsCached(g.entries, key, outcome.value.0, c.ttl, now, later);
    }
  }

  lemma KeptApart<K>(es: seq<Entry<K, Id>>)
    requires WellKept(es)
    ensures DistinctKeys(es)
  {
  }

  lemma ResourceIsMade<K, R>(s: State<K, R>, id: Id)
    requires Core(s, Ids(s.entries)) && id in Ids(s.entries)
    ensures id in s.made && Resource(s, id) == Some(s.made[id])
  {
    assert Tracked(s, id);
  }

  lemma HitExpiry<K>(c: Config, es: seq<Entry<K, Id>>, key: K, clock: int, now: int, later: int)
    requires WellKept(es) && Terms(c, es, clock) && clock <= now <= later && CachedId(es, key, now) != 0
    ensures CachedId(AfterGet(es, key, now, c.refresh), key, later)
            == if later < ExpiresAt(c, es, key, now) then CachedId(es, key, now) else 0
  {
    hide AfterGet;
    GetRefinesMap(es, key, now, c.refresh);
    Looked(es, key);
    CachedIdIs(AfterGet(es, key, now, c.refresh), key, later);
  }

  lemma PutIsCached<K>(es: seq<Entry<K, Id>>, key: K, id: Id, ttl: int, now: int, later: int)
    requires WellKept(es)
    ensures var t := AfterPut(es, key, id, ttl, now);
            WellKept(t) && SameBut(es, t, key) && CachedId(t, key, later) == if later < now + ttl then id else 0
  {
    hide AfterPut;
    PutRefinesMap(es, key, id, ttl, now);
    CachedIdIs(AfterPut(es, key, id, ttl, now), key, later);
  }

  ghost predicate Run<K, R>(c: Config, s: State<K, R>, steps: seq<Step<K, R>>)
    decreases |steps|
  {
    steps == [] || (Enabled(s, steps[0]) && Run(c, Apply(c, s, steps[0]), steps[1..]))
  }

  ghost function After<K, R>(c: Config, s: State<K, R>, steps: seq<Step<K, R>>): State<K, R>
    decreases |steps|
  {
    if steps == [] then s else After(c, Apply(c, s, steps[0]), steps[1..])
  }

  /** Some step of the run loses a resource. */
  ghost predicate EverLoses<K, R>(c: Config, s: State<K, R>, steps: seq<Step<K, R>>)
    decreases |steps|
  {
    steps != [] && (Loses(s, steps[0]) || EverLoses(c, Apply(c, s, steps[0]), steps[1..]))
  }

  /** The cache's promise, over every run: no resource is cleaned up while a checkout of it is outstanding, none
      is cleaned up twice, and every resource created is cached, waiting for its last checkin, or cleaned up if
      and only if no Checkout created another under its key at its expiration instant. */
  lemma {:induction false} EveryRunIsSafe<K, R>(c: Config, s: State<K, R>, steps: seq<Step<K, R>>)
    requires Inv(c, s) && Run(c, s, steps) && Orphans(s, Ids(s.entries)) == {}
    ensures var t := After(c, s, steps);
            && Inv(c, t)
            && (forall id :: id in Cleaned(t) ==> Outstanding(t.live, id) == {})
            && (forall i, j :: 0 <= i < j < |t.cleaned| ==> t.cleaned[i].0 != t.cleaned[j].0)
            && (forall id :: id in t.expiries ==> Outstanding(t.live, id) != {})
            && (t.made.Keys == Ids(t.entries) + t.expiries + Cleaned(t) <==> !EverLoses(c, s, steps))
  {
    RunKeeps(c, s, steps);
    var t := After(c, s, steps);
    InvMeans(c, t);
  }

  lemma {:induction false} RunKeeps<K, R>(c: Config, s: State<K, R>, steps: seq<Step<K, R>>)
    requires Inv(c, s) && Run(c, s, steps)
    ensures var t := After(c, s, steps);
            && Inv(c, t) && Orphans(s, Ids(s.entries)) <= Orphans(t, Ids(t.entries))
            && (Orphans(s, Ids(s.entries)) == Orphans(t, Ids(t.entries)) <==> !EverLoses(c, s, steps))
    decreases |steps|
  {
    hide Inv, Orphans, Ids, Loses;
    if steps != [] {
      StepKeeps(c, s, steps[0]);
      RunKeeps(c, Apply(c, s, steps[0]), steps[1..]);
    }
  }

  lemma InvMeans<K, R>(c: Config, t: State<K, R>)
    requires Inv(c, t)
    ensures forall id :: id in Cleaned(t) ==> Outstanding(t.live, id) == {}
    ensures forall id :: id in t.expiries ==> Outstanding(t.live, id) != {}
    ensures t.made.Keys == Ids(t.entries) + t.expiries + Cleaned(t) <==> Orphans(t, Ids(t.entries)) == {}
  {
    forall id | id in Cleaned(t) ensures id in t.made && Outstanding(t.live, id) == {} {
      var i :| 0 <= i < |t.cleaned| && t.cleaned[i].0 == id;
      forall h | h in t.live ensures t.live[h].0 != id {
        assert Tracked(t, t.live[h].0);
      }
    }
    forall id | id in t.expiries || id in Ids(t.entries) ensures id in t.made { assert Tracked(t, id); }
    var all, lost := Ids(t.entries) + t.expiries + Cleaned(t), Orphans(t, Ids(t.entries));
    assert all <= t.made.Keys && lost == t.made.Keys - all;
    assert t.made.Keys == all + lost;
    if t.made.Keys == all {
      assert lost == {};
    }
  }

  // ------------------------------------------------------------------- in the end

  /** When every checkout is checked in and a Get reads a time after all expirations, everything made and not lost
      before has been cleaned up. */
  lemma AllIsCleanedUp<K, R>(c: Config, s: State<K, R>, key: K, now: int)
    requires Inv(c, s) && now >= s.clock && s.live == map[] && forall i :: 0 <= i < |s.entries| ==> s.entries[i].expiration < now
    ensures var t := Get(c, s, key, now);
            t.entries == [] && t.expiries == {} && Cleaned(t) == s.made.Keys - Orphans(s, Ids(s.entries))
  {
    var t := Get(c, s, key, now);
    GetKeepsAll(c, s, key, now);
    AllStale(s.entries, now);
    assert Touched(s.entries, key, now, c.refresh) == s.entries;
    assert t.entries == [];
    InvMeans(c, t);
    forall id ensures id !in t.expiries {
      assert Outstanding(t.live, id) == {};
    }
    assert Ids(t.entries) == {};
    CleanedIsMade(t);
  }

  /** So, over every run in which no Checkout creates another resource at an expiration instant, every resource ever
      created. */
  lemma EverythingIsCleanedUp<K, R>(c: Config, start: int, steps: seq<Step<K, R>>, key: K, now: int)
    requires Run(c, Initial(start), steps) && !EverLoses(c, Initial(start), steps)
    requires var s := After(c, Initial(start), steps);
             now >= s.clock && s.live == map[] && forall i :: 0 <= i < |s.entries| ==> s.entries[i].expiration < now
    ensures var s := After(c, Initial(start), steps); Cleaned(Get(c, s, key, now)) == s.made.Keys
  {
    InitialIsSafe<K, R>(c, start);
    RunKeeps(c, Initial(start), steps);
    AllIsCleanedUp(c, After(c, Initial(start), steps), key, now);
  }

  // ------------------------------------------------------------------- what stays behind

  /** The resources and checkouts hold everything made but what an eviction cleaned up; `byCheckin` is what a
      checkin did. */
  ghost predicate Books<K, R>(s: State<K, R>, byCheckin: set<Id>) {
    && byCheckin <= Cleaned(s) && s.resources.Keys == s.made.Keys - (Cleaned(s) - byCheckin)
    && s.checkouts.Keys == s.resources.Keys
  }

  lemma EvictBooks<K, R>(s: State<K, R>, cached: set<Id>, id: Id, b: set<Id>)
    requires Core(s, cached) && (id == 0 || id in cached) && Books(s, b)
    ensures Books(Evict(s, id), b)
  {
    if id != 0 {
      CachedIsTracked(s, cached, id);
      if s.checkouts[id] == 0 {
        CleanedOnce(s, Evict(s, id), id);
      } else {
        assert Cleaned(Evict(s, id)) == Cleaned(s);
      }
    } else {
      assert 0 !in s.checkouts;
    }
  }

  lemma {:induction false} EvictAllBooks<K, R>(s: State<K, R>, cached: set<Id>, evicted: seq<Entry<K, Id>>, b: set<Id>)
    requires Core(s, cached) && DistinctIds(evicted) && Ids(evicted) <= cached && Books(s, b)
    ensures Books(EvictAll(s, evicted), b)
    decreases |evicted|
  {
    if evicted != [] {
      var n := |evicted| - 1;
      hide Core, DistinctIds, Ids, Books;
      LastId(evicted);
      EvictAllBooks(s, cached, evicted[..n], b);
      EvictAllKeeps(s, cached, evicted[..n]);
      EvictBooks(EvictAll(s, evicted[..n]), cached - Ids(evicted[..n]), evicted[n].value, b);
    }
  }

  lemma GetBooks<K, R>(c: Config, s: State<K, R>, key: K, now: int, b: set<Id>)
    requires Inv(c, s) && now >= s.clock && Books(s, b)
    ensures Books(Get(c, s, key, now), b)
  {
    var u := s.(entries := AfterGet(s.entries, key, now, c.refresh), clock := now);
    var touched := Touched(s.entries, key, now, c.refresh);
    TouchedIds(s.entries, key, now, c.refresh);
    SplitIds(touched, Stale(touched, now));
    SameBooks(s, u, Ids(s.entries));
    assert Cleaned(u) == Cleaned(s);
    hide Core, Ids, DistinctIds, WellKept, Touched, Stale;
    EvictAllBooks(u, Ids(s.entries), Evicted(s.entries, key, now, c.refresh), b);
  }

  lemma LendBooks<K, R>(s: State<K, R>, id: Id, handle: Handle, b: set<Id>)
    requires id in s.checkouts && Books(s, b)
    ensures Books(Lend(s, id, handle), b)
  {
    assert Cleaned(Lend(s, id, handle)) == Cleaned(s);
  }

  lemma CreateBooks<K, R>(c: Config, s: State<K, R>, key: K, now: int, id: Id, r: R, handle: Handle, b: set<Id>)
    requires id !in s.made && Cleaned(s) <= s.made.Keys && Books(s, b)
    ensures Books(Create(c, s, key, now, id, r, handle), b)
  {
    hide AfterPut;
    assert Cleaned(Create(c, s, key, now, id, r, handle)) == Cleaned(s);
  }

  lemma CheckoutBooks<K, R>(c: Config, s: State<K, R>, key: K, now: int, outcome: Option<(Id, R)>, handle: Handle, b: set<Id>)
    requires Inv(c, s) && Enabled(s, DoCheckout(key, now, outcome, handle)) && Books(s, b)
    ensures Books(Checkout(c, s, key, now, outcome, handle), b)
  {
    hide Books, Cleaned, Get, Create, CleanLog;
    var id, u := CachedId(s.entries, key, now), Get(c, s, key, now);
    GetBooks(c, s, key, now, b);
    GetKeepsAll(c, s, key, now);
    if id != 0 {
      HitStays(c, s.entries, key, s.clock, now);
      assert id in Ids(u.entries);
      CachedIsTracked(u, Ids(u.entries), id);
      LendBooks(u, id, handle, b);
    } else if outcome.Some? {
      CleanedIsMade(u);
      CreateBooks(c, u, key, now, outcome.value.0, outcome.value.1, handle, b);
    }
  }

  lemma CleanedIsMade<K, R>(s: State<K, R>)
    requires CleanLog(s.cleaned, s.made)
    ensures Cleaned(s) <= s.made.Keys
  {
  }

  lemma InvalidateBooks<K, R>(c: Config, s: State<K, R>, key: K, now: int, b: set<Id>)
    requires Inv(c, s) && now >= s.clock && Books(s, b)
    ensures Books(Invalidate(c, s, key, now), b)
  {
    var id, u := CachedId(s.entries, key, now), Get(c, s, key, now);
    GetBooks(c, s, key, now, b);
    GetKeepsAll(c, s, key, now);
    if id != 0 {
      HitStays(c, s.entries, key, s.clock, now);
      assert id in Ids(u.entries);
      var v := u.(entries := AfterPut(u.entries, key, 0, -1, now));
      SameBooks(u, v, Ids(u.entries));
      assert Cleaned(v) == Cleaned(u);
      EvictBooks(v, Ids(u.entries), id, b);
    }
  }

  lemma CheckinBooks<K, R>(c: Config, s: State<K, R>, handle: Handle, b: set<Id>)
    requires Inv(c, s) && Books(s, b)
    ensures Books(Checkin(s, handle), b + (Cleaned(Checkin(s, handle)) - Cleaned(s)))
  {
    var t := Checkin(s, handle);
    if handle in s.live {
      var id := s.live[handle].0;
      assert Tracked(s, id);
      if t.cleaned != s.cleaned {
        CleanedOnce(s, t, id);
      } else {
        assert Cleaned(t) == Cleaned(s);
      }
    }
  }

  /** What the checkins of a run clean up. */
  ghost function ByCheckins<K, R>(c: Config, s: State<K, R>, steps: seq<Step<K, R>>): set<Id>
    decreases |steps|
  {
    if steps == [] then {}
    else
      var t := Apply(c, s, steps[0]);
      (if steps[0].DoCheckin? then Cleaned(t) - Cleaned(s) else {}) + ByCheckins(c, t, steps[1..])
  }

  lemma {:induction false} RunBooks<K, R>(c: Config, s: State<K, R>, steps: seq<Step<K, R>>, b: set<Id>)
    requires Inv(c, s) && Run(c, s, steps) && Books(s, b)
    ensures Books(After(c, s, steps), b + ByCheckins(c, s, steps))
    decreases |steps|
  {
    hide Inv, Books, Cleaned;
    if steps == [] {
      assert b + {} == b;
    } else {
      var t, step := Apply(c, s, steps[0]), steps[0];
      var more := if step.DoCheckin? then Cleaned(t) - Cleaned(s) else {};
      StepKeeps(c, s, step);
      match step {
        case DoCheckout(key, now, outcome, handle) => CheckoutBooks(c, s, key, now, outcome, handle, b);
        case DoInvalidate(key, now) => InvalidateBooks(c, s, key, now, b);
        case DoCheckin(handle) => CheckinBooks(c, s, handle, b);
      }
      assert !step.DoCheckin? ==> b + more == b;
      RunBooks(c, t, steps[1..], b + more);
      assert b + more + ByCheckins(c, t, steps[1..]) == b + ByCheckins(c, s, steps);
    }
  }

  /** Over every run, what has been cleaned up stays in `resources`, and in `checkouts` with a count of 0, exactly if
      a checkin cleaned it up. */
  lemma CheckinLeavesExactly<K, R>(c: Config, now: int, steps: seq<Step<K, R>>)
    requires Run(c, Initial(now), steps)
    ensures var t, b := After(c, Initial(now), steps), ByCheckins(c, Initial(now), steps);
            && (forall id :: id in Cleaned(t) ==> (id in t.resources <==> id in b) && (id in t.checkouts <==> id in b))
            && (forall id :: id in b ==> id in t.checkouts && t.checkouts[id] == 0)
  {
    InitialIsSafe<K, R>(c, now);
    var s: State<K, R> := Initial(now);
    assert Cleaned(s) == {};
    RunBooks(c, s, steps, {});
    RunKeeps(c, s, steps);
    var t, b := After(c, s, steps), ByCheckins(c, s, steps);
    assert {} + b == b;
    InvMeans(c, t);
    CleanedIsMade(t);
    forall id | id in b ensures id in t.checkouts && t.checkouts[id] == 0 {
      assert id in Cleaned(t) && id in t.resources;
      assert Outstanding(t.live, id) == {};
    }
  }

  lemma InitialIsSafe<K, R>(c: Config, now: int)
    ensures Inv(c, Initial<K, R>(now)) && Orphans(Initial<K, R>(now), {}) == {} && Ids(Initial<K, R>(now).entries) == {}
  {
  }

  /** The lost resource: created at time 1 with ttl 5, looked up at time 6, replaced without being evicted. */
  lemma ExpirationInstantLoses()
    ensures var c, steps := Config(5, true), [DoCheckout('k', 1, Some((1, 'a')), 0), DoCheckout('k', 6, Some((2, 'b')), 1)];
            Run(c, Initial(1), steps) && EverLoses(c, Initial(1), steps)
  {
    var c, s0: State<char, char> := Config(5, true), Initial(1);
    var one, two := DoCheckout('k', 1, Some((1, 'a')), 0), DoCheckout('k', 6, Some((2, 'b')), 1);
    var s1 := Apply(c, s0, one);
    assert s1.entries == [Entry('k', 1, 5, 6)];
    assert Loses(s1, two) && Enabled(s1, two);
    assert [one, two][1..] == [two] && [two][1..] == [];
    assert Run(c, Apply(c, s1, two), []);
    assert Run(c, s1, [two]) && EverLoses(c, s1, [two]);
  }
}

/** The cache itself. */
module ResourceCaches {
  import opened Options
  import opened TtlEntries
  import opened TtlCaches
  import opened ResourceLifecycle

  /** The function a Checkout returns: it runs once. */
  class Lease<R> {
    const id: Id
    const resource: Option<R>
    ghost const handle: Handle
    var done: bool

    constructor (id: Id, resource: Option<R>, ghost handle: Handle)
      ensures this.id == id && this.resource == resource && this.handle == handle && !done
    {
      this.id, this.resource, this.handle, done := id, resource, handle, false;
    }
  }

  class ResourceCache<K(==), R> {
    var resources: map<Id, R>
    var checkouts: map<Id, int>
    var expiries: set<Id>
    const ttl: int
    const ttlcache: Cache<K, Id>
    ghost var made: map<Id, R>
    ghost var cleaned: seq<(Id, Option<R>)>  // the calls of cleanup, each in a goroutine of its own
    ghost var live: map<Handle, (Id, Option<R>)>
    ghost var clock: int

    ghost predicate Valid()
      reads this, ttlcache, ttlcache.ring
    {
      ttlcache.Valid() && ttlcache.zero == 0
    }

    ghost function View(): State<K, R>
      reads this, ttlcache
    {
      State(ttlcache.entries, resources, checkouts, expiries, made, cleaned, live, clock)
    }

    ghost function Settings(): Config
      reads this, ttlcache
    {
      Config(ttl, ttlcache.refreshTTL)
    }

    constructor (ttl: int, refresh: bool, blank: K, ghost now: int)
      ensures Valid() && View() == Initial(now) && Settings() == Config(ttl, refresh)
    {
      this.ttl := ttl;
      ttlcache := new Cache<K, Id>(refresh, blank, 0);
      resources, checkouts, expiries := map[], map[], {};
      made, cleaned, live, clock := map[], [], map[], now;
    }

    method OnEvicted(id: Id)
      requires Valid()
      modifies this
      ensures Valid() && View() == Evict(old(View()), id)
    {
      if id !in checkouts {
        return;
      }
      if checkouts[id] == 0 {
        cleaned := cleaned + [(id, Resource(View(), id))];
        resources := resources - {id};
        checkouts := checkouts - {id};
      } else {
        expiries := expiries + {id};
      }
    }

    /** The callbacks of one Get, in order. */
    method EvictEach(evicted: seq<(K, Id)>, ghost out: seq<Entry<K, Id>>)
      requires Valid() && evicted == Pairs(out)
      modifies this
      ensures Valid() && View() == EvictAll(old(View()), out)
    {
      hide Cache.Valid, Evict;
      ghost var base := View();
      for i := 0 to |evicted|
        invariant Valid() && View() == EvictAll(base, out[..i])
        modifies this
      {
        assert out[..i + 1][..i] == out[..i];
        OnEvicted(evicted[i].1);
      }
      assert out[..|out|] == out;
    }

    /** The TTL cache's Get with its callbacks. */
    method Look(key: K, now: int) returns (id: Id)
      requires Valid() && (Hit(ttlcache.entries, key, now) && ttlcache.refreshTTL ==> now + ttlcache.entries[Find(ttlcache.entries, key)].ttl >= 0)
      modifies this, ttlcache, ttlcache.ring
      ensures Valid() && forall i :: 0 <= i < |ttlcache.ring| ==> ttlcache.ring[i] in old(ttlcache.ring)
      ensures id == CachedId(old(ttlcache.entries), key, now)
      ensures View() == Get(Settings(), old(View()), key, now)
    {
      hide Cache.Valid, AfterGet, Evicted, Pairs, EvictAll;
      ghost var es := ttlcache.entries;
      clock := now;
      var evicted;
      id, evicted := ttlcache.Get(key, now);
      EvictEach(evicted, Evicted(es, key, now, ttlcache.refreshTTL));
    }

    /** The clock is far enough from the zero time for the expiration a refresh of the key may set. */
    ghost predicate Timely(key: K, now: int)
      reads this, ttlcache
    {
      Hit(ttlcache.entries, key, now) ==> now + ttlcache.entries[Find(ttlcache.entries, key)].ttl >= 0
    }

    method Lend(id: Id, ghost handle: Handle) returns (lease: Lease<R>)
      requires Valid()
      modifies this
      ensures Valid() && View() == ResourceLifecycle.Lend(old(View()), id, handle)
      ensures fresh(lease) && !lease.done && lease.id == id && lease.handle == handle
      ensures lease.resource == (if id in resources then Some(resources[id]) else None)
    {
      var r: Option<R> := if id in resources then Some(resources[id]) else None;
      lease := new Lease<R>(id, r, handle);
      checkouts := checkouts[id := (if id in checkouts then checkouts[id] else 0) + 1];
      live := live[handle := (id, r)];
    }

    /** Checkout; null stands for the error of the caller's function. */
    method Checkout(key: K, now: int, outcome: Option<(Id, R)>, ghost handle: Handle) returns (lease: Lease?<R>)
      requires Valid() && Timely(key, now)
      requires CachedId(ttlcache.entries, key, now) == 0 && outcome.Some? ==> now + ttl >= 0
      modifies this, ttlcache, ttlcache.ring
      ensures Valid() && View() == ResourceLifecycle.Checkout(Settings(), old(View()), key, now, outcome, handle)
      ensures lease == null <==> CachedId(old(ttlcache.entries), key, now) == 0 && outcome.None?
      ensures lease != null ==> !lease.done && lease.handle == handle && live[handle] == (lease.id, lease.resource)
    {
      hide Cache.Valid, Get, AfterPut, CachedId;
      var id := Look(key, now);
      if id != 0 {
        lease := Lend(id, handle);
      } else if outcome.None? {
        lease := null;
      } else {
        id := outcome.value.0;
        resources, made := resources[id := outcome.value.1], made[id := outcome.value.1];
        ttlcache.Put(key, id, ttl, now);
        lease := Lend(id, handle);
      }
    }

    method Invalidate(key: K, now: int)
      requires Valid() && Timely(key, now) && (CachedId(ttlcache.entries, key, now) != 0 ==> now >= 1)
      modifies this, ttlcache, ttlcache.ring
      ensures Valid() && View() == ResourceLifecycle.Invalidate(Settings(), old(View()), key, now)
    {
      hide Cache.Valid, Get, AfterPut, CachedId, Evict;
      var id := Look(key, now);
      if id != 0 {
        ttlcache.Put(key, 0, -1, now);
        OnEvicted(id);
      }
    }

    /** A call of the function a Checkout of this cache returned. */
    method Checkin(lease: Lease<R>)
      requires Valid()
      requires if lease.done then lease.handle !in live else lease.handle in live && live[lease.handle] == (lease.id, lease.resource)
      modifies this, lease
      ensures Valid() && lease.done && View() == ResourceLifecycle.Checkin(old(View()), lease.handle)
    {
      if lease.done {
        return;
      }
      lease.done := true;
      var id := lease.id;
      live := live - {lease.handle};
      checkouts := checkouts[id := (if id in checkouts then checkouts[id] else 0) - 1];
      if id in expiries && checkouts[id] == 0 {
        expiries := expiries - {id};
        cleaned := cleaned + [(id, lease.resource)];
      }
    }
  }
}
