/** The event filter of etcdwatcher/etcdwatcher.go. What etcd answers (a snapshot, watch responses, the answers of the
    gate's transactions) is given; what the watcher sends is computed. */
module EtcdWatcher {
  import opened Options

  type Error = nat

  datatype Result<+T> = Ok(value: T) | Err(error: Error)

  datatype Kind = Put | Delete

  /** A key as etcd tells it, in a snapshot or in an event. */
  datatype Raw<V> = Raw(key: string, kind: Kind, value: V, revision: int, version: int)

  /** An event of the watcher; a deletion has no value. */
  datatype Event<T> = Event(key: string, kind: Kind, value: Option<T>, revision: int, version: int)

  /** What the gate's transaction for a put answers: no conditions to ask about, an error, conditions not met, the
      key gone, or the key as it is now. */
  datatype Gate<V> = Unconditional | Failing(error: Error) | Refused | Gone | Found(raw: Raw<V>)

  datatype Arrival<V> = Arrival(raw: Raw<V>, gate: Gate<V>)

  /** A response of the watch channel. */
  datatype Response<V> = Broken(error: Error) | Batch(arrivals: seq<Arrival<V>>)

  datatype Types = PutsOnly | DeletesOnly | AllTypes
  datatype Mode = AllMode | OnceMode | NoneMode

  /** gated tells whether there is a gate. */
  datatype Config<!V, !T> = Config(types: Types, mode: Mode, filter: Option<Event<T> -> bool>, gated: bool, decode: V -> Result<T>)

  /** What becomes of an event. */
  datatype Verdict<T> = Skip | Emit(event: Event<T>) | Fail(error: Error)

  /** What the watcher sends. */
  datatype Item<T> = Sent(event: Event<T>) | Broke(error: Error)

  predicate Passes<V, T>(c: Config<V, T>, event: Event<T>) {
    c.filter.Some? ==> c.filter.value(event)
  }

  /** applyTxnGate. */
  function ApplyGate<V, T>(c: Config<V, T>, event: Event<T>, gate: Gate<V>): Verdict<T> {
    match gate
    case Unconditional => Emit(event)
    case Failing(e) => Fail(e)
    case Refused => Skip
    case Gone => Skip
    case Found(raw) =>
      match c.decode(raw.value)
      case Err(e) => Fail(e)
      case Ok(value) =>
        var now := Event(raw.key, Put, Some(value), raw.revision, raw.version);
        if Passes(c, now) then Emit(now) else Skip
  }

  /** A put, from the snapshot or the watch. */
  function ExaminePut<V, T>(c: Config<V, T>, a: Arrival<V>): Verdict<T> {
    match c.decode(a.raw.value)
    case Err(e) => Fail(e)
    case Ok(value) =>
      var event := Event(a.raw.key, Put, Some(value), a.raw.revision, a.raw.version);
      if !Passes(c, event) then Skip else if c.gated then ApplyGate(c, event, a.gate) else Emit(event)
  }

  predicate Wanted(types: Types, kind: Kind) {
    match types
    case PutsOnly => kind.Put?
    case DeletesOnly => kind.Delete?
    case AllTypes => true
  }

  function Examine<V, T>(c: Config<V, T>, a: Arrival<V>): Verdict<T> {
    if !Wanted(c.types, a.raw.kind) then Skip
    else if a.raw.kind.Put? then ExaminePut(c, a)
    else
      var event := Event(a.raw.key, Delete, None, a.raw.revision, a.raw.version);
      if Passes(c, event) then Emit(event) else Skip
  }

  // ---------------------------------------------------------------- specification

  /** The events of a snapshot, up to the first failure. */
  function Loaded<V, T>(c: Config<V, T>, kvs: seq<Arrival<V>>): Result<seq<Event<T>>> {
    if kvs == [] || c.types.DeletesOnly? then Ok([])
    else
      match Loaded(c, kvs[..|kvs| - 1])
      case Err(e) => Err(e)
      case Ok(events) =>
        match ExaminePut(c, kvs[|kvs| - 1])
        case Skip => Ok(events)
        case Emit(event) => Ok(events + [event])
        case Fail(e) => Err(e)
  }

  /** What a watch has sent, the keys it remembers in once mode, and whether it is over. */
  datatype Progress<T> = Progress(items: seq<Item<T>>, seen: set<string>, over: bool)

  function Next<V, T>(c: Config<V, T>, p: Progress<T>, a: Arrival<V>): Progress<T> {
    match Examine(c, a)
    case Skip => p
    case Fail(e) => p.(items := p.items + [Broke(e)], over := true)
    case Emit(event) =>
      if !c.mode.OnceMode? then p.(items := p.items + [Sent(event)])
      else if event.key in p.seen then p
      else p.(items := p.items + [Sent(event)], seen := p.seen + {event.key})
  }

  function Batched<V, T>(c: Config<V, T>, p: Progress<T>, arrivals: seq<Arrival<V>>): Progress<T> {
    if arrivals == [] then p
    else
      var q := Batched(c, p, arrivals[..|arrivals| - 1]);
      if q.over then q else Next(c, q, arrivals[|arrivals| - 1])
  }

  function Watched<V, T>(c: Config<V, T>, p: Progress<T>, responses: seq<Response<V>>): Progress<T> {
    if responses == [] then p
    else
      var q := Watched(c, p, responses[..|responses| - 1]);
      if q.over then q
      else match responses[|responses| - 1]
        case Broken(e) => q.(items := q.items + [Broke(e)], over := true)
        case Batch(arrivals) => Batched(c, q, arrivals)
  }

  function EventKeys<T>(events: seq<Event<T>>): set<string> {
    set i | 0 <= i < |events| :: events[i].key
  }

  function Items<T>(events: seq<Event<T>>): seq<Item<T>> {
    seq(|events|, i requires 0 <= i < |events| => Sent(events[i]))
  }

  /** Before the first response; in once mode the snapshot's keys count as sent. */
  function Start<V, T>(c: Config<V, T>, initial: seq<Event<T>>): Progress<T> {
    Progress([], if c.mode.OnceMode? then EventKeys(initial) else {}, false)
  }

  /** Everything Watch sends: the snapshot, then the changes. */
  function Output<V, T>(c: Config<V, T>, kvs: seq<Arrival<V>>, responses: seq<Response<V>>): seq<Item<T>> {
    match Loaded(c, kvs)
    case Err(e) => [Broke(e)]
    case Ok(events) =>
      if c.mode.NoneMode? then Items(events)
      else Items(events) + Watched(c, Start(c, events), responses).items
  }

  // ---------------------------------------------------------------- the functions of the package

  /** loadInitialData; `got` is what the client's Get returns. */
  method LoadInitialData<V, T>(c: Config<V, T>, got: Result<seq<Arrival<V>>>) returns (r: Result<seq<Event<T>>>)
    ensures r == if got.Err? then Err(got.error) else Loaded(c, got.value)
  {
    if got.Err? {
      return Err(got.error);
    }
    var kvs := got.value;
    var events: seq<Event<T>> := [];
    if c.types.DeletesOnly? {
      return Ok(events);
    }
    for i := 0 to |kvs|
      invariant Loaded(c, kvs[..i]) == Ok(events)
    {
      assert kvs[..i + 1][..i] == kvs[..i];
      match ExaminePut(c, kvs[i]) {
        case Skip => continue;
        case Fail(e) =>
          LoadFails(c, kvs, i + 1);
          return Err(e);
        case Emit(event) => events := events + [event];
      }
    }
    assert kvs[..|kvs|] == kvs;
    return Ok(events);
  }

  lemma {:induction false} LoadFails<V, T>(c: Config<V, T>, kvs: seq<Arrival<V>>, k: nat)
    requires k <= |kvs| && Loaded(c, kvs[..k]).Err?
    ensures Loaded(c, kvs) == Loaded(c, kvs[..k])
  {
    if k == |kvs| {
      assert kvs[..k] == kvs;
    } else {
      assert kvs[..|kvs| - 1][..k] == kvs[..k];
      LoadFails(c, kvs[..|kvs| - 1], k);
    }
  }

  lemma {:induction false} BatchOver<V, T>(c: Config<V, T>, p: Progress<T>, arrivals: seq<Arrival<V>>, k: nat)
    requires k <= |arrivals| && Batched(c, p, arrivals[..k]).over
    ensures Batched(c, p, arrivals) == Batched(c, p, arrivals[..k])
  {
    if k == |arrivals| {
      assert arrivals[..k] == arrivals;
    } else {
      assert arrivals[..|arrivals| - 1][..k] == arrivals[..k];
      BatchOver(c, p, arrivals[..|arrivals| - 1], k);
    }
  }

  lemma {:induction false} WatchOver<V, T>(c: Config<V, T>, p: Progress<T>, responses: seq<Response<V>>, k: nat)
    requires k <= |responses| && Watched(c, p, responses[..k]).over
    ensures Watched(c, p, responses) == Watched(c, p, responses[..k])
  {
    if k == |responses| {
      assert responses[..k] == responses;
    } else {
      assert responses[..|responses| - 1][..k] == responses[..k];
      WatchOver(c, p, responses[..|responses| - 1], k);
    }
  }

  /** watch. */
  method WatchChanges<V, T>(c: Config<V, T>, initial: seq<Event<T>>, responses: seq<Response<V>>) returns (sent: seq<Item<T>>)
    ensures sent == Watched(c, Start(c, initial), responses).items
  {
    hide Examine;
    sent := [];
    var emitted: set<string> := {};
    if c.mode.OnceMode? {
      for i := 0 to |initial|
        invariant emitted == EventKeys(initial[..i])
      {
        emitted := emitted + {initial[i].key};
        assert initial[..i + 1] == initial[..i] + [initial[i]];
      }
      assert initial[..|initial|] == initial;
    }
    ghost var start := Progress(sent, emitted, false);
    for i := 0 to |responses|
      invariant Watched(c, start, responses[..i]) == Progress(sent, emitted, false)
    {
      assert responses[..i + 1][..i] == responses[..i];
      ghost var p := Progress(sent, emitted, false);
      if responses[i].Broken? {
        sent := sent + [Broke(responses[i].error)];
        WatchOver(c, start, responses, i + 1);
        return;
      }
      var arrivals := responses[i].arrivals;
      for j := 0 to |arrivals|
        invariant Batched(c, p, arrivals[..j]) == Progress(sent, emitted, false)
      {
        assert arrivals[..j + 1][..j] == arrivals[..j];
        match Examine(c, arrivals[j]) {
          case Skip => continue;
          case Fail(e) =>
            sent := sent + [Broke(e)];
            BatchOver(c, p, arrivals, j + 1);
            WatchOver(c, start, responses, i + 1);
            return;
          case Emit(event) =>
            if c.mode.OnceMode? {
              if event.key in emitted {
                continue;
              }
              emitted := emitted + {event.key};
            }
            sent := sent + [Sent(event)];
        }
      }
      assert arrivals[..|arrivals|] == arrivals;
    }
    assert responses[..|responses|] == responses;
  }

  /** Watch, whose goroutine sends the snapshot and then the changes. */
  method Watch<V, T>(c: Config<V, T>, got: Result<seq<Arrival<V>>>, responses: seq<Response<V>>) returns (sent: seq<Item<T>>)
    ensures sent == if got.Err? then [Broke(got.error)] else Output(c, got.value, responses)
  {
    var loaded := LoadInitialData(c, got);
    match loaded {
      case Err(e) => return [Broke(e)];
      case Ok(events) =>
        sent := [];
        for i := 0 to |events|
          invariant sent == Items(events[..i])
        {
          sent := sent + [Sent(events[i])];
        }
        assert events[..|events|] == events;
        if !c.mode.NoneMode? {
          var rest := WatchChanges(c, events, responses);
          sent := sent + rest;
        }
    }
  }

  // ---------------------------------------------------------------- what is sent passes

  /** The event is of a type asked for and passes the filter, if there is one. */
  predicate Asked<V, T>(c: Config<V, T>, event: Event<T>) {
    && !(c.types.PutsOnly? && event.kind.Delete?) && !(c.types.DeletesOnly? && event.kind.Put?)
    && (c.filter == None || c.filter.value(event))
  }

  /** Every event among the items is asked for. */
  predicate AllPass<V, T>(c: Config<V, T>, items: seq<Item<T>>) {
    forall i :: 0 <= i < |items| && items[i].Sent? ==> Asked(c, items[i].event)
  }

  lemma {:induction false} LoadedPass<V, T>(c: Config<V, T>, kvs: seq<Arrival<V>>)
    ensures Loaded(c, kvs).Ok? ==> AllPass(c, Items(Loaded(c, kvs).value))
  {
    if kvs != [] && !c.types.DeletesOnly? {
      var n := |kvs| - 1;
      LoadedPass(c, kvs[..n]);
      if Loaded(c, kvs).Ok? {
        var before, verdict := Loaded(c, kvs[..n]).value, ExaminePut(c, kvs[n]);
        assert Items(Loaded(c, kvs).value) == Items(before) + if verdict.Emit? then [Sent(verdict.event)] else [];
      }
    }
  }

  lemma {:induction false} BatchPasses<V, T>(c: Config<V, T>, p: Progress<T>, arrivals: seq<Arrival<V>>)
    requires AllPass(c, p.items)
    ensures AllPass(c, Batched(c, p, arrivals).items)
  {
    if arrivals != [] {
      BatchPasses(c, p, arrivals[..|arrivals| - 1]);
    }
  }

  lemma {:induction false} WatchPasses<V, T>(c: Config<V, T>, p: Progress<T>, responses: seq<Response<V>>)
    requires AllPass(c, p.items)
    ensures AllPass(c, Watched(c, p, responses).items)
  {
    if responses != [] {
      var n := |responses| - 1;
      WatchPasses(c, p, responses[..n]);
      if responses[n].Batch? {
        BatchPasses(c, Watched(c, p, responses[..n]), responses[n].arrivals);
      }
    }
  }

  /** Whatever mode, gate and answers, every event sent passes the filter and is of a type asked for, also when the
      gate has put the key's present value in the place of the event's. */
  lemma EverythingSentPasses<V, T>(c: Config<V, T>, kvs: seq<Arrival<V>>, responses: seq<Response<V>>)
    ensures AllPass(c, Output(c, kvs, responses))
  {
    LoadedPass(c, kvs);
    if Loaded(c, kvs).Ok? {
      WatchPasses(c, Start(c, Loaded(c, kvs).value), responses);
    }
  }

  // ---------------------------------------------------------------- once mode against all mode

  function ItemKeys<T>(items: seq<Item<T>>): set<string> {
    set i | 0 <= i < |items| && items[i].Sent? :: items[i].event.key
  }

  /** The items less every event whose key is among those seen or came before. */
  function FirstPerKey<T>(items: seq<Item<T>>, seen: set<string>): (r: seq<Item<T>>)
    ensures |r| <= |items|
  {
    if items == [] then []
    else
      var n := |items| - 1;
      var first := FirstPerKey(items[..n], seen);
      if items[n].Sent? && items[n].event.key in seen + ItemKeys(items[..n]) then first else first + [items[n]]
  }

  /** No key has two events. */
  predicate NoKeyTwice<T>(items: seq<Item<T>>) {
    forall i, j :: 0 <= i < j < |items| && items[i].Sent? && items[j].Sent? ==> items[i].event.key != items[j].event.key
  }

  lemma KeysAppend<T>(items: seq<Item<T>>, item: Item<T>)
    ensures ItemKeys(items + [item]) == ItemKeys(items) + if item.Sent? then {item.event.key} else {}
  {
    var all := items + [item];
    assert all[|items|] == item;
    forall i | 0 <= i < |items| ensures all[i] == items[i] {}
    forall k | k in ItemKeys(items) ensures k in ItemKeys(all) {
      var i :| 0 <= i < |items| && items[i].Sent? && items[i].event.key == k;
      assert all[i].event.key == k;
    }
  }

  lemma FirstAppend<T>(items: seq<Item<T>>, item: Item<T>, seen: set<string>)
    ensures FirstPerKey(items + [item], seen) ==
            FirstPerKey(items, seen) + if item.Sent? && item.event.key in seen + ItemKeys(items) then [] else [item]
  {
    assert (items + [item])[..|items|] == items;
  }

  /** Two watches side by side, one in once mode: it has sent the first events of the other. */
  predicate InStep<T(==)>(once: Progress<T>, all: Progress<T>, seen: set<string>) {
    once.items == FirstPerKey(all.items, seen) && once.seen == seen + ItemKeys(all.items) && once.over == all.over
  }

  function InMode<V, T>(c: Config<V, T>, mode: Mode): Config<V, T> {
    c.(mode := mode)
  }

  lemma FailInStep<T>(once: Progress<T>, all: Progress<T>, e: Error, seen: set<string>)
    requires InStep(once, all, seen)
    ensures InStep(once.(items := once.items + [Broke(e)], over := true), all.(items := all.items + [Broke(e)], over := true), seen)
  {
    KeysAppend(all.items, Broke(e));
    FirstAppend(all.items, Broke(e), seen);
  }

  lemma EmitInStep<T>(once: Progress<T>, all: Progress<T>, event: Event<T>, seen: set<string>)
    requires InStep(once, all, seen)
    ensures var more := all.(items := all.items + [Sent(event)]);
            if event.key in once.seen then InStep(once, more, seen)
            else InStep(once.(items := once.items + [Sent(event)], seen := once.seen + {event.key}), more, seen)
  {
    KeysAppend(all.items, Sent(event));
    FirstAppend(all.items, Sent(event), seen);
  }

  lemma NextInStep<V, T>(c: Config<V, T>, once: Progress<T>, all: Progress<T>, a: Arrival<V>, seen: set<string>)
    requires InStep(once, all, seen)
    ensures InStep(Next(InMode(c, OnceMode), once, a), Next(InMode(c, AllMode), all, a), seen)
  {
    var verdict := Examine(c, a);
    assert Examine(InMode(c, OnceMode), a) == verdict == Examine(InMode(c, AllMode), a);
    hide Examine, InStep;
    match verdict
    case Skip =>
    case Fail(e) => FailInStep(once, all, e, seen);
    case Emit(event) => EmitInStep(once, all, event, seen);
  }

  lemma {:induction false} BatchInStep<V, T>(c: Config<V, T>, once: Progress<T>, all: Progress<T>, arrivals: seq<Arrival<V>>, seen: set<string>)
    requires InStep(once, all, seen)
    ensures InStep(Batched(InMode(c, OnceMode), once, arrivals), Batched(InMode(c, AllMode), all, arrivals), seen)
  {
    if arrivals != [] {
      var n := |arrivals| - 1;
      BatchInStep(c, once, all, arrivals[..n], seen);
      NextInStep(c, Batched(InMode(c, OnceMode), once, arrivals[..n]), Batched(InMode(c, AllMode), all, arrivals[..n]), arrivals[n], seen);
    }
  }

  lemma {:induction false} WatchInStep<V, T>(c: Config<V, T>, once: Progress<T>, all: Progress<T>, responses: seq<Response<V>>, seen: set<string>)
    requires InStep(once, all, seen)
    ensures InStep(Watched(InMode(c, OnceMode), once, responses), Watched(InMode(c, AllMode), all, responses), seen)
  {
    if responses != [] {
      var n := |responses| - 1;
      WatchInStep(c, once, all, responses[..n], seen);
      var p, q := Watched(InMode(c, OnceMode), once, responses[..n]), Watched(InMode(c, AllMode), all, responses[..n]);
      match responses[n]
      case Broken(e) =>
        KeysAppend(q.items, Broke(e));
        FirstAppend(q.items, Broke(e), seen);
      case Batch(arrivals) => BatchInStep(c, p, q, arrivals, seen);
    }
  }

  lemma {:induction false} LoadedInAnyMode<V, T>(c: Config<V, T>, mode: Mode, kvs: seq<Arrival<V>>)
    ensures Loaded(InMode(c, mode), kvs) == Loaded(c, kvs)
  {
    if kvs != [] && !c.types.DeletesOnly? {
      LoadedInAnyMode(c, mode, kvs[..|kvs| - 1]);
      assert ExaminePut(InMode(c, mode), kvs[|kvs| - 1]) == ExaminePut(c, kvs[|kvs| - 1]);
    }
  }

  lemma {:induction false} FirstConcat<T>(a: seq<Item<T>>, b: seq<Item<T>>, seen: set<string>)
    ensures FirstPerKey(a + b, seen) == FirstPerKey(a, seen) + FirstPerKey(b, seen + ItemKeys(a))
    ensures ItemKeys(a + b) == ItemKeys(a) + ItemKeys(b)
  {
    if b == [] {
      assert a + b == a;
    } else {
      hide FirstPerKey, ItemKeys;
      var n := |b| - 1;
      FirstConcat(a, b[..n], seen);
      assert a + b == (a + b[..n]) + [b[n]] && b == b[..n] + [b[n]];
      FirstAppend(a + b[..n], b[n], seen);
      FirstAppend(b[..n], b[n], seen + ItemKeys(a));
      KeysAppend(a + b[..n], b[n]);
      KeysAppend(b[..n], b[n]);
    }
  }

  lemma TwiceAppend<T>(items: seq<Item<T>>, item: Item<T>)
    ensures NoKeyTwice(items + [item]) <==> NoKeyTwice(items) && !(item.Sent? && item.event.key in ItemKeys(items))
  {
    var all := items + [item];
    assert forall i :: 0 <= i < |items| ==> all[i] == items[i];
    if NoKeyTwice(items) && item.Sent? && item.event.key in ItemKeys(items) {
      var i :| 0 <= i < |items| && items[i].Sent? && items[i].event.key == item.event.key;
      assert all[i].event.key == all[|items|].event.key;
    } else if NoKeyTwice(items) {
      forall i | 0 <= i < |items| && items[i].Sent? && item.Sent? ensures items[i].event.key != item.event.key {
        assert items[i].event.key in ItemKeys(items);
      }
    } else {
      var i, j :| 0 <= i < j < |items| && items[i].Sent? && items[j].Sent? && items[i].event.key == items[j].event.key;
      assert all[i].event.key == all[j].event.key;
    }
  }

  lemma {:induction false} FirstKeepsAll<T>(items: seq<Item<T>>)
    ensures |FirstPerKey(items, {})| == |items| <==> NoKeyTwice(items)
    ensures NoKeyTwice(items) ==> FirstPerKey(items, {}) == items
  {
    if items != [] {
      var n := |items| - 1;
      FirstKeepsAll(items[..n]);
      TwiceAppend(items[..n], items[n]);
      hide NoKeyTwice, ItemKeys;
      assert items[..n] + [items[n]] == items && {} + ItemKeys(items[..n]) == ItemKeys(items[..n]);
    }
  }

  lemma {:induction false} FirstHasNoKeyTwice<T>(items: seq<Item<T>>, seen: set<string>)
    ensures NoKeyTwice(FirstPerKey(items, seen))
    ensures ItemKeys(FirstPerKey(items, seen)) == ItemKeys(items) - seen
  {
    if items != [] {
      var n := |items| - 1;
      FirstHasNoKeyTwice(items[..n], seen);
      var first := FirstPerKey(items[..n], seen);
      assert items == items[..n] + [items[n]];
      KeysAppend(items[..n], items[n]);
      if !(items[n].Sent? && items[n].event.key in seen + ItemKeys(items[..n])) {
        KeysAppend(first, items[n]);
        forall i | 0 <= i < |first| && first[i].Sent? && items[n].Sent? ensures first[i].event.key != items[n].event.key {
          assert first[i].event.key in ItemKeys(first);
        }
      }
    }
  }

  lemma ItemsHaveKeys<T>(events: seq<Event<T>>)
    ensures ItemKeys(Items(events)) == EventKeys(events)
  {
    forall k | k in EventKeys(events) ensures k in ItemKeys(Items(events)) {
      var i :| 0 <= i < |events| && events[i].key == k;
      assert Items(events)[i].event.key == k;
    }
  }

  /** On the same snapshot, responses and answers, once mode sends what all mode sends less the later events of each
      key, and so no key twice, exactly when the events of the snapshot have different keys. */
  lemma OnceIsFirstOfAll<V, T>(c: Config<V, T>, kvs: seq<Arrival<V>>, responses: seq<Response<V>>)
    ensures var once, all := Output(InMode(c, OnceMode), kvs, responses), Output(InMode(c, AllMode), kvs, responses);
            var distinct := Loaded(c, kvs).Ok? ==> NoKeyTwice(Items(Loaded(c, kvs).value));
            (once == FirstPerKey(all, {}) <==> distinct) && (NoKeyTwice(once) <==> distinct)
  {
    LoadedInAnyMode(c, OnceMode, kvs);
    LoadedInAnyMode(c, AllMode, kvs);
    match Loaded(c, kvs)
    case Err(e) => FirstKeepsAll([Item<T>.Broke(e)]);
    case Ok(events) =>
      OnceOfLoaded(c, events, responses);
  }

  lemma OnceOfLoaded<V, T>(c: Config<V, T>, events: seq<Event<T>>, responses: seq<Response<V>>)
    ensures var load, once, all := Items(events), InMode(c, OnceMode), InMode(c, AllMode);
            var p, q := load + Watched(once, Start(once, events), responses).items, load + Watched(all, Start(all, events), responses).items;
            (p == FirstPerKey(q, {}) <==> NoKeyTwice(load)) && (NoKeyTwice(p) <==> NoKeyTwice(load))
  {
    var once, all := InMode(c, OnceMode), InMode(c, AllMode);
    ItemsHaveKeys(events);
    WatchInStep(c, Start(once, events), Start(all, events), responses, EventKeys(events));
    ConcatFirst(Items(events), Watched(all, Start(all, events), responses).items);
  }

  lemma TwiceInPrefix<T>(a: seq<Item<T>>, b: seq<Item<T>>)
    requires NoKeyTwice(a + b)
    ensures NoKeyTwice(a)
  {
    forall i, j | 0 <= i < j < |a| && a[i].Sent? && a[j].Sent? ensures a[i].event.key != a[j].event.key {
      assert (a + b)[i] == a[i] && (a + b)[j] == a[j];
    }
  }

  lemma ConcatFirst<T>(load: seq<Item<T>>, more: seq<Item<T>>)
    ensures var p := load + FirstPerKey(more, ItemKeys(load));
            (p == FirstPerKey(load + more, {}) <==> NoKeyTwice(load)) && (NoKeyTwice(p) <==> NoKeyTwice(load))
  {
    hide FirstPerKey, ItemKeys, NoKeyTwice;
    var rest := FirstPerKey(more, ItemKeys(load));
    FirstConcat(load, more, {});
    assert {} + ItemKeys(load) == ItemKeys(load);
    FirstKeepsAll(load);
    FirstHasNoKeyTwice(load + more, {});
    assert load + rest == FirstPerKey(load + more, {}) ==> |load| == |FirstPerKey(load, {})|;
    if NoKeyTwice(load + rest) {
      TwiceInPrefix(load, rest);
    }
  }

  /** As the keys of a snapshot do, if the gate answers about the key it is asked about. */
  lemma {:induction false} SnapshotKeysDiffer<V, T>(c: Config<V, T>, kvs: seq<Arrival<V>>)
    requires forall i, j :: 0 <= i < j < |kvs| ==> kvs[i].raw.key != kvs[j].raw.key
    requires forall i :: 0 <= i < |kvs| && kvs[i].gate.Found? ==> kvs[i].gate.raw.key == kvs[i].raw.key
    ensures Loaded(c, kvs).Ok? ==> NoKeyTwice(Items(Loaded(c, kvs).value))
    ensures Loaded(c, kvs).Ok? ==> forall e :: 0 <= e < |Loaded(c, kvs).value| ==>
              exists i :: 0 <= i < |kvs| && kvs[i].raw.key == Loaded(c, kvs).value[e].key
  {
    if kvs != [] && !c.types.DeletesOnly? && Loaded(c, kvs).Ok? {
      var n := |kvs| - 1;
      SnapshotKeysDiffer(c, kvs[..n]);
      var before, after := Loaded(c, kvs[..n]).value, Loaded(c, kvs).value;
      forall e | 0 <= e < |before| ensures exists i :: 0 <= i < n && kvs[i].raw.key == before[e].key {
        var i :| 0 <= i < n && kvs[..n][i].raw.key == before[e].key;
        assert kvs[i].raw.key == before[e].key;
      }
      if ExaminePut(c, kvs[n]).Emit? {
        assert after[|before|].key == kvs[n].raw.key;
        forall i, j | 0 <= i < j < |after| ensures Items(after)[i].event.key != Items(after)[j].event.key {
          if j < |before| {
            assert Items(before)[i].event.key != Items(before)[j].event.key;
          }
        }
      }
    }
  }

  // ---------------------------------------------------------------- the store and its changes

  /** What etcd has for a key. */
  datatype Stored<V> = Stored(value: V, revision: int, version: int)

  /** A put of a value, or a deletion. */
  datatype Change<V> = Change(key: string, put: Option<V>, revision: int)

  type Store<V> = map<string, Stored<V>>

  function Version<V>(store: Store<V>, key: string): int {
    if key in store then store[key].version else 0
  }

  function Commit<V>(store: Store<V>, ch: Change<V>): Store<V> {
    match ch.put
    case Some(v) => store[ch.key := Stored(v, ch.revision, Version(store, ch.key) + 1)]
    case None => store - {ch.key}
  }

  function CommitAll<V>(store: Store<V>, changes: seq<Change<V>>): Store<V> {
    if changes == [] then store else Commit(CommitAll(store, changes[..|changes| - 1]), changes[|changes| - 1])
  }

  /** The event etcd tells of a change; blank is what it has for the value of a deletion. */
  function Notice<V>(store: Store<V>, ch: Change<V>, blank: V): Arrival<V> {
    match ch.put
    case Some(v) => Arrival(Raw(ch.key, Put, v, ch.revision, Version(store, ch.key) + 1), Unconditional)
    case None => Arrival(Raw(ch.key, Delete, blank, ch.revision, 0), Unconditional)
  }

  function Notices<V>(store: Store<V>, changes: seq<Change<V>>, blank: V): (told: seq<Arrival<V>>)
    ensures |told| == |changes|
  {
    seq(|changes|, i requires 0 <= i < |changes| => Notice(CommitAll(store, changes[..i]), changes[i], blank))
  }

  /** A snapshot: each key of the store once. */
  ghost predicate Lists<V>(kvs: seq<Arrival<V>>, store: Store<V>) {
    && (forall i :: 0 <= i < |kvs| ==> kvs[i].raw.key in store && kvs[i].raw.kind == Put
                                       && store[kvs[i].raw.key] == Stored(kvs[i].raw.value, kvs[i].raw.revision, kvs[i].raw.version))
    && (forall i, j :: 0 <= i < j < |kvs| ==> kvs[i].raw.key != kvs[j].raw.key)
    && (forall k :: k in store ==> exists i :: 0 <= i < |kvs| && kvs[i].raw.key == k)
  }

  /** All events of the responses, none of which is an error. */
  function Flat<V>(responses: seq<Response<V>>): seq<Arrival<V>>
    requires forall i :: 0 <= i < |responses| ==> responses[i].Batch?
  {
    if responses == [] then [] else Flat(responses[..|responses| - 1]) + responses[|responses| - 1].arrivals
  }

  function Value<V, T>(c: Config<V, T>, v: V): Option<T> {
    match c.decode(v) case Ok(t) => Some(t) case Err(_) => None
  }

  /** The store as a client that decodes it sees it. */
  function Decoded<V, T>(c: Config<V, T>, store: Store<V>): Store<Option<T>> {
    map k | k in store :: Stored(Value(c, store[k].value), store[k].revision, store[k].version)
  }

  /** A client that keeps a copy by the events it is sent. */
  function Follow<T>(view: Store<Option<T>>, item: Item<T>): Store<Option<T>> {
    match item
    case Broke(_) => view
    case Sent(e) => if e.kind.Put? then view[e.key := Stored(e.value, e.revision, e.version)] else view - {e.key}
  }

  function Fold<T>(items: seq<Item<T>>): Store<Option<T>> {
    if items == [] then map[] else Follow(Fold(items[..|items| - 1]), items[|items| - 1])
  }

  /** Everything is sent as it comes. */
  predicate Plain<V, T>(c: Config<V, T>) {
    c.types == AllTypes && c.mode == AllMode && !c.gated && c.filter.None?
  }

  predicate Readable<V, T>(c: Config<V, T>, arrivals: seq<Arrival<V>>) {
    forall i :: 0 <= i < |arrivals| && arrivals[i].raw.kind.Put? ==> c.decode(arrivals[i].raw.value).Ok?
  }

  function EventOf<V, T>(c: Config<V, T>, raw: Raw<V>): Event<T> {
    Event(raw.key, raw.kind, if raw.kind.Put? then Value(c, raw.value) else None, raw.revision, raw.version)
  }

  function EventsOf<V, T>(c: Config<V, T>, arrivals: seq<Arrival<V>>): seq<Event<T>> {
    seq(|arrivals|, i requires 0 <= i < |arrivals| => EventOf(c, arrivals[i].raw))
  }

  lemma {:induction false} PlainLoad<V, T>(c: Config<V, T>, kvs: seq<Arrival<V>>)
    requires Plain(c) && Readable(c, kvs) && forall i :: 0 <= i < |kvs| ==> kvs[i].raw.kind == Put
    ensures Loaded(c, kvs) == Ok(EventsOf(c, kvs))
  {
    if kvs != [] {
      var n := |kvs| - 1;
      PlainLoad(c, kvs[..n]);
      assert ExaminePut(c, kvs[n]) == Emit(EventOf(c, kvs[n].raw));
      assert EventsOf(c, kvs) == EventsOf(c, kvs[..n]) + [EventOf(c, kvs[n].raw)];
    } else {
      assert EventsOf(c, kvs) == [];
    }
  }

  lemma {:induction false} PlainBatch<V, T>(c: Config<V, T>, p: Progress<T>, arrivals: seq<Arrival<V>>)
    requires Plain(c) && Readable(c, arrivals) && !p.over
    ensures Batched(c, p, arrivals) == p.(items := p.items + Items(EventsOf(c, arrivals)))
  {
    if arrivals != [] {
      var n := |arrivals| - 1;
      PlainBatch(c, p, arrivals[..n]);
      assert Examine(c, arrivals[n]) == Emit(EventOf(c, arrivals[n].raw));
      assert Items(EventsOf(c, arrivals)) == Items(EventsOf(c, arrivals[..n])) + [Sent(EventOf(c, arrivals[n].raw))];
    }
  }

  lemma ReadableParts<V, T>(c: Config<V, T>, a: seq<Arrival<V>>, b: seq<Arrival<V>>)
    requires Readable(c, a + b)
    ensures Readable(c, a) && Readable(c, b)
  {
    assert forall i :: 0 <= i < |a| ==> (a + b)[i] == a[i];
    assert forall i :: 0 <= i < |b| ==> (a + b)[|a| + i] == b[i];
  }

  lemma ItemsConcat<V, T>(c: Config<V, T>, a: seq<Arrival<V>>, b: seq<Arrival<V>>)
    ensures Items(EventsOf(c, a + b)) == Items(EventsOf(c, a)) + Items(EventsOf(c, b))
  {
  }

  lemma {:induction false} PlainWatch<V, T>(c: Config<V, T>, p: Progress<T>, responses: seq<Response<V>>)
    requires forall i :: 0 <= i < |responses| ==> responses[i].Batch?
    requires Plain(c) && Readable(c, Flat(responses)) && !p.over
    ensures Watched(c, p, responses) == p.(items := p.items + Items(EventsOf(c, Flat(responses))))
  {
    hide Readable, Plain, EventOf, Batched;
    if responses != [] {
      var n := |responses| - 1;
      var before, last := Flat(responses[..n]), responses[n].arrivals;
      assert Flat(responses) == before + last;
      ReadableParts(c, before, last);
      PlainWatch(c, p, responses[..n]);
      PlainBatch(c, Watched(c, p, responses[..n]), last);
      ItemsConcat(c, before, last);
    }
  }

  /** The copy has what the arrival puts. */
  predicate Has<V, T(==)>(c: Config<V, T>, view: Store<Option<T>>, raw: Raw<V>) {
    raw.key in view && view[raw.key] == Stored(Value(c, raw.value), raw.revision, raw.version)
  }

  /** A copy made of puts of different keys has those keys, as put. */
  lemma {:induction false} FoldPuts<V, T>(c: Config<V, T>, kvs: seq<Arrival<V>>)
    requires forall i, j :: 0 <= i < j < |kvs| ==> kvs[i].raw.key != kvs[j].raw.key
    requires forall i :: 0 <= i < |kvs| ==> kvs[i].raw.kind == Put
    ensures var view := Fold(Items(EventsOf(c, kvs)));
            && (forall k :: k in view ==> exists i :: 0 <= i < |kvs| && kvs[i].raw.key == k)
            && (forall i :: 0 <= i < |kvs| ==> Has(c, view, kvs[i].raw))
  {
    hide Fold, Items, EventsOf, Has;
    if kvs == [] {
      FoldNothing(c, kvs);
    } else {
      var n := |kvs| - 1;
      FoldPuts(c, kvs[..n]);
      FoldOnePut(c, kvs);
      var view, before := Fold(Items(EventsOf(c, kvs))), Fold(Items(EventsOf(c, kvs[..n])));
      forall k | k in view ensures exists i :: 0 <= i < |kvs| && kvs[i].raw.key == k {
        if k in before {
          var i :| 0 <= i < n && kvs[..n][i].raw.key == k;
          assert kvs[i].raw.key == k;
        } else {
          assert kvs[n].raw.key == k;
        }
      }
      forall i | 0 <= i < n ensures Has(c, view, kvs[i].raw) {
        assert Has(c, before, kvs[..n][i].raw);
      }
    }
  }

  lemma FoldNothing<V, T>(c: Config<V, T>, kvs: seq<Arrival<V>>)
    requires kvs == []
    ensures Fold(Items(EventsOf(c, kvs))) == map[]
  {
  }

  lemma FoldOnePut<V, T>(c: Config<V, T>, kvs: seq<Arrival<V>>)
    requires kvs != [] && kvs[|kvs| - 1].raw.kind == Put
    ensures var n := |kvs| - 1;
            var view, before := Fold(Items(EventsOf(c, kvs))), Fold(Items(EventsOf(c, kvs[..n])));
            && view.Keys == before.Keys + {kvs[n].raw.key} && Has(c, view, kvs[n].raw)
            && forall i :: 0 <= i < n && kvs[i].raw.key != kvs[n].raw.key && Has(c, before, kvs[i].raw) ==> Has(c, view, kvs[i].raw)
  {
    var n := |kvs| - 1;
    var items := Items(EventsOf(c, kvs[..n]));
    assert Items(EventsOf(c, kvs)) == items + [Sent(EventOf(c, kvs[n].raw))];
    FoldAppends(items, Sent(EventOf(c, kvs[n].raw)));
    hide Fold, Items, EventsOf, Value;
  }

  /** A client that follows what it is told stays with the store. */
  lemma FollowsCommit<V, T>(c: Config<V, T>, store: Store<V>, ch: Change<V>, blank: V)
    ensures Follow(Decoded(c, store), Sent(EventOf(c, Notice(store, ch, blank).raw))) == Decoded(c, Commit(store, ch))
  {
  }

  lemma FoldAppends<T>(items: seq<Item<T>>, item: Item<T>)
    ensures Fold(items + [item]) == Follow(Fold(items), item)
  {
    assert (items + [item])[..|items|] == items;
  }

  lemma {:induction false} FoldChanges<V, T>(c: Config<V, T>, load: seq<Item<T>>, store: Store<V>, changes: seq<Change<V>>, blank: V)
    requires Fold(load) == Decoded(c, store)
    ensures Fold(load + Items(EventsOf(c, Notices(store, changes, blank)))) == Decoded(c, CommitAll(store, changes))
  {
    hide Fold, Follow, Decoded, EventOf, Notice, Commit;
    if changes == [] {
      assert load + Items(EventsOf(c, Notices(store, changes, blank))) == load;
    } else {
      var n := |changes| - 1;
      var before, told := CommitAll(store, changes[..n]), Notices(store, changes[..n], blank);
      var last := Notice(before, changes[n], blank);
      FoldChanges(c, load, store, changes[..n], blank);
      NoticesPrefix(store, changes, n, blank);
      assert Notices(store, changes, blank) == told + [last];
      ItemsConcat(c, told, [last]);
      var items := load + Items(EventsOf(c, told));
      assert load + Items(EventsOf(c, told + [last])) == items + [Sent(EventOf(c, last.raw))];
      FoldAppends(items, Sent(EventOf(c, last.raw)));
      FollowsCommit(c, before, changes[n], blank);
    }
  }

  lemma NoticesPrefix<V>(store: Store<V>, changes: seq<Change<V>>, k: nat, blank: V)
    requires k <= |changes|
    ensures Notices(store, changes, blank)[..k] == Notices(store, changes[..k], blank)
  {
    forall i | 0 <= i < k ensures Notices(store, changes, blank)[i] == Notices(store, changes[..k], blank)[i] {
      assert changes[..k][..i] == changes[..i];
    }
  }

  /** In all mode, for all event types and with no filter or gate: after the snapshot and each of the changes that
      follow it, a client that follows what is sent has the store, values, revisions and versions, as it was then,
      however the changes are spread over responses. */
  lemma FollowersHaveTheStore<V, T>(
      c: Config<V, T>, store: Store<V>, kvs: seq<Arrival<V>>, changes: seq<Change<V>>, blank: V, responses: seq<Response<V>>, k: nat)
    requires Plain(c) && Lists(kvs, store) && k <= |changes|
    requires forall i :: 0 <= i < |responses| ==> responses[i].Batch?
    requires Flat(responses) == Notices(store, changes, blank)
    requires Readable(c, kvs) && Readable(c, Flat(responses))
    ensures var out := Output(c, kvs, responses);
            |out| == |kvs| + |changes| && Fold(out[..|kvs| + k]) == Decoded(c, CommitAll(store, changes[..k]))
  {
    hide Fold, Decoded, EventOf, Lists, Readable, Notice, Notices, Batched, Commit, CommitAll, EventsOf, Items;
    var load, told, out := Items(EventsOf(c, kvs)), Notices(store, changes, blank), Output(c, kvs, responses);
    PlainOutput(c, store, kvs, responses);
    SnapshotIsStore(c, store, kvs);
    NoticesPrefix(store, changes, k, blank);
    ItemsPrefix(c, kvs, told, k);
    FoldChanges(c, load, store, changes[..k], blank);
  }

  lemma PlainOutput<V, T>(c: Config<V, T>, store: Store<V>, kvs: seq<Arrival<V>>, responses: seq<Response<V>>)
    requires Plain(c) && Lists(kvs, store)
    requires forall i :: 0 <= i < |responses| ==> responses[i].Batch?
    requires Readable(c, kvs) && Readable(c, Flat(responses))
    ensures Output(c, kvs, responses) == Items(EventsOf(c, kvs)) + Items(EventsOf(c, Flat(responses)))
  {
    hide Items, EventsOf, Readable, Lists, Loaded, Watched, Flat, Output;
    ListsPuts(kvs, store);
    PlainLoad(c, kvs);
    OutputOfLoaded(c, kvs, responses, EventsOf(c, kvs));
    PlainWatch(c, Progress([], {}, false), responses);
    assert [] + Items(EventsOf<V, T>(c, Flat(responses))) == Items(EventsOf(c, Flat(responses)));
  }

  lemma OutputOfLoaded<V, T>(c: Config<V, T>, kvs: seq<Arrival<V>>, responses: seq<Response<V>>, events: seq<Event<T>>)
    requires c.mode == AllMode && Loaded(c, kvs) == Ok(events)
    ensures Output(c, kvs, responses) == Items(events) + Watched(c, Progress([], {}, false), responses).items
  {
    hide Items, Loaded, Watched;
  }

  lemma ListsPuts<V>(kvs: seq<Arrival<V>>, store: Store<V>)
    requires Lists(kvs, store)
    ensures forall i :: 0 <= i < |kvs| ==> kvs[i].raw.kind == Put
  {
  }

  lemma ItemsPrefix<V, T>(c: Config<V, T>, kvs: seq<Arrival<V>>, told: seq<Arrival<V>>, k: nat)
    requires k <= |told|
    ensures var load, all := Items(EventsOf(c, kvs)), Items(EventsOf(c, told));
            |load| == |kvs| && |all| == |told| && (load + all)[..|kvs| + k] == load + Items(EventsOf(c, told[..k]))
  {
    hide EventOf;
    assert Items(EventsOf(c, told))[..k] == Items(EventsOf(c, told[..k]));
  }

  lemma SnapshotIsStore<V, T>(c: Config<V, T>, store: Store<V>, kvs: seq<Arrival<V>>)
    requires Lists(kvs, store)
    ensures Fold(Items(EventsOf(c, kvs))) == Decoded(c, store)
  {
    FoldPuts(c, kvs);
    hide Fold, EventOf, Value;
    var view := Fold(Items(EventsOf(c, kvs)));
    forall k | k in store ensures k in view && view[k] == Decoded(c, store)[k] {
      var i :| 0 <= i < |kvs| && kvs[i].raw.key == k;
    }
    forall k | k in view ensures k in store {
      var i :| 0 <= i < |kvs| && kvs[i].raw.key == k;
    }
  }

  // ---------------------------------------------------------------- what is sent for each thing told

  /** What a snapshot or a watch tells: a key, or that the watch is broken. */
  datatype Notification<V> = Told(arrival: Arrival<V>) | Lost(error: Error)

  function AllTold<V>(arrivals: seq<Arrival<V>>): (told: seq<Notification<V>>)
    ensures |told| == |arrivals|
  {
    seq(|arrivals|, i requires 0 <= i < |arrivals| => Told(arrivals[i]))
  }

  /** The keys of a snapshot count as put. */
  function Listed<V>(kvs: seq<Arrival<V>>): (told: seq<Notification<V>>)
    ensures |told| == |kvs|
  {
    seq(|kvs|, i requires 0 <= i < |kvs| => Told(kvs[i].(raw := kvs[i].raw.(kind := Put))))
  }

  function Notifications<V>(responses: seq<Response<V>>): seq<Notification<V>> {
    if responses == [] then []
    else
      Notifications(responses[..|responses| - 1]) +
      match responses[|responses| - 1] case Broken(e) => [Lost(e)] case Batch(arrivals) => AllTold(arrivals)
  }

  /** What the gate lets through: a put about which it asks nothing, and the key as it is now where its conditions
      are met and the key is there; it has no say on a deletion. */
  function Through<V>(gated: bool, a: Arrival<V>): Option<Raw<V>> {
    if !gated || a.raw.kind.Delete? || a.gate.Unconditional? then Some(a.raw)
    else if a.gate.Found? then Some(a.gate.raw.(kind := Put))
    else None
  }

  /** What is told is asked for, passes the gate, and is still asked for as the gate lets it through. */
  predicate Forwarded<V, T>(c: Config<V, T>, n: Notification<V>) {
    && n.Told? && Asked(c, EventOf(c, n.arrival.raw))
    && Through(c.gated, n.arrival).Some? && Asked(c, EventOf(c, Through(c.gated, n.arrival).value))
  }

  /** The error it ends the watch with, if any: the watch's, or about a put asked for that of its decoding, and
      where it passes the filter that of the gate or of decoding what the gate found. */
  function Failure<V, T>(c: Config<V, T>, n: Notification<V>): Option<Error> {
    if n.Lost? then Some(n.error)
    else
      var a := n.arrival;
      if a.raw.kind.Delete? || c.types.DeletesOnly? then None
      else if c.decode(a.raw.value).Err? then Some(c.decode(a.raw.value).error)
      else if !c.gated || !Asked(c, EventOf(c, a.raw)) then None
      else if a.gate.Failing? then Some(a.gate.error)
      else if a.gate.Found? && c.decode(a.gate.raw.value).Err? then Some(c.decode(a.gate.raw.value).error)
      else None
  }

  /** How much is told before the first failure. */
  function Untroubled<V, T>(c: Config<V, T>, told: seq<Notification<V>>): (n: nat)
    ensures n <= |told| && (n < |told| ==> Failure(c, told[n]).Some?)
    ensures forall i :: 0 <= i < n ==> Failure(c, told[i]).None?
  {
    if told == [] || Failure(c, told[0]).Some? then 0 else 1 + Untroubled(c, told[1..])
  }

  /** The events of what is forwarded, once each, in order. */
  function Forwards<V, T>(c: Config<V, T>, told: seq<Notification<V>>): seq<Event<T>> {
    if told == [] then []
    else
      var n := |told| - 1;
      Forwards(c, told[..n]) + if Forwarded(c, told[n]) then [EventOf(c, Through(c.gated, told[n].arrival).value)] else []
  }

  /** Everything forwarded before the first failure, and then the failure. */
  function Sendings<V, T>(c: Config<V, T>, told: seq<Notification<V>>): seq<Item<T>> {
    var n := Untroubled(c, told);
    Items(Forwards(c, told[..n])) + if n < |told| then [Broke(Failure(c, told[n]).value)] else []
  }

  /** A decision of the watcher is what the gate, the filter and the types asked for make of what is told. */
  lemma ExamineSays<V, T>(c: Config<V, T>, a: Arrival<V>)
    ensures Examine(c, a) == if Failure(c, Told(a)).Some? then Fail(Failure(c, Told(a)).value)
                             else if Forwarded(c, Told(a)) then Emit(EventOf(c, Through(c.gated, a).value)) else Skip
  {
  }

  lemma ExaminePutSays<V, T>(c: Config<V, T>, a: Arrival<V>)
    requires !c.types.DeletesOnly?
    ensures ExaminePut(c, a) == Examine(c, a.(raw := a.raw.(kind := Put)))
  {
  }

  lemma UntroubledMore<V, T>(c: Config<V, T>, told: seq<Notification<V>>, last: Notification<V>)
    ensures var n := Untroubled(c, told);
            Untroubled(c, told + [last]) == if n < |told| then n else if Failure(c, last).Some? then |told| else |told| + 1
  {
    hide Failure;
    var all, n := told + [last], Untroubled(c, told);
    assert forall i :: 0 <= i < |told| ==> all[i] == told[i];
    assert n < |told| ==> Failure(c, all[n]).Some?;
    assert all[|told|] == last;
  }

  /** One more is told: after a failure it is ignored. */
  lemma SendingsMore<V, T>(c: Config<V, T>, told: seq<Notification<V>>, last: Notification<V>)
    ensures Sendings(c, told + [last]) ==
            Sendings(c, told) + if Untroubled(c, told) < |told| then []
                                else if Failure(c, last).Some? then [Broke(Failure(c, last).value)]
                                else if Forwarded(c, last) then [Sent(EventOf(c, Through(c.gated, last.arrival).value))] else []
  {
    hide Failure, Forwarded, Through, EventOf, Untroubled;
    var n, all := Untroubled(c, told), told + [last];
    UntroubledMore(c, told, last);
    if n < |told| {
      assert all[..n] == told[..n] && all[n] == told[n];
    } else {
      assert told[..n] == told && all[..n] == told && all[|told|] == last && all[..|told|] == told;
      assert all[..|told| + 1] == all;
    }
  }

  /** The watch has sent what it should, and is over exactly after a failure. */
  ghost predicate SentSo<V, T>(c: Config<V, T>, p: Progress<T>, told: seq<Notification<V>>) {
    p.items == Sendings(c, told) && (p.over <==> Untroubled(c, told) < |told|)
  }

  lemma NextSent<V, T>(c: Config<V, T>, p: Progress<T>, told: seq<Notification<V>>, a: Arrival<V>)
    requires c.mode.AllMode? && SentSo(c, p, told)
    ensures SentSo(c, if p.over then p else Next(c, p, a), told + [Told(a)])
  {
    ExamineSays(c, a);
    SendingsMore(c, told, Told(a));
    UntroubledMore(c, told, Told(a));
    hide Examine, Failure, Forwarded, Through, Sendings, Untroubled;
  }

  lemma {:induction false} BatchSent<V, T>(c: Config<V, T>, p: Progress<T>, told: seq<Notification<V>>, arrivals: seq<Arrival<V>>)
    requires c.mode.AllMode? && SentSo(c, p, told)
    ensures SentSo(c, if p.over then p else Batched(c, p, arrivals), told + AllTold(arrivals))
  {
    hide SentSo, Next;
    if arrivals == [] {
      assert told + AllTold(arrivals) == told;
    } else {
      var n := |arrivals| - 1;
      BatchSent(c, p, told, arrivals[..n]);
      NextSent(c, if p.over then p else Batched(c, p, arrivals[..n]), told + AllTold(arrivals[..n]), arrivals[n]);
      assert told + AllTold(arrivals) == told + AllTold(arrivals[..n]) + [Told(arrivals[n])];
    }
  }

  lemma {:induction false} WatchSent<V, T>(c: Config<V, T>, responses: seq<Response<V>>)
    requires c.mode.AllMode?
    ensures SentSo(c, Watched(c, Progress([], {}, false), responses), Notifications(responses))
  {
    if responses != [] {
      var n := |responses| - 1;
      WatchSent(c, responses[..n]);
      var q, before := Watched(c, Progress([], {}, false), responses[..n]), Notifications(responses[..n]);
      match responses[n] {
        case Broken(e) =>
          SendingsMore(c, before, Lost(e));
          UntroubledMore(c, before, Lost(e));
        case Batch(arrivals) => BatchSent(c, q, before, arrivals);
      }
    }
  }

  lemma LoadedMore<V, T>(c: Config<V, T>, kvs: seq<Arrival<V>>)
    requires kvs != [] && !c.types.DeletesOnly?
    ensures var before, last := Loaded(c, kvs[..|kvs| - 1]), Listed(kvs)[|kvs| - 1];
            Loaded(c, kvs) ==
            if before.Err? then before
            else if Failure(c, last).Some? then Err(Failure(c, last).value)
            else Ok(before.value + if Forwarded(c, last) then [EventOf(c, Through(c.gated, last.arrival).value)] else [])
  {
    ExaminePutSays(c, kvs[|kvs| - 1]);
    ExamineSays(c, Listed(kvs)[|kvs| - 1].arrival);
    hide Examine, ExaminePut, Failure, Forwarded, Through;
    var before := Loaded(c, kvs[..|kvs| - 1]);
    assert before.Ok? ==> before.value + [] == before.value;
  }

  /** The snapshot gives everything forwarded of it, or its first failure. */
  lemma {:induction false} LoadedSo<V, T>(c: Config<V, T>, kvs: seq<Arrival<V>>)
    ensures var told, n := Listed(kvs), Untroubled(c, Listed(kvs));
            Loaded(c, kvs) == if n < |told| then Err(Failure(c, told[n]).value) else Ok(Forwards(c, told))
  {
    if kvs != [] && !c.types.DeletesOnly? {
      hide Failure, Forwarded, Through, Untroubled, Loaded;
      var n, told := |kvs| - 1, Listed(kvs);
      LoadedSo(c, kvs[..n]);
      LoadedMore(c, kvs);
      assert told[..n] == Listed(kvs[..n]) && told == told[..n] + [told[n]];
      UntroubledMore(c, told[..n], told[n]);
    } else {
      NothingListed(c, kvs);
    }
  }

  lemma {:induction false} NothingListed<V, T>(c: Config<V, T>, kvs: seq<Arrival<V>>)
    requires kvs == [] || c.types.DeletesOnly?
    ensures Untroubled(c, Listed(kvs)) == |kvs| && Forwards(c, Listed(kvs)) == []
  {
    if kvs != [] {
      var n := |kvs| - 1;
      NothingListed(c, kvs[..n]);
      assert Listed(kvs)[..n] == Listed(kvs[..n]);
    }
  }

  /** In all mode what is sent is, for the snapshot and then for the watch, the event of everything forwarded before
      the first failure, once each, in order, and then the failure; a snapshot that fails gives its failure alone.
      In none mode it is the snapshot's part. */
  lemma SentExactly<V, T>(c: Config<V, T>, kvs: seq<Arrival<V>>, responses: seq<Response<V>>)
    requires !c.mode.OnceMode?
    ensures var told, n := Listed(kvs), Untroubled(c, Listed(kvs));
            Output(c, kvs, responses) ==
            if n < |told| then [Broke(Failure(c, told[n]).value)]
            else Items(Forwards(c, told)) + if c.mode.AllMode? then Sendings(c, Notifications(responses)) else []
  {
    hide Failure, Forwards, Sendings, Loaded, Untroubled, Watched;
    LoadedSo(c, kvs);
    if c.mode.AllMode? {
      WatchSent(c, responses);
    }
  }

  /** The event is what is forwarded of the notification, put out in full: with a gate a put is sent only if the gate
      asks nothing, and then as it arrived, or if its conditions are met, and then as the key is now. */
  predicate ComesOf<V, T(==)>(c: Config<V, T>, event: Event<T>, n: Notification<V>) {
    && n.Told? && Asked(c, EventOf(c, n.arrival.raw)) && Asked(c, event)
    && (event.kind.Put? <==> n.arrival.raw.kind.Put?) && (event.kind.Put? ==> event.value.Some?)
    && if event.kind.Put? && c.gated && !n.arrival.gate.Unconditional? then
         n.arrival.gate.Found? && event == EventOf(c, n.arrival.gate.raw.(kind := Put))
       else event == EventOf(c, n.arrival.raw)
  }

  ghost predicate AllComeOf<V, T>(c: Config<V, T>, items: seq<Item<T>>, told: seq<Notification<V>>) {
    forall i :: 0 <= i < |items| && items[i].Sent? ==> exists n :: n in told && ComesOf(c, items[i].event, n)
  }

  lemma ForwardedComes<V, T>(c: Config<V, T>, a: Arrival<V>)
    ensures Examine(c, a).Emit? ==> ComesOf(c, Examine(c, a).event, Told(a))
  {
  }

  lemma AllComeOfMore<V, T>(c: Config<V, T>, items: seq<Item<T>>, told: seq<Notification<V>>, more: seq<Notification<V>>)
    requires AllComeOf(c, items, told) && told <= more
    ensures AllComeOf(c, items, more)
  {
    hide ComesOf;
    assert forall n :: n in told ==> n in more;
  }

  lemma NextComes<V, T>(c: Config<V, T>, p: Progress<T>, told: seq<Notification<V>>, a: Arrival<V>)
    requires AllComeOf(c, p.items, told)
    ensures AllComeOf(c, Next(c, p, a).items, told + [Told(a)])
  {
    ForwardedComes(c, a);
    AllComeOfMore(c, p.items, told, told + [Told(a)]);
    assert Told(a) in told + [Told(a)];
    hide Examine, ComesOf;
  }

  lemma {:induction false} BatchComes<V, T>(c: Config<V, T>, p: Progress<T>, told: seq<Notification<V>>, arrivals: seq<Arrival<V>>)
    requires AllComeOf(c, p.items, told)
    ensures AllComeOf(c, Batched(c, p, arrivals).items, told + AllTold(arrivals))
  {
    hide AllComeOf, Next;
    if arrivals == [] {
      assert told + AllTold(arrivals) == told;
    } else {
      var n := |arrivals| - 1;
      BatchComes(c, p, told, arrivals[..n]);
      var q, before := Batched(c, p, arrivals[..n]), told + AllTold(arrivals[..n]);
      assert told + AllTold(arrivals) == before + [Told(arrivals[n])];
      NextComes(c, q, before, arrivals[n]);
      AllComeOfMore(c, q.items, before, before + [Told(arrivals[n])]);
    }
  }

  lemma {:induction false} WatchComes<V, T>(c: Config<V, T>, p: Progress<T>, responses: seq<Response<V>>)
    requires p.items == []
    ensures AllComeOf(c, Watched(c, p, responses).items, Notifications(responses))
  {
    if responses != [] {
      var n := |responses| - 1;
      WatchComes(c, p, responses[..n]);
      var q, before := Watched(c, p, responses[..n]), Notifications(responses[..n]);
      AllComeOfMore(c, q.items, before, Notifications(responses));
      if responses[n].Batch? {
        BatchComes(c, q, before, responses[n].arrivals);
      }
    }
  }

  lemma {:induction false} LoadComes<V, T>(c: Config<V, T>, kvs: seq<Arrival<V>>)
    ensures Loaded(c, kvs).Ok? ==> AllComeOf(c, Items(Loaded(c, kvs).value), Listed(kvs))
  {
    if kvs != [] && !c.types.DeletesOnly? && Loaded(c, kvs).Ok? {
      var n := |kvs| - 1;
      var last := kvs[n].(raw := kvs[n].raw.(kind := Put));
      LoadComes(c, kvs[..n]);
      var events := Loaded(c, kvs[..n]).value;
      assert Listed(kvs) == Listed(kvs[..n]) + [Told(last)];
      AllComeOfMore(c, Items(events), Listed(kvs[..n]), Listed(kvs));
      assert Told(last) in Listed(kvs);
      ExaminePutSays(c, kvs[n]);
      ForwardedComes(c, last);
      hide Examine, ExaminePut, ComesOf;
      assert forall i :: 0 <= i < |events| ==> Items(Loaded(c, kvs).value)[i] == Items(events)[i];
    }
  }

  /** In every mode every event sent is forwarded of something the snapshot or the watch told; so with a gate nothing
      is sent for a put whose conditions are not met or whose key is gone. */
  lemma NothingElseIsSent<V, T>(c: Config<V, T>, kvs: seq<Arrival<V>>, responses: seq<Response<V>>)
    ensures AllComeOf(c, Output(c, kvs, responses), Listed(kvs) + Notifications(responses))
  {
    hide ComesOf, Loaded, Watched;
    LoadComes(c, kvs);
    if Loaded(c, kvs).Ok? {
      WatchComes(c, Start(c, Loaded(c, kvs).value), responses);
      assert forall n :: n in Listed(kvs) || n in Notifications(responses) ==> n in Listed(kvs) + Notifications(responses);
    }
  }
}
