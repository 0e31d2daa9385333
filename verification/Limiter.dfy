/** The slot allocator of sync/limiter.go: what each region under its mutex does to the shared fields. */
module Slots {
  import opened Options
  import opened PriorityQueues

  type Id = nat

  const HIGH := 4

  /** The two fields the mutex protects. An execution waits at most once at a time, so the wait list is seen
      as a map from waiting execution to the key it is queued under. */
  datatype Slots = Slots(count: int, waiting: map<Id, Key>)

  /** wait: take a free slot, or queue. */
  function Admit(s: Slots, limit: int, id: Id, key: Key): Slots {
    if s.count < limit then s.(count := s.count + 1) else s.(waiting := s.waiting[id := key])
  }

  /** A waiter that the heap may pop: nobody has a higher priority, nor the same one and an older stamp. */
  ghost predicate Best(s: Slots, id: Id) {
    id in s.waiting && forall v :: v in s.waiting ==> Before(s.waiting[id], s.waiting[v])
  }

  /** What end may pop. */
  ghost predicate MayServe(s: Slots, next: Option<Id>) {
    if s.waiting == map[] then next == None else next.Some? && Best(s, next.value)
  }

  /** end: give the slot back, or hand it to the waiter popped. */
  function Release(s: Slots, next: Option<Id>): Slots {
    if next == None then s.(count := s.count - 1) else s.(waiting := s.waiting - {next.value})
  }

  /** A tick of a waiter's ageing ticker. */
  function Age(s: Slots, id: Id): Slots {
    if id in s.waiting && s.waiting[id].priority < HIGH then
      s.(waiting := s.waiting[id := s.waiting[id].(priority := s.waiting[id].priority + 1)])
    else s
  }

  /** The queued items are the waiters': holder gives each waiting execution its one item. */
  ghost predicate Tied(queued: map<Item<Id>, Key>, waiting: map<Id, Key>, holder: map<Id, Item<Id>>) {
    && holder.Keys == waiting.Keys
    && (forall v :: v in holder ==> holder[v].value == v && holder[v] in queued && queued[holder[v]] == waiting[v])
    && (forall x :: x in queued ==> x.value in holder && holder[x.value] == x)
  }

  lemma TiedQueue(queued: map<Item<Id>, Key>, waiting: map<Id, Key>, holder: map<Id, Item<Id>>, it: Item<Id>, key: Key)
    requires Tied(queued, waiting, holder) && (it in queued || it.value !in waiting)
    ensures Tied(queued[it := key], waiting[it.value := key], holder[it.value := it])
  {
  }

  lemma TiedServe(count: int, queued: map<Item<Id>, Key>, waiting: map<Id, Key>, holder: map<Id, Item<Id>>, it: Item<Id>)
    requires Tied(queued, waiting, holder) && it in queued
    requires forall x :: x in queued ==> Before(queued[it], queued[x])
    ensures it.value in waiting && Best(Slots(count, waiting), it.value)
    ensures Tied(queued - {it}, waiting - {it.value}, holder - {it.value})
  {
  }

  function Served(next: Item?<Id>): Option<Id> {
    if next == null then None else Some(next.value)
  }

  class Limiter {
    var count: int
    const waitList: PriorityQueue<Id>
    ghost var waiting: map<Id, Key>
    ghost var holder: map<Id, Item<Id>>  // the queued item of each waiting execution

    ghost predicate Valid()
      reads this, waitList, waitList.queued.Keys
    {
      && waitList.Valid()
      && Tied(waitList.queued, waiting, holder)
    }

    ghost function View(): (s: Slots)
      reads this
    {
      Slots(count, waiting)
    }

    constructor ()
      ensures Valid() && View() == Slots(0, map[])
    {
      count := 0;
      waitList := new PriorityQueue<Id>();
      waiting, holder := map[], map[];
    }

    /** The region of wait that runs under the mutex; null means the slot was taken at once. */
    method Wait(limit: int, priority: int, id: Id, now: int) returns (w: Item?<Id>)
      requires Valid() && id !in waiting
      modifies this, waitList, waitList.queued.Keys`index
      ensures Valid() && View() == Admit(old(View()), limit, id, Key(priority, now))
      ensures w == null <==> old(count) < limit
      ensures w == null ==> count == old(count) + 1 && waiting == old(waiting)
      ensures w != null ==> count == old(count) && waiting == old(waiting)[id := Key(priority, now)]
      ensures w != null ==> fresh(w) && w in waitList.queued && w.value == id
    {
      hide PriorityQueue.Valid, Tied;
      if count < limit {
        count := count + 1;
        w := null;
      } else {
        var item := new Item<Id>(id, priority);
        TiedQueue(waitList.queued, waiting, holder, item, Key(priority, now));
        waitList.Push(item, now);
        waiting, holder := waiting[id := Key(priority, now)], holder[id := item];
        w := item;
      }
    }

    lemma EmptyTogether()
      requires Valid() && |waitList.items| == 0
      ensures waiting == map[]
    {
    }

    /** The region of end that runs under the mutex; the result is the waiter to wake. */
    method End() returns (next: Item?<Id>)
      requires Valid()
      modifies this, waitList, waitList.queued.Keys`index
      ensures Valid()
      ensures MayServe(old(View()), Served(next))
      ensures View() == Release(old(View()), Served(next))
      ensures next != null ==> next.index == -1
    {
      hide PriorityQueue.Valid, Tied, Best;
      count := count - 1;
      if |waitList.items| == 0 {
        EmptyTogether();
        return null;
      }
      ghost var queued := waitList.queued;
      next := waitList.Pop();
      TiedServe(old(count), queued, waiting, holder, next);
      count, waiting, holder := count + 1, waiting - {next.value}, holder - {next.value};
    }

    /** A tick received by the waiter of item w; w may have been popped meanwhile. */
    method Tick(w: Item<Id>)
      requires Valid()
      requires if w.index == -1 then w.value !in waiting else w in waitList.queued
      modifies this, waitList, waitList.queued.Keys`index, w`priority
      ensures Valid() && View() == Age(old(View()), w.value)
    {
      hide Heap;
      if w.priority < HIGH {
        if w.index != -1 {
          TiedQueue(waitList.queued, waiting, holder, w, Key(w.priority + 1, w.timeStamp));
        }
        waitList.Update(w, w.priority + 1);
        waiting := Age(View(), w.value).waiting;
      }
    }
  }
}

/** All interleavings of the executions of one limiter, at the granularity of its mutex regions and of the
    channel send that wakes a popped waiter (sync/limiter.go:190-299). */
module LimiterProtocol {
  import opened FiniteSets
  import opened Options
  import opened PriorityQueues
  import opened Slots

  /** Where an execution, driven by one goroutine, stands. */
  datatype Phase =
    | Waiting                           // inside wait, queued
    | Granted(giver: Id)                // inside wait, popped by `giver`, which is about to send
    | Running                           // wait has returned
    | Handing(to: Id, sleeping: bool)   // inside end, sending to the waiter it popped
    | Sleeping                          // inside Sleep, slot released
    | Ended

  datatype Execution = Execution(priority: int, phase: Phase, acquired: nat, released: nat)

  /** `peak` is history only: the largest limit loaded so far. */
  datatype State = State(slots: Slots, limit: int, peak: int, execs: map<Id, Execution>)

  datatype Step =
    | Begin(id: Id, priority: int, now: int)
    | Wake(id: Id)                          // the send of `id` meets the receive of the waiter it popped
    | Tick(id: Id)
    | End(id: Id, next: Option<Id>)
    | Sleep(id: Id, next: Option<Id>)
    | Reacquire(id: Id, now: int)
    | Reload(limit: int)

  function Initial(limit: int): State {
    State(Slots(0, map[]), limit, limit, map[])
  }

  predicate In(s: State, id: Id, phase: Phase) {
    id in s.execs && s.execs[id].phase == phase
  }

  predicate Popped(s: State, id: Id) {
    id in s.execs && s.execs[id].phase.Granted?
  }

  predicate Sending(s: State, id: Id) {
    id in s.execs && s.execs[id].phase.Handing?
  }

  /** An execution owns a slot from the moment the slot is counted for it, even if it does not know yet. */
  predicate Owns(e: Execution) {
    e.phase.Running? || e.phase.Granted?
  }

  ghost function Owners(s: State): set<Id> {
    set id | id in s.execs && Owns(s.execs[id])
  }

  /** The slot is given up, and the waiter popped, if any, is one the heap may pop. */
  ghost predicate MayLeave(s: State, id: Id, next: Option<Id>) {
    In(s, id, Running) && MayServe(s.slots, next) && (next.Some? ==> In(s, next.value, Waiting))
  }

  ghost predicate Enabled(s: State, step: Step) {
    match step
    case Begin(id, _, _) => id !in s.execs
    case Wake(id) => Sending(s, id) && In(s, s.execs[id].phase.to, Granted(id))
    case Tick(id) => In(s, id, Waiting) || Popped(s, id)
    case End(id, next) => In(s, id, Ended) || MayLeave(s, id, next)
    case Sleep(id, next) => In(s, id, Ended) || MayLeave(s, id, next)
    case Reacquire(id, _) => In(s, id, Sleeping)
    case Reload(limit) => limit > 0
  }

  /** wait, up to the end of its region. */
  function Enter(s: State, id: Id, e: Execution, now: int): State {
    var after := if s.slots.count < s.limit then e.(phase := Running, acquired := e.acquired + 1) else e.(phase := Waiting);
    s.(slots := Admit(s.slots, s.limit, id, Key(e.priority, now)), execs := s.execs[id := after])
  }

  /** end, up to the end of its region. */
  function Leave(s: State, id: Id, next: Option<Id>, sleeping: bool): State
    requires id in s.execs && (next.Some? ==> next.value in s.execs)
  {
    var gone := s.execs[id].(released := s.execs[id].released + 1);
    match next
    case None =>
      s.(slots := Release(s.slots, next), execs := s.execs[id := gone.(phase := if sleeping then Sleeping else Ended)])
    case Some(n) =>
      var woken := s.execs[n].(phase := Granted(id), acquired := s.execs[n].acquired + 1);
      s.(slots := Release(s.slots, next), execs := s.execs[id := gone.(phase := Handing(n, sleeping))][n := woken])
  }

  ghost function Apply(s: State, step: Step): State
    requires Enabled(s, step)
  {
    match step
    case Begin(id, priority, now) => Enter(s, id, Execution(priority, Sleeping, 0, 0), now)
    case Wake(id) =>
      var e := s.execs[id];
      var n := e.phase.to;
      s.(execs := s.execs[id := e.(phase := if e.phase.sleeping then Sleeping else Ended)]
                         [n := s.execs[n].(phase := Running)])
    case Tick(id) => s.(slots := Age(s.slots, id))
    case End(id, next) => if In(s, id, Ended) then s else Leave(s, id, next, false)
    case Sleep(id, next) => if In(s, id, Ended) then s else Leave(s, id, next, true)
    case Reacquire(id, now) => Enter(s, id, s.execs[id], now)
    case Reload(limit) => s.(limit := limit, peak := if limit > s.peak then limit else s.peak)
  }

  /** A run: every step is enabled where it is taken. */
  ghost predicate Run(s: State, steps: seq<Step>)
    decreases |steps|
  {
    steps == [] || (Enabled(s, steps[0]) && Run(Apply(s, steps[0]), steps[1..]))
  }

  ghost function After(s: State, steps: seq<Step>): State
    requires Run(s, steps)
    decreases |steps|
  {
    if steps == [] then s else After(Apply(s, steps[0]), steps[1..])
  }

  /** Acquisitions and releases of an execution balance. */
  predicate Balanced(e: Execution) {
    e.acquired == e.released + if Owns(e) then 1 else 0
  }

  /** Popped waiters and senders are matched one to one. */
  ghost predicate Matched(s: State) {
    && (forall id :: Sending(s, id) ==> In(s, s.execs[id].phase.to, Granted(id)))
    && (forall id :: Popped(s, id) ==> Sending(s, s.execs[id].phase.giver) && s.execs[s.execs[id].phase.giver].phase.to == id)
  }

  ghost predicate Queued(s: State) {
    forall id :: id in s.slots.waiting <==> In(s, id, Waiting)
  }

  /** The count is the number of owners; nobody waits on a limiter nobody holds. */
  ghost predicate Counted(s: State) {
    && s.slots.count == |Owners(s)| && s.slots.count <= s.peak
    && (s.slots.waiting != map[] ==> s.slots.count >= 1)
    && AllBalanced(s.execs)
  }

  ghost predicate Inv(s: State) {
    0 < s.limit <= s.peak && Queued(s) && Counted(s) && Matched(s)
  }

  /** The count is within the limit. */
  predicate Within(s: State) {
    s.slots.count <= s.limit
  }

  /** A waiter means that no slot is free. */
  predicate Full(s: State) {
    s.slots.waiting != map[] ==> s.slots.count >= s.limit
  }

  lemma EnterKeepsMatched(s: State, id: Id, e: Execution, now: int)
    requires Matched(s) && (id !in s.execs || In(s, id, Sleeping))
    ensures Matched(Enter(s, id, e, now))
  {
  }

  lemma EnterKeepsOwners(s: State, id: Id, e: Execution, now: int)
    requires id !in s.execs || In(s, id, Sleeping)
    ensures Owners(Enter(s, id, e, now)) == if s.slots.count < s.limit then Owners(s) + {id} else Owners(s)
    ensures id !in Owners(s)
  {
  }

  lemma EnterKeepsQueued(s: State, id: Id, e: Execution, now: int)
    requires Queued(s) && (id !in s.execs || In(s, id, Sleeping))
    ensures Queued(Enter(s, id, e, now))
  {
  }

  /** All executions balance. */
  predicate AllBalanced(execs: map<Id, Execution>) {
    forall id :: id in execs ==> Balanced(execs[id])
  }

  lemma EnterKeepsBalanced(s: State, id: Id, e: Execution, now: int)
    requires AllBalanced(s.execs) && e.phase == Sleeping && Balanced(e)
    ensures AllBalanced(Enter(s, id, e, now).execs)
  {
  }

  lemma EnterKeepsCounted(s: State, id: Id, e: Execution, now: int)
    requires Counted(s) && 0 < s.limit <= s.peak && (id !in s.execs || In(s, id, Sleeping))
    requires e.phase == Sleeping && Balanced(e)
    ensures Counted(Enter(s, id, e, now))
  {
    EnterKeepsOwners(s, id, e, now);
    EnterKeepsBalanced(s, id, e, now);
    hide Owners, AllBalanced;
  }

  lemma EnterKeepsInv(s: State, id: Id, e: Execution, now: int)
    requires Inv(s) && (id !in s.execs || In(s, id, Sleeping))
    requires e.phase == Sleeping && Balanced(e) && (id in s.execs ==> e == s.execs[id])
    ensures Inv(Enter(s, id, e, now))
  {
    hide Queued, Counted, Matched;
    EnterKeepsMatched(s, id, e, now);
    EnterKeepsQueued(s, id, e, now);
    EnterKeepsCounted(s, id, e, now);
  }

  lemma FreeKeepsInv(s: State, id: Id, sleeping: bool)
    requires Inv(s) && MayLeave(s, id, None)
    ensures Inv(Leave(s, id, None, sleeping))
  {
    assert id in Owners(s);
    assert Owners(Leave(s, id, None, sleeping)) == Owners(s) - {id};
  }

  lemma HandKeepsMatched(s: State, id: Id, n: Id, sleeping: bool)
    requires Matched(s) && In(s, id, Running) && In(s, n, Waiting)
    ensures Matched(Leave(s, id, Some(n), sleeping))
  {
  }

  lemma HandKeepsCounted(s: State, id: Id, n: Id, sleeping: bool)
    requires Counted(s) && In(s, id, Running) && In(s, n, Waiting)
    ensures Counted(Leave(s, id, Some(n), sleeping))
  {
    var t := Leave(s, id, Some(n), sleeping);
    assert id in Owners(s) && n !in Owners(s);
    assert Owners(t) == Owners(s) - {id} + {n};
  }

  lemma HandKeepsInv(s: State, id: Id, n: Id, sleeping: bool)
    requires Inv(s) && MayLeave(s, id, Some(n))
    ensures Inv(Leave(s, id, Some(n), sleeping))
  {
    HandKeepsMatched(s, id, n, sleeping);
    HandKeepsCounted(s, id, n, sleeping);
    hide Matched, Counted;
  }

  lemma LeaveKeepsInv(s: State, id: Id, next: Option<Id>, sleeping: bool)
    requires Inv(s) && MayLeave(s, id, next)
    ensures Inv(Leave(s, id, next, sleeping))
  {
    match next
    case None => FreeKeepsInv(s, id, sleeping);
    case Some(n) => HandKeepsInv(s, id, n, sleeping);
  }

  lemma WakeKeepsMatched(s: State, id: Id)
    requires Matched(s) && Enabled(s, Wake(id))
    ensures Matched(Apply(s, Wake(id)))
  {
  }

  lemma WakeKeepsInv(s: State, id: Id)
    requires Inv(s) && Enabled(s, Wake(id))
    ensures Inv(Apply(s, Wake(id)))
  {
    WakeKeepsMatched(s, id);
    hide Matched;
    assert Owners(Apply(s, Wake(id))) == Owners(s);
  }

  lemma StepKeepsInv(s: State, step: Step)
    requires Inv(s) && Enabled(s, step)
    ensures Inv(Apply(s, step))
  {
    match step
    case Begin(id, priority, now) => EnterKeepsInv(s, id, Execution(priority, Sleeping, 0, 0), now);
    case Wake(id) => WakeKeepsInv(s, id);
    case Tick(id) => assert Owners(Apply(s, step)) == Owners(s);
    case End(id, next) => if !In(s, id, Ended) { LeaveKeepsInv(s, id, next, false); }
    case Sleep(id, next) => if !In(s, id, Ended) { LeaveKeepsInv(s, id, next, true); }
    case Reacquire(id, now) => EnterKeepsInv(s, id, s.execs[id], now);
    case Reload(limit) => assert Owners(Apply(s, step)) == Owners(s);
  }

  /** A reload that does not go below the slots taken. */
  predicate Spares(s: State, step: Step) {
    step.Reload? ==> s.slots.count <= step.limit
  }

  /** A reload that frees no slot while someone waits. */
  predicate FreesNone(s: State, step: Step) {
    step.Reload? ==> s.slots.waiting == map[] || step.limit <= s.slots.count
  }

  /** Exactly the reloads below the slots taken break the bound. */
  lemma StepKeepsWithin(s: State, step: Step)
    requires Inv(s) && Within(s) && Enabled(s, step)
    ensures Within(Apply(s, step)) <==> Spares(s, step)
  {
  }

  /** Exactly the reloads that free a slot while someone waits leave a waiter beside it. */
  lemma StepKeepsFull(s: State, step: Step)
    requires Inv(s) && Full(s) && Enabled(s, step)
    ensures Full(Apply(s, step)) <==> FreesNone(s, step)
  {
  }

  /** A property of every state of the run, and one of every step in the state it is taken in. */
  ghost predicate Always(s: State, steps: seq<Step>, holds: State -> bool)
    requires Run(s, steps)
    decreases |steps|
  {
    holds(s) && (steps == [] || Always(Apply(s, steps[0]), steps[1..], holds))
  }

  ghost predicate Each(s: State, steps: seq<Step>, meets: (State, Step) -> bool)
    requires Run(s, steps)
    decreases |steps|
  {
    steps == [] || (meets(s, steps[0]) && Each(Apply(s, steps[0]), steps[1..], meets))
  }

  /** In every interleaving the count is the number of slots owned, never above the largest limit loaded, and
      every execution's acquisitions and releases balance. */
  lemma {:induction false} EveryRunIsSafe(s: State, steps: seq<Step>)
    requires Inv(s) && Run(s, steps)
    ensures Inv(After(s, steps))
    decreases |steps|
  {
    hide Inv, Apply, Enabled;
    if steps != [] {
      StepKeepsInv(s, steps[0]);
      EveryRunIsSafe(Apply(s, steps[0]), steps[1..]);
    }
  }

  /** The count stays within the limit in every state of a run if and only if no reload goes below the slots taken
      when it happens. */
  lemma {:induction false} EveryRunIsWithin(s: State, steps: seq<Step>)
    requires Inv(s) && Within(s) && Run(s, steps)
    ensures Always(s, steps, Within) <==> Each(s, steps, Spares)
    decreases |steps|
  {
    hide Inv, Apply, Enabled, Spares, Within;
    if steps != [] {
      StepKeepsInv(s, steps[0]);
      StepKeepsWithin(s, steps[0]);
      if Spares(s, steps[0]) {
        EveryRunIsWithin(Apply(s, steps[0]), steps[1..]);
      }
    }
  }

  /** A waiter means that no slot is free in every state of a run if and only if no reload frees a slot while
      someone waits. */
  lemma {:induction false} EveryRunIsFull(s: State, steps: seq<Step>)
    requires Inv(s) && Full(s) && Run(s, steps)
    ensures Always(s, steps, Full) <==> Each(s, steps, FreesNone)
    decreases |steps|
  {
    hide Inv, Apply, Enabled, FreesNone, Full;
    if steps != [] {
      StepKeepsInv(s, steps[0]);
      StepKeepsFull(s, steps[0]);
      if FreesNone(s, steps[0]) {
        EveryRunIsFull(Apply(s, steps[0]), steps[1..]);
      }
    }
  }

  lemma {:induction false} NoReloadKeeps(s: State, steps: seq<Step>)
    requires Run(s, steps) && forall i :: 0 <= i < |steps| ==> !steps[i].Reload?
    ensures Each(s, steps, Spares) && Each(s, steps, FreesNone) && After(s, steps).limit == s.limit
    decreases |steps|
  {
    if steps != [] {
      NoReloadKeeps(Apply(s, steps[0]), steps[1..]);
    }
  }

  lemma {:induction false} AlwaysAtEnd(s: State, steps: seq<Step>, holds: State -> bool)
    requires Run(s, steps) && Always(s, steps, holds)
    ensures holds(After(s, steps))
    decreases |steps|
  {
    if steps != [] {
      AlwaysAtEnd(Apply(s, steps[0]), steps[1..], holds);
    }
  }

  /** With a limit that is never reloaded, 0 <= count <= limit, and a waiter means that the limit is reached, in
      every interleaving. */
  lemma FixedLimitHolds(s: State, steps: seq<Step>)
    requires Inv(s) && Within(s) && Full(s) && Run(s, steps) && forall i :: 0 <= i < |steps| ==> !steps[i].Reload?
    ensures var t := After(s, steps);
            0 <= t.slots.count <= t.limit == s.limit && (t.slots.waiting != map[] ==> t.slots.count == s.limit)
  {
    EveryRunIsSafe(s, steps);
    NoReloadKeeps(s, steps);
    EveryRunIsWithin(s, steps);
    EveryRunIsFull(s, steps);
    AlwaysAtEnd(s, steps, Within);
    AlwaysAtEnd(s, steps, Full);
  }

  lemma InitialIsSafe(limit: int)
    requires limit > 0
    ensures Inv(Initial(limit)) && Within(Initial(limit)) && Full(Initial(limit))
  {
    assert Owners(Initial(limit)) == {};
  }

  /** A limit lowered under running executions is exceeded, and stays so when one more comes and waits. */
  lemma LoweredLimitIsExceeded()
    ensures var steps := [Begin(0, 1, 0), Begin(1, 1, 0), Reload(1), Begin(2, 1, 1)];
            Run(Initial(2), steps) && !Within(After(Initial(2), steps)) && After(Initial(2), steps).slots.waiting.Keys == {2}
  {
    var steps := [Begin(0, 1, 0), Begin(1, 1, 0), Reload(1), Begin(2, 1, 1)];
    var s1 := Apply(Initial(2), steps[0]);
    var s2 := Apply(s1, steps[1]);
    var s3 := Apply(s2, steps[2]);
    var s4 := Apply(s3, steps[3]);
    assert steps[1..][1..] == steps[2..] && steps[2..][1..] == [steps[3]] && [steps[3]][1..] == [];
    assert Run(s4, []) && After(s4, []) == s4;
    assert Run(s3, [steps[3]]) && After(s3, [steps[3]]) == s4;
    assert Run(s2, steps[2..]) && After(s2, steps[2..]) == s4;
    assert Run(s1, steps[1..]) && After(s1, steps[1..]) == s4;
  }

  /** A limit raised while someone waits leaves the waiter beside a free slot. */
  lemma RaisedLimitFreesASlot()
    ensures var steps := [Begin(0, 1, 0), Begin(1, 1, 0), Reload(2)];
            Run(Initial(1), steps) && !Full(After(Initial(1), steps))
  {
    var steps := [Begin(0, 1, 0), Begin(1, 1, 0), Reload(2)];
    var s1 := Apply(Initial(1), steps[0]);
    var s2 := Apply(s1, steps[1]);
    var s3 := Apply(s2, steps[2]);
    assert steps[1..][1..] == [steps[2]] && [steps[2]][1..] == [];
    assert Run(s3, []) && After(s3, []) == s3;
    assert Run(s2, [steps[2]]) && After(s2, [steps[2]]) == s3;
    assert Run(s1, steps[1..]) && After(s1, steps[1..]) == s3;
  }

  // ---------------------------------------------------------------- above the limit

  /** The step gives a slot up with nobody waiting. */
  predicate GivesBack(s: State, step: Step) {
    (step.End? || step.Sleep?) && In(s, step.id, Running) && s.slots.waiting == map[]
  }

  function GivenBack(s: State, step: Step): nat {
    if GivesBack(s, step) then 1 else 0
  }

  /** At or above the limit the count falls exactly by the slots given up with nobody waiting, since a slot is
      handed on without a look at the limit. */
  lemma OvershootFalls(s: State, step: Step)
    requires Inv(s) && s.slots.count >= s.limit && Enabled(s, step)
    ensures Apply(s, step).slots.count == s.slots.count - GivenBack(s, step)
  {
  }

  ghost function GivesBacks(s: State, steps: seq<Step>): nat
    requires Run(s, steps)
    decreases |steps|
  {
    if steps == [] then 0 else GivenBack(s, steps[0]) + GivesBacks(Apply(s, steps[0]), steps[1..])
  }

  predicate Reached(s: State, step: Step) {
    s.slots.count >= s.limit
  }

  /** Over a run that starts each step at or above the limit, the overshoot ends by such steps alone. */
  lemma {:induction false} OvershootFallsOverRuns(s: State, steps: seq<Step>)
    requires Inv(s) && Run(s, steps) && Each(s, steps, Reached)
    ensures After(s, steps).slots.count == s.slots.count - GivesBacks(s, steps)
    decreases |steps|
  {
    hide Inv, Apply, Enabled, GivenBack;
    if steps != [] {
      StepKeepsInv(s, steps[0]);
      OvershootFalls(s, steps[0]);
      OvershootFallsOverRuns(Apply(s, steps[0]), steps[1..]);
    }
  }

  // ---------------------------------------------------------------- progress

  lemma {:induction false} SomeBest(s: Slots, among: set<Id>) returns (b: Id)
    requires among != {} && among <= s.waiting.Keys
    ensures b in among && forall v :: v in among ==> Before(s.waiting[b], s.waiting[v])
    decreases |among|
  {
    b :| b in among;
    var rest := among - {b};
    assert among == rest + {b};
    if rest != {} {
      var c := SomeBest(s, rest);
      if !Before(s.waiting[b], s.waiting[c]) {
        forall v | v in rest ensures Before(s.waiting[c], s.waiting[v]) {}
        b := c;
      } else {
        forall v | v in rest ensures Before(s.waiting[b], s.waiting[v]) {
          BeforeIsTransitive(s.waiting[b], s.waiting[c], s.waiting[v]);
        }
      }
    }
  }

  lemma BeforeIsTransitive(a: Key, b: Key, c: Key)
    requires Before(a, b) && Before(b, c)
    ensures Before(a, c)
  {
  }

  /** A waiter is never stranded: some owner can move, either a sender whose receiver is there, or a running
      execution whose end then has a waiter to serve. */
  lemma WaitersAreNotStranded(s: State)
    requires Inv(s) && s.slots.waiting != map[]
    ensures exists step :: Enabled(s, step) && (step.Wake? || (step.End? && step.next.Some?))
  {
    var o :| o in Owners(s);
    if s.execs[o].phase.Granted? {
      assert Enabled(s, Wake(s.execs[o].phase.giver));
    } else {
      assert s.slots.waiting.Keys != {};
      var b := SomeBest(s.slots, s.slots.waiting.Keys);
      assert Enabled(s, End(o, Some(b)));
    }
  }

  /** Whoever runs can leave. */
  lemma OwnersCanLeave(s: State, id: Id)
    requires Inv(s) && In(s, id, Running)
    ensures exists next :: Enabled(s, End(id, next)) && Enabled(s, Sleep(id, next)) && (next == None <==> s.slots.waiting == map[])
  {
    if s.slots.waiting == map[] {
      assert Enabled(s, End(id, None));
    } else {
      assert s.slots.waiting.Keys != {};
      var b := SomeBest(s.slots, s.slots.waiting.Keys);
      assert Enabled(s, End(id, Some(b)));
    }
  }

  /** Whoever popped a waiter is never left blocked in its send. */
  lemma SendersAreReceived(s: State, id: Id)
    requires Inv(s) && Sending(s, id)
    ensures Enabled(s, Wake(id)) && In(Apply(s, Wake(id)), s.execs[id].phase.to, Running)
  {
  }

  // ---------------------------------------------------------------- bounded overtaking

  /** The key may be served before one of at least the high priority: it has a higher priority, or may reach the
      same one and is stamped no later. */
  predicate Precedes(k: Key, w: Key) {
    k.priority > w.priority || k.stamp <= w.stamp
  }

  ghost function Ahead(waiting: map<Id, Key>, w: Id): set<Id>
    requires w in waiting
  {
    set v | v in waiting && v != w && Precedes(waiting[v], waiting[w])
  }

  lemma FewerAhead(before: map<Id, Key>, after: map<Id, Key>, w: Id, gone: set<Id>, come: set<Id>)
    requires w in before && w in after && after[w] == before[w]
    requires forall v :: v in after && Precedes(after[v], before[w]) ==> v in come || (v in before && Precedes(before[v], before[w]))
    requires gone <= Ahead(before, w) && gone !! after.Keys
    ensures |Ahead(after, w)| + |gone| <= |Ahead(before, w)| + |come|
  {
    Smaller(Ahead(after, w), (Ahead(before, w) - gone) + come);
    assert Ahead(before, w) == (Ahead(before, w) - gone) + gone;
  }

  /** The step pops a waiter. */
  predicate HandsOff(s: State, step: Step) {
    (step.End? || step.Sleep?) && In(s, step.id, Running) && step.next.Some?
  }

  ghost function HandOffs(s: State, steps: seq<Step>): nat
    requires Run(s, steps)
    decreases |steps|
  {
    if steps == [] then 0
    else (if HandsOff(s, steps[0]) then 1 else 0) + HandOffs(Apply(s, steps[0]), steps[1..])
  }

  /** The step queues a newcomer that may be served before the key w: in the same millisecond, by a clock that went
      back, or with a priority above. */
  predicate Jumps(s: State, step: Step, w: Key)
    requires step.Reacquire? ==> step.id in s.execs
  {
    s.slots.count >= s.limit &&
    match step
    case Begin(_, priority, now) => Precedes(Key(priority, now), w)
    case Reacquire(id, now) => Precedes(Key(s.execs[id].priority, now), w)
    case _ => false
  }

  ghost function Jumpers(s: State, steps: seq<Step>, w: Key): nat
    requires Run(s, steps)
    decreases |steps|
  {
    if steps == [] then 0 else (if Jumps(s, steps[0], w) then 1 else 0) + Jumpers(Apply(s, steps[0]), steps[1..], w)
  }

  /** w is queued in every state of the run. */
  ghost predicate StaysQueued(s: State, steps: seq<Step>, w: Id)
    requires Run(s, steps)
    decreases |steps|
  {
    w in s.slots.waiting && (steps == [] || StaysQueued(Apply(s, steps[0]), steps[1..], w))
  }

  /** Once w has the high priority, a hand-off serves it or shrinks the set of waiters ahead of it, and nothing but
      a newcomer that may be served before it grows that set. */
  lemma OvertakenLess(s: State, step: Step, w: Id)
    requires Inv(s) && Enabled(s, step) && w in s.slots.waiting && s.slots.waiting[w].priority >= HIGH
    ensures var t := Apply(s, step); w !in t.slots.waiting ==> HandsOff(s, step) && step.next == Some(w)
    ensures var t := Apply(s, step); w in t.slots.waiting ==>
              && t.slots.waiting[w] == s.slots.waiting[w]
              && |Ahead(t.slots.waiting, w)| + (if HandsOff(s, step) then 1 else 0)
                 <= |Ahead(s.slots.waiting, w)| + (if Jumps(s, step, s.slots.waiting[w]) then 1 else 0)
  {
    var t := Apply(s, step);
    if w in t.slots.waiting {
      if HandsOff(s, step) {
        assert Before(s.slots.waiting[step.next.value], s.slots.waiting[w]);
        FewerAhead(s.slots.waiting, t.slots.waiting, w, {step.next.value}, {});
      } else if Jumps(s, step, s.slots.waiting[w]) {
        FewerAhead(s.slots.waiting, t.slots.waiting, w, {}, {step.id});
      } else {
        FewerAhead(s.slots.waiting, t.slots.waiting, w, {}, {});
      }
    }
  }

  /** In any run in which w stays queued with the high priority there are at most as many hand-offs as waiters were
      ahead of it and newcomers jumped the queue; so the next hand-off after those serves w. */
  lemma {:induction false} BoundedOvertaking(s: State, steps: seq<Step>, w: Id)
    requires Inv(s) && Run(s, steps) && StaysQueued(s, steps, w) && s.slots.waiting[w].priority >= HIGH
    ensures HandOffs(s, steps) <= |Ahead(s.slots.waiting, w)| + Jumpers(s, steps, s.slots.waiting[w])
    decreases |steps|
  {
    hide Inv, Apply, Enabled, Ahead, Jumps, HandsOff;
    if steps != [] {
      StepKeepsInv(s, steps[0]);
      OvertakenLess(s, steps[0], w);
      BoundedOvertaking(Apply(s, steps[0]), steps[1..], w);
    }
  }

  function Ticks(steps: seq<Step>, w: Id): nat {
    if steps == [] then 0 else (if steps[0] == Tick(w) then 1 else 0) + Ticks(steps[1..], w)
  }

  /** A waiter's priority grows by one a tick up to the high priority, and by nothing else; its stamp stays. */
  lemma {:induction false} AgeingReachesHigh(s: State, steps: seq<Step>, w: Id)
    requires Inv(s) && Run(s, steps) && StaysQueued(s, steps, w) && s.slots.waiting[w].priority <= HIGH
    ensures var t, aged := After(s, steps), s.slots.waiting[w].priority + Ticks(steps, w);
            && w in t.slots.waiting && t.slots.waiting[w].stamp == s.slots.waiting[w].stamp
            && t.slots.waiting[w].priority == if aged < HIGH then aged else HIGH
    decreases |steps|
  {
    if steps != [] {
      var u := Apply(s, steps[0]);
      StepKeepsInv(s, steps[0]);
      assert u.slots.waiting[w] == if steps[0] == Tick(w) then Age(s.slots, w).waiting[w] else s.slots.waiting[w];
      AgeingReachesHigh(u, steps[1..], w);
    }
  }

  // ---------------------------------------------------------------- what is queued

  /** What an execution has asked for: its priority, the time of its last call of wait, the ticks since, and
      whether it has been told to end. */
  datatype Request = Request(priority: int, stamp: int, ticks: nat, ended: bool)

  function Noted(asked: map<Id, Request>, step: Step): map<Id, Request> {
    match step
    case Begin(id, priority, now) => asked[id := Request(priority, now, 0, false)]
    case Reacquire(id, now) => if id in asked then asked[id := asked[id].(stamp := now, ticks := 0)] else asked
    case Tick(id) => if id in asked then asked[id := asked[id].(ticks := asked[id].ticks + 1)] else asked
    case End(id, _) => if id in asked then asked[id := asked[id].(ended := true)] else asked
    case _ => asked
  }

  function Asked(asked: map<Id, Request>, steps: seq<Step>): map<Id, Request>
    decreases |steps|
  {
    if steps == [] then asked else Asked(Noted(asked, steps[0]), steps[1..])
  }

  /** The priority after so many ticks: one more for each, as long as it is below the high one, 4. */
  function Aged(priority: int, ticks: nat): int {
    if priority >= 4 then priority else if priority + ticks < 4 then priority + ticks else 4
  }

  /** An execution keeps the priority it was begun with. */
  predicate PrioritiesAsAsked(s: State, asked: map<Id, Request>) {
    forall id :: id in s.execs ==> (id in asked && asked[id].priority == s.execs[id].priority)
  }

  /** Who is queued is so under the priority asked for, aged, with the time of its last call of wait. */
  predicate KeysAsAsked(s: State, asked: map<Id, Request>) {
    forall id :: id in s.slots.waiting ==>
      (id in asked && s.slots.waiting[id] == Key(Aged(asked[id].priority, asked[id].ticks), asked[id].stamp))
  }

  /** Who has been told to end is over, or is only about to wake the waiter it popped; nobody else is. */
  predicate OverAsAsked(s: State, asked: map<Id, Request>) {
    forall id :: id in s.execs ==>
      (id in asked && (asked[id].ended <==> s.execs[id].phase.Ended? || (s.execs[id].phase.Handing? && !s.execs[id].phase.sleeping)))
  }

  ghost predicate AsAsked(s: State, asked: map<Id, Request>) {
    PrioritiesAsAsked(s, asked) && KeysAsAsked(s, asked) && OverAsAsked(s, asked)
  }

  lemma StepKeepsPriorities(s: State, asked: map<Id, Request>, step: Step)
    requires PrioritiesAsAsked(s, asked) && Enabled(s, step)
    ensures PrioritiesAsAsked(Apply(s, step), Noted(asked, step))
  {
  }

  lemma StepKeepsKeys(s: State, asked: map<Id, Request>, step: Step)
    requires Queued(s) && PrioritiesAsAsked(s, asked) && KeysAsAsked(s, asked) && Enabled(s, step)
    ensures KeysAsAsked(Apply(s, step), Noted(asked, step))
  {
  }

  lemma StepKeepsOver(s: State, asked: map<Id, Request>, step: Step)
    requires OverAsAsked(s, asked) && Enabled(s, step)
    ensures OverAsAsked(Apply(s, step), Noted(asked, step))
  {
  }

  lemma {:induction false} RunKeepsAsked(s: State, asked: map<Id, Request>, steps: seq<Step>)
    requires Inv(s) && Run(s, steps) && AsAsked(s, asked)
    ensures AsAsked(After(s, steps), Asked(asked, steps))
    decreases |steps|
  {
    hide Counted, Matched, Queued, Apply, Enabled, PrioritiesAsAsked, KeysAsAsked, OverAsAsked, Noted;
    if steps != [] {
      StepKeepsInv(s, steps[0]);
      StepKeepsPriorities(s, asked, steps[0]);
      StepKeepsKeys(s, asked, steps[0]);
      StepKeepsOver(s, asked, steps[0]);
      RunKeepsAsked(Apply(s, steps[0]), Noted(asked, steps[0]), steps[1..]);
    }
  }

  /** In every run each waiter is queued under the priority it was begun with plus one for each tick since its last
      call of wait, up to the high one, stamped with the time of that call; and exactly the executions told to end
      are over or about to be. */
  lemma EveryWaiterIsQueuedAsAsked(limit: int, steps: seq<Step>)
    requires limit > 0 && Run(Initial(limit), steps)
    ensures AsAsked(After(Initial(limit), steps), Asked(map[], steps))
  {
    InitialIsSafe(limit);
    RunKeepsAsked(Initial(limit), map[], steps);
  }

  /** Whoever calls wait takes a slot exactly if one is free, and is queued as it asks otherwise, beside those
      queued already. */
  lemma TakesOrQueues(s: State, step: Step)
    requires Inv(s) && Enabled(s, step) && (step.Begin? || step.Reacquire?)
    ensures var t, p := Apply(s, step), if step.Begin? then step.priority else s.execs[step.id].priority;
            if s.slots.count < s.limit then t.slots == Slots(s.slots.count + 1, s.slots.waiting) && In(t, step.id, Running)
            else t.slots == Slots(s.slots.count, s.slots.waiting[step.id := Key(p, step.now)]) && In(t, step.id, Waiting)
  {
  }

  /** Whoever leaves gives its slot back if nobody waits, and otherwise passes it to one that no other beats, who
      leaves the queue as it is for the others. */
  lemma FreesOrHandsOn(s: State, step: Step)
    requires Inv(s) && Enabled(s, step) && (step.End? || step.Sleep?) && In(s, step.id, Running)
    ensures var t := Apply(s, step);
            if s.slots.waiting == map[] then
              t.slots == Slots(s.slots.count - 1, map[]) && In(t, step.id, if step.Sleep? then Sleeping else Ended)
            else
              && step.next.Some? && Best(s.slots, step.next.value)
              && t.slots == Slots(s.slots.count, s.slots.waiting - {step.next.value})
              && In(t, step.id, Handing(step.next.value, step.Sleep?)) && In(t, step.next.value, Granted(step.id))
  {
  }
}
