/** The bounded error group of sync/eagergroup.go, in every interleaving of calls of Go, the goroutines they start
    and a call of Wait. */
module GroupProtocol {
  import opened FiniteSets
  import opened Options

  type Id = nat

  /** Errors of the functions handed to Go are numbered; ctx.Err() is one of the others. */
  datatype Error = Canceled | DeadlineExceeded | Failure(n: nat)

  /** A call of Go: before the first check, before the semaphore, about to report that it is turned away, inside
      errOnce with that, or turned away. Then its goroutine: started, past its check, in the function, with a result
      to report, inside errOnce with it, about to free the semaphore, past that but still in the wait group, or ended
      with its result. */
  datatype Call =
    | Called
    | Acquiring
    | Refused(error: Error)
    | Refusing(error: Error)
    | Rejected
    | Started
    | Checked
    | Running
    | Reporting(result: Option<Error>)
    | Recording(error: Error)
    | Freeing(result: Option<Error>)
    | Exiting(result: Option<Error>)
    | Ended(result: Option<Error>)

  /** sync.Once: nobody came yet, somebody is inside, or it is done. */
  datatype Once = Open | Busy(id: Id) | Shut

  datatype Wait = Before | Waiting | Cancelling | Reading | Returned(err: Option<Error>)

  /** The group's fields, `ctx` being ctx.Err(); the calls; and the history: the errors given to errOnce, in order,
      and the functions that ran, with what they returned. */
  datatype State = State(
    limit: int, ctx: Option<Error>, sem: nat, once: Once, err: Option<Error>,
    calls: map<Id, Call>, wait: Wait, recorded: seq<Error>, ran: map<Id, Option<Error>>)

  datatype Step =
    | Go(id: Id)
    | Check(id: Id)                          // Go reads ctx.Err()
    | Acquire(id: Id)                        // its select sends to the semaphore
    | GiveUp(id: Id)                         // or sees the context done
    | Begin(id: Id)                          // the goroutine reads ctx.Err()
    | Call(id: Id)                           // the function is called
    | Return(id: Id, result: Option<Error>)  // and returns
    | Report(id: Id)                         // errOnce.Do, up to the cancellation if it comes first
    | Cancel(id: Id)                         // the cancellation
    | Free(id: Id)                           // the goroutine receives from the semaphore
    | Exit(id: Id)                           // and leaves the wait group
    | CallWait
    | PassWait                               // wg.Wait() returns
    | CancelWait
    | ReadWait
    | CancelParent(e: Error)

  function Initial(limit: int): State {
    State(limit, None, 0, Open, None, map[], Before, [], map[])
  }

  predicate Is(s: State, id: Id, c: Call) {
    id in s.calls && s.calls[id] == c
  }

  /** The goroutine has a token of the semaphore. */
  predicate HasToken(c: Call) {
    c.Started? || c.Checked? || c.Running? || c.Reporting? || c.Recording? || c.Freeing?
  }

  /** The wait group counts the goroutine. */
  predicate Live(c: Call) {
    HasToken(c) || c.Exiting?
  }

  /** Go has not returned. */
  predicate Pending(c: Call) {
    c.Called? || c.Acquiring? || c.Refused? || c.Refusing?
  }

  /** What is to be reported to errOnce. */
  function ToReport(c: Call): Option<Error> {
    match c
    case Refused(e) => Some(e)
    case Reporting(r) => r
    case _ => None
  }

  predicate Enabled(s: State, step: Step) {
    match step
    case Go(id) => id !in s.calls
    case Check(id) => Is(s, id, Called)
    case Acquire(id) => Is(s, id, Acquiring) && s.sem < s.limit
    case GiveUp(id) => Is(s, id, Acquiring) && s.ctx.Some?
    case Begin(id) => Is(s, id, Started)
    case Call(id) => Is(s, id, Checked)
    case Return(id, _) => Is(s, id, Running)
    case Report(id) =>
      id in s.calls && (s.calls[id].Reporting? || s.calls[id].Refused?) && (ToReport(s.calls[id]).Some? ==> !s.once.Busy?)
    case Cancel(id) => id in s.calls && (s.calls[id].Recording? || s.calls[id].Refusing?)
    case Free(id) => id in s.calls && s.calls[id].Freeing? && (s.limit > 0 ==> s.sem > 0)
    case Exit(id) => id in s.calls && s.calls[id].Exiting?
    case CallWait => s.wait == Before
    case PassWait => s.wait == Waiting && forall id :: id in s.calls ==> !Live(s.calls[id])
    case CancelWait => s.wait == Cancelling
    case ReadWait => s.wait == Reading
    case CancelParent(e) => !e.Failure?
  }

  /** The context is cancelled, unless it was. */
  function Cancelled(s: State, e: Error): State {
    if s.ctx.Some? then s else s.(ctx := Some(e))
  }

  function Moved(s: State, id: Id, c: Call): State {
    s.(calls := s.calls[id := c])
  }

  /** Where a call is past errOnce. */
  function Past(c: Call): Call {
    match c
    case Reporting(r) => Freeing(r)
    case Recording(e) => Freeing(Some(e))
    case _ => Rejected
  }

  /** errOnce.Do: the first to come is inside, with its error kept; the others pass. */
  function Reported(s: State, id: Id): State
    requires id in s.calls
  {
    var c := s.calls[id];
    match ToReport(c)
    case None => Moved(s, id, Past(c))
    case Some(e) =>
      var t := s.(recorded := s.recorded + [e]);
      if s.once.Open? then Moved(t.(once := Busy(id), err := Some(e)), id, if c.Refused? then Refusing(e) else Recording(e))
      else Moved(t, id, Past(c))
  }

  function Apply(s: State, step: Step): State
    requires Enabled(s, step)
  {
    match step
    case Go(id) => Moved(s, id, Called)
    case Check(id) => Moved(s, id, if s.ctx.Some? then Refused(s.ctx.value) else if s.limit > 0 then Acquiring else Started)
    case Acquire(id) => Moved(s.(sem := s.sem + 1), id, Started)
    case GiveUp(id) => Moved(s, id, Refused(s.ctx.value))
    case Begin(id) => Moved(s, id, if s.ctx.Some? then Reporting(s.ctx) else Checked)
    case Call(id) => Moved(s, id, Running)
    case Return(id, result) => Moved(s.(ran := s.ran[id := result]), id, Reporting(result))
    case Report(id) => Reported(s, id)
    case Cancel(id) => Moved(Cancelled(s, Canceled).(once := Shut), id, Past(s.calls[id]))
    case Free(id) => Moved(s.(sem := if s.limit > 0 then s.sem - 1 else s.sem), id, Exiting(s.calls[id].result))
    case Exit(id) => Moved(s, id, Ended(s.calls[id].result))
    case CallWait => s.(wait := Waiting)
    case PassWait => s.(wait := Cancelling)
    case CancelWait => Cancelled(s, Canceled).(wait := Reading)
    case ReadWait => s.(wait := Returned(s.err))
    case CancelParent(e) => Cancelled(s, e)
  }

  // ---------------------------------------------------------------- invariant

  function Holders(calls: map<Id, Call>): set<Id> {
    set id | id in calls && HasToken(calls[id])
  }

  /** The semaphore holds the tokens of the goroutines that have one. */
  ghost predicate Bounded(s: State) {
    s.limit > 0 ==> s.sem == |Holders(s.calls)| <= s.limit
  }

  /** The error is the first recorded; whoever is inside errOnce recorded it, and afterwards the context is done. */
  predicate First(s: State) {
    && (s.once.Open? <==> s.recorded == []) && (s.once.Shut? ==> s.ctx.Some?)
    && s.err == (if s.recorded == [] then None else Some(s.recorded[0]))
    && (s.limit <= 0 ==> forall id :: id in s.calls ==> !s.calls[id].Acquiring?)
  }

  predicate Inside(c: Call) {
    c.Recording? || c.Refusing?
  }

  ghost predicate OneInside(s: State) {
    forall id :: (id in s.calls && Inside(s.calls[id])) <==> s.once == Busy(id)
  }

  /** What the function returned, or why it was not called, once that is known. */
  function Result(c: Call): Option<Option<Error>> {
    match c
    case Reporting(r) => Some(r)
    case Recording(e) => Some(Some(e))
    case Freeing(r) => Some(r)
    case Exiting(r) => Some(r)
    case Ended(r) => Some(r)
    case _ => None
  }

  /** The call has told errOnce of an error. */
  predicate Failed(c: Call) {
    c.Rejected? || Inside(c) || (!c.Reporting? && Result(c).Some? && Result(c).value.Some?)
  }

  /** A call is told as it went: one without an error ran its function, which returned none, and one with an error
      has recorded it. */
  predicate Truthful(s: State, id: Id)
    requires id in s.calls
  {
    var c := s.calls[id];
    && (Failed(c) ==> !s.once.Open?)
    && (!c.Reporting? && Result(c).Some? && Result(c).value.Some? ==> Result(c).value.value in s.recorded)
    && (Result(c) == Some(None) ==> id in s.ran && s.ran[id] == None)
  }

  predicate Told(s: State) {
    forall id :: id in s.calls ==> Truthful(s, id)
  }

  ghost predicate Blamed(s: State) {
    !s.once.Open? ==> exists id :: id in s.calls && Failed(s.calls[id])
  }

  /** A function that ran returned what its call reports. */
  predicate Honest(s: State) {
    forall id :: id in s.ran ==> id in s.calls && Result(s.calls[id]) == Some(s.ran[id])
  }

  ghost predicate Inv(s: State) {
    Bounded(s) && First(s) && OneInside(s) && Told(s) && Blamed(s) && Honest(s)
  }

  function One(b: bool): nat {
    if b then 1 else 0
  }

  lemma HoldersMoved(calls: map<Id, Call>, id: Id, c: Call)
    ensures |Holders(calls[id := c])| == |Holders(calls)| - One(id in calls && HasToken(calls[id])) + One(HasToken(c))
  {
    var rest := Holders(calls) - {id};
    assert Holders(calls[id := c]) == if HasToken(c) then rest + {id} else rest;
    if !(id in calls && HasToken(calls[id])) {
      assert rest == Holders(calls);
    }
  }

  /** The steps of one call. */
  predicate OfCall(step: Step) {
    !step.CallWait? && !step.PassWait? && !step.CancelWait? && !step.ReadWait? && !step.CancelParent?
  }

  lemma StepMoves(s: State, step: Step)
    requires Enabled(s, step)
    ensures Apply(s, step).limit == s.limit
    ensures !OfCall(step) ==> Apply(s, step).calls == s.calls
    ensures OfCall(step) ==> step.id in Apply(s, step).calls && Apply(s, step).calls == s.calls[step.id := Apply(s, step).calls[step.id]]
  {
  }

  lemma StepKeepsBounded(s: State, step: Step)
    requires Bounded(s) && First(s) && Enabled(s, step)
    ensures Bounded(Apply(s, step))
  {
    hide Holders;
    StepMoves(s, step);
    if OfCall(step) {
      HoldersMoved(s.calls, step.id, Apply(s, step).calls[step.id]);
    }
  }

  lemma StepKeepsFirst(s: State, step: Step)
    requires First(s) && OneInside(s) && Enabled(s, step)
    ensures First(Apply(s, step))
  {
    if step.Cancel? {
      assert s.once == Busy(step.id);
    }
  }

  lemma StepKeepsOneInside(s: State, step: Step)
    requires OneInside(s) && Enabled(s, step)
    ensures OneInside(Apply(s, step))
  {
    var t := Apply(s, step);
    StepMoves(s, step);
    if OfCall(step) {
      assert (step.id in s.calls && Inside(s.calls[step.id])) <==> s.once == Busy(step.id);
      assert (step.id in t.calls && Inside(t.calls[step.id])) <==> t.once == Busy(step.id);
    }
  }

  lemma StepKeepsTold(s: State, step: Step)
    requires First(s) && Told(s) && Enabled(s, step)
    ensures Told(Apply(s, step))
  {
    var t := Apply(s, step);
    StepMoves(s, step);
    assert s.recorded <= t.recorded && (t.once.Open? ==> s.once.Open?);
    assert OfCall(step) && step.id in s.calls ==> Truthful(s, step.id);
    forall id | id in t.calls ensures Truthful(t, id) {
      if OfCall(step) && id == step.id {
        StepTells(s, step);
      } else {
        assert Truthful(s, id);
        StillTrue(s, t, id);
      }
    }
  }

  lemma StepTells(s: State, step: Step)
    requires First(s) && Enabled(s, step) && OfCall(step) && (step.id in s.calls ==> Truthful(s, step.id))
    ensures step.id in Apply(s, step).calls && Truthful(Apply(s, step), step.id)
  {
    if step.Report? && ToReport(s.calls[step.id]).Some? {
      var e := ToReport(s.calls[step.id]).value;
      assert (s.recorded + [e])[|s.recorded|] == e;
    }
  }

  lemma StillTrue(s: State, t: State, id: Id)
    requires id in s.calls && Truthful(s, id) && id in t.calls && t.calls[id] == s.calls[id]
    requires s.recorded <= t.recorded && (t.once.Open? ==> s.once.Open?)
    requires id in s.ran ==> id in t.ran && t.ran[id] == s.ran[id]
    ensures Truthful(t, id)
  {
    forall e | e in s.recorded ensures e in t.recorded {
      var i :| 0 <= i < |s.recorded| && s.recorded[i] == e;
      assert t.recorded[i] == e;
    }
  }

  lemma StepKeepsBlamed(s: State, step: Step)
    requires OneInside(s) && Blamed(s) && Enabled(s, step)
    ensures Blamed(Apply(s, step))
  {
    var t := Apply(s, step);
    StepMoves(s, step);
    if !s.once.Open? {
      var id :| id in s.calls && Failed(s.calls[id]);
      assert id in t.calls && Failed(t.calls[id]);
    } else if !t.once.Open? {
      assert step.id in t.calls && Failed(t.calls[step.id]);
    }
  }

  lemma StepKeepsHonest(s: State, step: Step)
    requires Honest(s) && Enabled(s, step)
    ensures Honest(Apply(s, step))
  {
  }

  lemma StepKeepsInv(s: State, step: Step)
    requires Inv(s) && Enabled(s, step)
    ensures Inv(Apply(s, step)) && Apply(s, step).limit == s.limit
  {
    hide Bounded, First, OneInside, Told, Blamed, Honest;
    StepKeepsBounded(s, step);
    StepKeepsFirst(s, step);
    StepKeepsOneInside(s, step);
    StepKeepsTold(s, step);
    StepKeepsBlamed(s, step);
    StepKeepsHonest(s, step);
    StepMoves(s, step);
  }

  // ---------------------------------------------------------------- runs

  ghost predicate Run(s: State, steps: seq<Step>)
    decreases |steps|
  {
    steps == [] || (Enabled(s, steps[0]) && Run(Apply(s, steps[0]), steps[1..]))
  }

  ghost function After(s: State, steps: seq<Step>): State
    requires Run(s, steps)
    decreases |steps|
  {
    if steps == [] then s else After(Apply(s, steps[0]), steps[1..])
  }

  lemma {:induction false} RunAppend(s: State, steps: seq<Step>, step: Step)
    requires Run(s, steps) && Enabled(After(s, steps), step)
    ensures Run(s, steps + [step]) && After(s, steps + [step]) == Apply(After(s, steps), step)
    decreases |steps|
  {
    hide Apply, Enabled;
    if steps == [] {
      assert [] + [step] == [step] && [step][1..] == [];
    } else {
      RunAppend(Apply(s, steps[0]), steps[1..], step);
      assert (steps + [step])[1..] == steps[1..] + [step];
    }
  }

  /** In every interleaving the tokens are within the limit, and so are the functions in progress. */
  lemma {:induction false} EveryRunIsBounded(s: State, steps: seq<Step>)
    requires Inv(s) && Run(s, steps)
    ensures var t := After(s, steps);
            && Inv(t) && t.limit == s.limit
            && (s.limit > 0 ==> t.sem == |Holders(t.calls)| <= s.limit && |InFunction(t.calls)| <= s.limit)
    decreases |steps|
  {
    hide First, OneInside, Told, Blamed, Honest, Holders, Apply, Enabled, InFunction;
    if steps != [] {
      StepKeepsInv(s, steps[0]);
      EveryRunIsBounded(Apply(s, steps[0]), steps[1..]);
    } else {
      FunctionsHaveTokens(s.calls);
    }
  }

  function InFunction(calls: map<Id, Call>): set<Id> {
    set id | id in calls && calls[id].Running?
  }

  lemma FunctionsHaveTokens(calls: map<Id, Call>)
    ensures |InFunction(calls)| <= |Holders(calls)|
  {
    Smaller(InFunction(calls), Holders(calls));
  }

  function Alive(calls: map<Id, Call>): set<Id> {
    set id | id in calls && Live(calls[id])
  }

  function Leaving(calls: map<Id, Call>): set<Id> {
    set id | id in calls && calls[id].Exiting?
  }

  /** The wait group counts the goroutines with a token and those that gave theirs back and are about to leave it:
      with a limit the live ones are more than it exactly if there are more of these than free tokens. */
  lemma LiveExactly(s: State)
    requires Inv(s)
    ensures |Alive(s.calls)| == |Holders(s.calls)| + |Leaving(s.calls)|
    ensures s.limit > 0 ==> (|Alive(s.calls)| > s.limit <==> |Leaving(s.calls)| > s.limit - s.sem)
  {
    assert Alive(s.calls) == Holders(s.calls) + Leaving(s.calls) && Holders(s.calls) !! Leaving(s.calls);
  }

  /** A run taken one step further. */
  lemma Next(limit: int, steps: seq<Step>, s: State, step: Step) returns (more: seq<Step>, t: State)
    requires Run(Initial(limit), steps) && After(Initial(limit), steps) == s && Enabled(s, step)
    ensures more == steps + [step] && t == Apply(s, step)
    ensures Run(Initial(limit), more) && After(Initial(limit), more) == t
  {
    RunAppend(Initial(limit), steps, step);
    more, t := steps + [step], Apply(s, step);
  }

  lemma Start(limit: int)
    ensures Run(Initial(limit), []) && After(Initial(limit), []) == Initial(limit)
  {
  }

  /** With a limit of 1, one call whose goroutine is past its check. */
  lemma OneIsChecked() returns (steps: seq<Step>, s: State)
    ensures Run(Initial(1), steps) && After(Initial(1), steps) == s
    ensures s == State(1, None, 1, Open, None, map[0 := Checked], Before, [], map[])
  {
    hide Run, After;
    Start(1);
    steps, s := Next(1, [], Initial(1), Go(0));
    steps, s := Next(1, steps, s, Check(0));
    steps, s := Next(1, steps, s, Acquire(0));
    steps, s := Next(1, steps, s, Begin(0));
  }

  /** It has given its token back and not yet left the wait group. */
  lemma OneIsLeaving() returns (steps: seq<Step>, s: State)
    ensures Run(Initial(1), steps) && After(Initial(1), steps) == s
    ensures s == State(1, None, 0, Open, None, map[0 := Exiting(None)], Before, [], map[0 := None])
  {
    hide Run, After;
    steps, s := OneIsChecked();
    steps, s := Next(1, steps, s, Call(0));
    steps, s := Next(1, steps, s, Return(0, None));
    steps, s := Next(1, steps, s, Report(0));
    steps, s := Next(1, steps, s, Free(0));
  }

  /** The next call takes the token: two goroutines are live. */
  lemma MoreLiveThanTheLimit() returns (steps: seq<Step>)
    ensures Run(Initial(1), steps) && Alive(After(Initial(1), steps).calls) == {0, 1}
  {
    var s;
    steps, s := OneIsLeaving();
    hide Run, After;
    steps, s := Next(1, steps, s, Go(1));
    steps, s := Next(1, steps, s, Check(1));
    steps, s := Next(1, steps, s, Acquire(1));
    assert s.calls == map[0 := Exiting(None), 1 := Started];
  }

  /** Every call of Go returns before Wait is called. */
  predicate Orderly(s: State, step: Step) {
    (step.Go? ==> s.wait.Before?) && (step.CallWait? ==> forall id :: id in s.calls ==> !Pending(s.calls[id]))
  }

  ghost predicate OrderlyRun(s: State, steps: seq<Step>)
    requires Run(s, steps)
    decreases |steps|
  {
    steps == [] || (Orderly(s, steps[0]) && OrderlyRun(Apply(s, steps[0]), steps[1..]))
  }

  /** Once Wait is called no call is pending, and once wg.Wait() returned all have ended. */
  predicate Settled(s: State) {
    && (!s.wait.Before? ==> forall id :: id in s.calls ==> !Pending(s.calls[id]))
    && (s.wait.Cancelling? || s.wait.Reading? || s.wait.Returned? ==> forall id :: id in s.calls ==> !Live(s.calls[id]))
    && (s.wait.Returned? ==> s.wait.err == s.err)
  }

  lemma StepKeepsSettled(s: State, step: Step)
    requires Settled(s) && Enabled(s, step) && Orderly(s, step)
    ensures Settled(Apply(s, step))
  {
  }

  lemma {:induction false} RunKeepsSettled(s: State, steps: seq<Step>)
    requires Settled(s) && Run(s, steps) && OrderlyRun(s, steps)
    ensures Settled(After(s, steps))
    decreases |steps|
  {
    hide Settled, Orderly, Apply, Enabled;
    if steps != [] {
      StepKeepsSettled(s, steps[0]);
      RunKeepsSettled(Apply(s, steps[0]), steps[1..]);
    }
  }

  /** When every Go returned before Wait was called, Wait returns nil exactly when every function handed to Go ran
      and returned nil, and otherwise the first error recorded, which some call gave. */
  lemma WaitTellsAll(limit: int, steps: seq<Step>)
    requires Run(Initial(limit), steps) && OrderlyRun(Initial(limit), steps)
    requires After(Initial(limit), steps).wait.Returned?
    ensures var s := After(Initial(limit), steps);
            && (s.wait.err == None <==> forall id :: id in s.calls ==> id in s.ran && s.ran[id] == None && !s.calls[id].Rejected?)
            && (s.wait.err.Some? ==> s.recorded != [] && s.wait.err.value == s.recorded[0])
  {
    var s := After(Initial(limit), steps);
    InitialIsSafe(limit);
    EveryRunIsBounded(Initial(limit), steps);
    RunKeepsSettled(Initial(limit), steps);
    SettledTells(s);
  }

  lemma InitialIsSafe(limit: int)
    ensures Inv(Initial(limit))
  {
    assert Holders(Initial(limit).calls) == {};
  }

  lemma SettledTells(s: State)
    requires First(s) && Told(s) && Blamed(s) && Settled(s) && Honest(s) && s.wait.Returned?
    ensures s.err == None <==> forall id :: id in s.calls ==> id in s.ran && s.ran[id] == None && !s.calls[id].Rejected?
  {
    forall id | id in s.calls ensures Truthful(s, id) && (s.calls[id].Ended? || s.calls[id].Rejected?) {}
    if !s.once.Open? {
      var id :| id in s.calls && Failed(s.calls[id]);
      assert s.calls[id].Rejected? || id !in s.ran || s.ran[id] != None;
    }
  }

  // ---------------------------------------------------------------- where errors come from

  /** An error not returned by a function is the context's. */
  predicate CallSourced(s: State, id: Id)
    requires id in s.calls
  {
    var c := s.calls[id];
    && (c.Refused? || c.Refusing? ==> s.ctx == Some(c.error))
    && (Result(c).Some? && Result(c).value.Some? && id !in s.ran ==> s.ctx == Result(c).value)
  }

  predicate CallsSourced(s: State) {
    forall id :: id in s.calls ==> CallSourced(s, id)
  }

  /** The context's error, or what a function returned. */
  ghost predicate FromSomewhere(s: State, e: Error) {
    s.ctx == Some(e) || exists id :: id in s.ran && s.ran[id] == Some(e)
  }

  ghost predicate RecordedSourced(s: State) {
    forall e :: e in s.recorded ==> FromSomewhere(s, e)
  }

  /** The context's error and what functions returned stay. */
  lemma StepKeepsSources(s: State, step: Step)
    requires Honest(s) && Enabled(s, step)
    ensures var t := Apply(s, step);
            (s.ctx.Some? ==> t.ctx == s.ctx) && (forall id :: id in s.ran ==> id in t.ran && t.ran[id] == s.ran[id])
  {
  }

  lemma StepKeepsCallsSourced(s: State, step: Step)
    requires CallsSourced(s) && Honest(s) && Enabled(s, step)
    ensures CallsSourced(Apply(s, step))
  {
    StepMoves(s, step);
    StepKeepsSources(s, step);
    forall id | id in Apply(s, step).calls ensures CallSourced(Apply(s, step), id) {
      if OfCall(step) && id == step.id {
        assert id in s.calls ==> CallSourced(s, id);
      } else {
        assert CallSourced(s, id);
      }
    }
  }

  lemma StepKeepsRecordedSourced(s: State, step: Step)
    requires CallsSourced(s) && RecordedSourced(s) && Honest(s) && Enabled(s, step)
    ensures RecordedSourced(Apply(s, step))
  {
    var t := Apply(s, step);
    StepKeepsSources(s, step);
    forall e | e in t.recorded ensures FromSomewhere(t, e) {
      if e in s.recorded {
        assert FromSomewhere(s, e);
      } else {
        assert step.Report? && CallSourced(s, step.id);
        assert ToReport(s.calls[step.id]) == Some(e);
      }
    }
  }

  lemma {:induction false} RunKeepsSourced(s: State, steps: seq<Step>)
    requires Inv(s) && CallsSourced(s) && RecordedSourced(s) && Run(s, steps)
    ensures CallsSourced(After(s, steps)) && RecordedSourced(After(s, steps))
    decreases |steps|
  {
    hide Bounded, First, OneInside, Told, Blamed, Honest, Apply, Enabled, CallsSourced, RecordedSourced;
    if steps != [] {
      StepKeepsInv(s, steps[0]);
      StepKeepsCallsSourced(s, steps[0]);
      StepKeepsRecordedSourced(s, steps[0]);
      RunKeepsSourced(Apply(s, steps[0]), steps[1..]);
    }
  }

  /** The error of the first cancellation; one that gives no reason of its own makes it Canceled. */
  function FirstCancellation(steps: seq<Step>): Option<Error> {
    if steps == [] then None
    else
      match steps[0]
      case Cancel(_) => Some(Canceled)
      case CancelWait => Some(Canceled)
      case CancelParent(e) => Some(e)
      case _ => FirstCancellation(steps[1..])
  }

  /** What the functions called so far have returned. */
  function Returns(ran: map<Id, Option<Error>>, steps: seq<Step>): map<Id, Option<Error>>
    decreases |steps|
  {
    if steps == [] then ran
    else Returns(if steps[0].Return? then ran[steps[0].id := steps[0].result] else ran, steps[1..])
  }

  lemma StepIsToldBy(s: State, step: Step)
    requires Enabled(s, step)
    ensures Apply(s, step).ctx == if s.ctx.Some? then s.ctx else FirstCancellation([step])
    ensures Apply(s, step).ran == if step.Return? then s.ran[step.id := step.result] else s.ran
    ensures Apply(s, step).wait.Before? <==> s.wait.Before? && !step.CallWait?
  {
    assert [step][1..] == [];
  }

  lemma {:induction false} RunIsToldBy(s: State, steps: seq<Step>)
    requires Run(s, steps)
    ensures After(s, steps).ctx == if s.ctx.Some? then s.ctx else FirstCancellation(steps)
    ensures After(s, steps).ran == Returns(s.ran, steps)
    ensures After(s, steps).wait.Before? <==> s.wait.Before? && CallWait !in steps
    decreases |steps|
  {
    hide Apply, Enabled;
    if steps != [] {
      StepIsToldBy(s, steps[0]);
      assert [steps[0]][1..] == [];
      RunIsToldBy(Apply(s, steps[0]), steps[1..]);
    }
  }

  /** In every run each error given to errOnce, and so the one Wait returns, was returned by a function or is the
      context's, which is that of the first cancellation. */
  lemma ErrorsHaveSources(limit: int, steps: seq<Step>)
    requires Run(Initial(limit), steps)
    ensures var s := After(Initial(limit), steps);
            && s.ctx == FirstCancellation(steps) && s.ran == Returns(map[], steps) && (s.wait.Before? <==> CallWait !in steps)
            && (forall e :: e in s.recorded ==> FromSomewhere(s, e)) && (s.err.Some? ==> FromSomewhere(s, s.err.value))
  {
    InitialIsSafe(limit);
    EveryRunIsBounded(Initial(limit), steps);
    RunKeepsSourced(Initial(limit), steps);
    RunIsToldBy(Initial(limit), steps);
  }

  // ---------------------------------------------------------------- once the context is done

  /** Functions in progress or done. */
  function Begun(s: State): set<Id> {
    InFunction(s.calls) + s.ran.Keys
  }

  /** Goroutines between their check of the context and the call of their function. */
  function Committed(s: State): set<Id> {
    set id | id in s.calls && s.calls[id].Checked?
  }

  lemma StepCommitsNobodyOnceDone(s: State, step: Step)
    requires Enabled(s, step) && s.ctx.Some?
    ensures var t := Apply(s, step); t.ctx.Some? && Begun(t) + Committed(t) <= Begun(s) + Committed(s)
  {
  }

  /** Once the context is done, nobody passes the check any more. */
  lemma {:induction false} NobodyCommitsOnceDone(s: State, steps: seq<Step>)
    requires Run(s, steps) && s.ctx.Some?
    ensures var t := After(s, steps); Begun(t) + Committed(t) <= Begun(s) + Committed(s)
    decreases |steps|
  {
    hide Begun, Committed, Apply, Enabled;
    if steps != [] {
      StepCommitsNobodyOnceDone(s, steps[0]);
      NobodyCommitsOnceDone(Apply(s, steps[0]), steps[1..]);
    }
  }

  /** So the functions that begin once the context is done are of goroutines past their check by then, with a limit
      no more than it; a call that was not past it never begins. */
  lemma LateBeginners(s: State, steps: seq<Step>)
    requires Inv(s) && Run(s, steps) && s.ctx.Some?
    ensures var late := Begun(After(s, steps)) - Begun(s); late <= Committed(s) && (s.limit > 0 ==> |late| <= s.limit)
  {
    NobodyCommitsOnceDone(s, steps);
    var late := Begun(After(s, steps)) - Begun(s);
    hide Begun;
    Smaller(late, Committed(s));
    Smaller(Committed(s), Holders(s.calls));
  }

  /** Once the context is done no further function begins, whatever run follows, if and only if no goroutine is past
      its check. */
  lemma NothingBeginsExactly(s: State)
    requires Inv(s) && s.ctx.Some?
    ensures (forall steps :: Run(s, steps) ==> Begun(After(s, steps)) <= Begun(s)) <==> Committed(s) == {}
  {
    hide Inv, Begun, Committed, Run, After;
    if Committed(s) == {} {
      forall steps | Run(s, steps) ensures Begun(After(s, steps)) <= Begun(s) {
        NobodyIsLate(s, steps);
      }
    } else {
      var id :| id in Committed(s);
      CheckedBegins(s, id);
    }
  }

  lemma NobodyIsLate(s: State, steps: seq<Step>)
    requires Inv(s) && Run(s, steps) && s.ctx.Some? && Committed(s) == {}
    ensures Begun(After(s, steps)) <= Begun(s)
  {
    hide Inv, Begun, Committed, Run, After;
    LateBeginners(s, steps);
    var t := After(s, steps);
    assert Begun(t) <= (Begun(t) - Begun(s)) + Begun(s) && Begun(t) - Begun(s) == {};
  }

  lemma CheckedBegins(s: State, id: Id)
    requires Inv(s) && id in Committed(s)
    ensures Run(s, [Call(id)]) && !(Begun(After(s, [Call(id)])) <= Begun(s))
  {
    hide Bounded, First, OneInside, Told, Blamed;
    var t := Apply(s, Call(id));
    assert [Call(id)][1..] == [] && Run(t, []) && After(t, []) == t;
    assert id in Begun(t);
  }

  /** A call that is turned away or about to be, or does not exist yet. */
  predicate TurnedAway(s: State, id: Id) {
    id !in s.calls || s.calls[id].Called? || s.calls[id].Refused? || s.calls[id].Refusing? || s.calls[id].Rejected?
  }

  lemma StepTurnsAway(s: State, step: Step, id: Id)
    requires Enabled(s, step) && s.ctx.Some? && TurnedAway(s, id)
    ensures Apply(s, step).ctx.Some? && TurnedAway(Apply(s, step), id)
  {
  }

  /** Once the context is done, a call of Go that has not checked it yet never starts a goroutine, and neither does a
      later one. */
  lemma {:induction false} NothingNewStarts(s: State, steps: seq<Step>, id: Id)
    requires Run(s, steps) && s.ctx.Some? && TurnedAway(s, id)
    ensures TurnedAway(After(s, steps), id)
    decreases |steps|
  {
    hide Apply, Enabled, TurnedAway;
    if steps != [] {
      StepTurnsAway(s, steps[0], id);
      NothingNewStarts(Apply(s, steps[0]), steps[1..], id);
    }
  }

  /** A run in which a function begins once the context is done. */
  lemma BeginsLate() returns (steps: seq<Step>, s: State)
    ensures Run(Initial(0), steps) && After(Initial(0), steps) == s && s.ctx == Some(Canceled) && Begun(s) == {}
    ensures Run(s, [Call(0)]) && Begun(After(s, [Call(0)])) == {0}
  {
    steps, s := Next(0, [], Initial(0), Go(0));
    steps, s := Next(0, steps, s, Check(0));
    steps, s := Next(0, steps, s, Begin(0));
    steps, s := Next(0, steps, s, CancelParent(Canceled));
    assert s.calls == map[0 := Checked];
    var t := Apply(s, Call(0));
    assert [Call(0)][1..] == [] && Run(t, []) && After(t, []) == t;
  }

  // ---------------------------------------------------------------- progress

  /** A goroutine with a token finds one in the semaphore. */
  lemma TokenHeld(s: State, id: Id)
    requires Inv(s) && id in s.calls && HasToken(s.calls[id])
    ensures s.limit > 0 ==> s.sem > 0
  {
    hide First, OneInside, Told, Blamed, Honest;
    assert id in Holders(s.calls);
  }

  /** The steps of calls, goroutines and a Wait under way. */
  predicate Moves(step: Step) {
    !step.Go? && !step.CallWait? && !step.CancelParent?
  }

  /** A goroutine can go on, unless it waits for errOnce, and then whoever is inside can. */
  lemma LiveIsNotStranded(s: State, id: Id)
    requires Inv(s) && id in s.calls && (Live(s.calls[id]) || s.calls[id].Refused? || s.calls[id].Refusing?)
    ensures exists step: Step :: Enabled(s, step) && Moves(step)
  {
    hide Told, Blamed, Honest;
    var c := s.calls[id];
    if c.Started? {
      assert Enabled(s, Begin(id));
    } else if c.Checked? {
      assert Enabled(s, Call(id));
    } else if c.Running? {
      assert Enabled(s, Return(id, None));
    } else if c.Freeing? {
      TokenHeld(s, id);
      assert Enabled(s, Free(id));
    } else if c.Exiting? {
      assert Enabled(s, Exit(id));
    } else if Inside(c) {
      assert Enabled(s, Cancel(id));
    } else if s.once.Busy? {
      assert s.once.id in s.calls && Inside(s.calls[s.once.id]);
      assert Enabled(s, Cancel(s.once.id));
    } else {
      assert Enabled(s, Report(id));
    }
  }

  /** A call of Go never waits for ever: it can go on, or a live goroutine can, whose function returns. */
  lemma NobodyIsStranded(s: State, id: Id)
    requires Inv(s) && id in s.calls && (Pending(s.calls[id]) || Live(s.calls[id]))
    ensures exists step: Step :: Enabled(s, step) && Moves(step)
  {
    if s.calls[id].Called? {
      assert Enabled(s, Check(id));
    } else if s.calls[id].Acquiring? && s.sem < s.limit {
      assert Enabled(s, Acquire(id));
    } else if s.calls[id].Acquiring? {
      assert s.limit > 0 && Holders(s.calls) != {};
      var j :| j in Holders(s.calls);
      LiveIsNotStranded(s, j);
    } else {
      LiveIsNotStranded(s, id);
    }
  }

  /** A Wait under way can go on, or a live goroutine can. */
  lemma WaitIsNotStranded(s: State)
    requires Inv(s) && (s.wait.Waiting? || s.wait.Cancelling? || s.wait.Reading?)
    ensures exists step: Step :: Enabled(s, step) && Moves(step)
  {
    if s.wait.Cancelling? {
      assert Enabled(s, CancelWait);
    } else if s.wait.Reading? {
      assert Enabled(s, ReadWait);
    } else if id :| id in s.calls && Live(s.calls[id]) {
      LiveIsNotStranded(s, id);
    } else {
      assert Enabled(s, PassWait);
    }
  }

  function CallRank(c: Call): nat {
    match c
    case Called => 9 case Acquiring => 8 case Started => 7 case Checked => 6 case Running => 5 case Reporting(_) => 4
    case Recording(_) => 3 case Freeing(_) => 2 case Exiting(_) => 1 case Ended(_) => 0
    case Refused(_) => 2 case Refusing(_) => 1 case Rejected => 0
  }

  function WaitRank(w: Wait): nat {
    match w
    case Before => 0 case Waiting => 3 case Cancelling => 2 case Reading => 1 case Returned(_) => 0
  }

  function Ranks(calls: map<Id, Call>): map<nat, nat> {
    map id | id in calls :: CallRank(calls[id])
  }

  /** The steps they have left at most. */
  ghost function Work(s: State): nat {
    Sum(Ranks(s.calls)) + WaitRank(s.wait)
  }

  lemma MovedLessWork(calls: map<Id, Call>, id: Id, c: Call)
    requires id in calls && CallRank(c) < CallRank(calls[id])
    ensures Sum(Ranks(calls[id := c])) < Sum(Ranks(calls))
  {
    SumFalls(Ranks(calls), id, CallRank(c));
    assert Ranks(calls[id := c]) == Ranks(calls)[id := CallRank(c)];
  }

  lemma MoveLessWork(s: State, step: Step)
    requires Enabled(s, step) && !step.Go? && !step.CallWait?
    ensures Work(Apply(s, step)) + (if Moves(step) then 1 else 0) <= Work(s)
  {
    hide Sum, Ranks;
    StepMoves(s, step);
    if Moves(step) && OfCall(step) {
      MovedLessWork(s.calls, step.id, Apply(s, step).calls[step.id]);
    }
  }

  ghost function Count(steps: seq<Step>): nat {
    if steps == [] then 0 else (if Moves(steps[0]) then 1 else 0) + Count(steps[1..])
  }

  /** So calls end: with no new call of Go or Wait, and functions that return, all of them together take no more
      steps than they have left. */
  lemma {:induction false} CallsEnd(s: State, steps: seq<Step>)
    requires Run(s, steps) && forall i :: 0 <= i < |steps| ==> !steps[i].Go? && !steps[i].CallWait?
    ensures Count(steps) + Work(After(s, steps)) <= Work(s)
    decreases |steps|
  {
    hide Apply, Enabled, Work;
    if steps != [] {
      MoveLessWork(s, steps[0]);
      CallsEnd(Apply(s, steps[0]), steps[1..]);
    }
  }
}

/** The object itself: what each of its goroutines does when it does not block. Its trace is a run of the protocol,
    so whatever holds of every run holds of it. */
module EagerGroups {
  import opened Options
  import opened GroupProtocol

  class EagerGroup {
    const limit: int
    var ctx: Option<Error>  // ctx.Err()
    var sem: nat            // tokens in the semaphore; there is none without a limit
    var once: bool
    var err: Option<Error>
    ghost var s: State
    ghost var trace: seq<Step>

    ghost predicate Traced()
      reads this
    {
      Run(Initial(limit), trace) && After(Initial(limit), trace) == s && Inv(s) && s.limit == limit
    }

    ghost predicate Valid()
      reads this
    {
      Traced() && s.ctx == ctx && s.sem == sem && s.once == (if once then Shut else Open) && s.err == err
    }

    constructor (limit: int)
      ensures Valid() && this.limit == limit && trace == [] && s == Initial(limit)
    {
      this.limit, ctx, sem, once, err := limit, None, 0, false, None;
      s, trace := Initial(limit), [];
      new;
      assert Holders(map[]) == {};
    }

    ghost method Take(step: Step)
      requires Traced() && Enabled(s, step)
      modifies this`s, this`trace
      ensures Traced() && s == Apply(old(s), step) && trace == old(trace) + [step]
    {
      hide Inv, Apply, Enabled;
      RunAppend(Initial(limit), trace, step);
      StepKeepsInv(s, step);
      s, trace := Apply(s, step), trace + [step];
    }

    /** errOnce.Do, with the function that keeps the error and cancels. */
    method Record(ghost id: Id, e: Error)
      requires Valid() && id in s.calls && ToReport(s.calls[id]) == Some(e)
      modifies this`once, this`err, this`ctx, this`s, this`trace
      ensures Valid() && once && err == (if old(once) then old(err) else Some(e)) && s.wait == old(s.wait) && s.ran == old(s.ran)
      ensures ctx == if old(once) || old(ctx).Some? then old(ctx) else Some(Canceled)
      ensures s.calls == old(s.calls)[id := Past(old(s.calls)[id])]
    {
      hide Inv, Run, After;
      Take(Report(id));
      if !once {
        err := Some(e);
        if ctx.None? {
          ctx := Some(Canceled);
        }
        once := true;
        Take(Cancel(id));
      }
    }

    /** Go, when its select does not block. */
    method Go(ghost id: Id) returns (started: bool)
      requires Valid() && id !in s.calls && (limit > 0 ==> sem < limit || ctx.Some?)
      modifies this
      ensures Valid() && s.calls == old(s.calls)[id := if started then Started else Rejected] && s.wait == old(s.wait)
      ensures started ==> ctx == old(ctx) == None && err == old(err)
      ensures !started ==> old(ctx).Some? && once && err == (if old(once) then old(err) else old(ctx))
    {
      hide Inv, Run, After;
      Take(Step.Go(id));
      Take(Check(id));
      if ctx.Some? {
        Record(id, ctx.value);
        return false;
      }
      if limit > 0 {
        sem := sem + 1;
        Take(Acquire(id));
      }
      return true;
    }

    /** The goroutine, whose function returns `result` if it is called. */
    method Body(ghost id: Id, result: Option<Error>) returns (ran: bool)
      requires Valid() && id in s.calls && s.calls[id].Started?
      modifies this
      ensures Valid() && s.wait == old(s.wait) && ran == old(ctx).None?
      ensures s.ran == if ran then old(s.ran)[id := result] else old(s.ran)
      ensures s.calls == old(s.calls)[id := Ended(if ran then result else old(ctx))]
      ensures err == if old(once) || (ran && result.None?) then old(err) else if ran then result else old(ctx)
    {
      hide Inv, Run, After;
      ran := ctx.None?;
      var e := RunFunction(id, result);
      Settle(id, e);
      Leave(id, e);
    }

    /** The goroutine up to the function's return; e is what it has to report. */
    method RunFunction(ghost id: Id, result: Option<Error>) returns (e: Option<Error>)
      requires Valid() && id in s.calls && s.calls[id].Started?
      modifies this`s, this`trace
      ensures Valid() && s.wait == old(s.wait) && e == (if ctx.None? then result else ctx)
      ensures s.ran == if ctx.None? then old(s.ran)[id := result] else old(s.ran)
      ensures s.calls == old(s.calls)[id := Reporting(e)]
    {
      hide Inv, Run, After;
      Take(Begin(id));
      e := ctx;
      if e.None? {
        Take(Step.Call(id));
        e := result;
        Take(Return(id, result));
      }
    }

    /** The goroutine tells errOnce of an error. */
    method Settle(ghost id: Id, e: Option<Error>)
      requires Valid() && id in s.calls && s.calls[id] == Reporting(e)
      modifies this`once, this`err, this`ctx, this`s, this`trace
      ensures Valid() && s.wait == old(s.wait) && s.ran == old(s.ran) && s.calls == old(s.calls)[id := Freeing(e)]
      ensures err == if old(once) || e.None? then old(err) else e
    {
      hide Inv, Run, After;
      if e.Some? {
        Record(id, e.value);
      } else {
        Take(Report(id));
      }
    }

    /** The end of the goroutine, that of wg.Go included. */
    method Leave(ghost id: Id, e: Option<Error>)
      requires Valid() && id in s.calls && s.calls[id] == Freeing(e)
      modifies this`sem, this`s, this`trace
      ensures Valid() && s.wait == old(s.wait) && s.ran == old(s.ran) && s.calls == old(s.calls)[id := Ended(e)]
    {
      hide Inv, Run, After;
      TokenHeld(s, id);
      if limit > 0 {
        sem := sem - 1;
      }
      Take(Free(id));
      Take(Exit(id));
    }

    /** Wait, once the wait group is at zero. */
    method Wait() returns (e: Option<Error>)
      requires Valid() && s.wait.Before? && forall id :: id in s.calls ==> !Live(s.calls[id])
      modifies this
      ensures Valid() && s.wait == Returned(e) && e == err == old(err) && s.calls == old(s.calls)
      ensures ctx == if old(ctx).Some? then old(ctx) else Some(Canceled)
    {
      hide Inv, Run, After, Live;
      Take(CallWait);
      Take(PassWait);
      e := CancelAndRead();
    }

    /** The rest of Wait. */
    method CancelAndRead() returns (e: Option<Error>)
      requires Valid() && s.wait.Cancelling?
      modifies this`ctx, this`s, this`trace
      ensures Valid() && s.wait == Returned(e) && e == err && s.calls == old(s.calls)
      ensures ctx == if old(ctx).Some? then old(ctx) else Some(Canceled)
    {
      hide Inv, Run, After;
      if ctx.None? {
        ctx := Some(Canceled);
      }
      Take(CancelWait);
      e := err;
      Take(ReadWait);
    }
  }
}
