/** The sender, receiver and closers of async/single_sender.go, in every interleaving of one sending goroutine, one
    receiver that may leave, and any number of goroutines that call Close. */
module SenderProtocol {
  import opened FiniteSets
  import opened Subsequences

  /** Where the sending goroutine is: outside Send, before the mutex, inside it, in the select, or about to unlock. */
  datatype Sender<T> = Outside | Calling(value: T) | Inside(value: T) | Selecting(value: T) | Unlocking

  /** Where a call of Close is: before each of its cancellations, before the mutex, inside it, about to close the
      channel, about to unlock, or returned. */
  datatype Closer = Starting | Cancelling | Waiting | Checking | Closing | Leaving | Returned

  /** Where the receiver is: doing something else, in a receive, or told that the channel is closed. */
  datatype Receiver = Busy | Receiving | Finished

  datatype Owner = Nobody | TheSender | TheCloser(id: nat)

  /** The shared fields; the goroutines; and the history: values given to Send, how each call that got past its
      decision ended (true: delivered), values received, and how many calls had ended when the send context was
      first cancelled. `shut` counts the closes of the channel. */
  datatype State<T> = State(
    panicked: bool, closed: bool, shut: nat, sendDone: bool, ctxDone: bool, mutex: Owner,
    sender: Sender<T>, closers: map<nat, Closer>, receiver: Receiver,
    sent: seq<T>, delivered: seq<bool>, received: seq<T>, before: nat)

  function Initial<T>(): State<T> {
    State(false, false, 0, false, false, Nobody, Outside, map[], Busy, [], [], [], 0)
  }

  datatype Step<T> =
    | Send(value: T)      // Send is called
    | LockSend            // and takes the mutex
    | CheckClosed         // reads closed
    | Deliver             // the select sends
    | SendOnClosed        // the select meets a closed channel
    | GiveUp              // the select sees the send context cancelled
    | UnlockSend
    | Close(id: nat)      // Close is called
    | Advance(id: nat)    // and does its next statement
    | Receive             // the receiver goes to receive
    | SeeClosed           // and learns that the channel is closed
    | Leave               // the function given to the receiver
    | CancelParent

  predicate Enabled<T>(s: State<T>, step: Step<T>) {
    match step
    case Send(_) => s.sender.Outside?
    case LockSend => s.sender.Calling? && s.mutex == Nobody
    case CheckClosed => s.sender.Inside?
    case Deliver => s.sender.Selecting? && s.receiver.Receiving? && s.shut == 0
    case SendOnClosed => s.sender.Selecting? && s.shut > 0
    case GiveUp => s.sender.Selecting? && s.sendDone
    case UnlockSend => s.sender.Unlocking?
    case Close(id) => id !in s.closers
    case Advance(id) => id in s.closers && !s.closers[id].Returned? && (s.closers[id].Waiting? ==> s.mutex == Nobody)
    case Receive => s.receiver.Busy?
    case SeeClosed => s.receiver.Receiving? && s.shut > 0
    case Leave => true
    case CancelParent => true
  }

  /** The send context is cancelled. */
  function Cancelled<T>(s: State<T>): State<T> {
    s.(sendDone := true, before := if s.sendDone then s.before else |s.delivered|)
  }

  /** A call of Send ends its decision. */
  function Decided<T>(s: State<T>, ok: bool): State<T> {
    s.(sender := Unlocking, delivered := s.delivered + [ok])
  }

  /** The next place of a closer; one that would close the channel twice panics where it is. */
  function Next<T>(s: State<T>, closer: Closer): Closer {
    match closer
    case Starting => Cancelling
    case Cancelling => Waiting
    case Waiting => Checking
    case Checking => if s.closed then Leaving else Closing
    case Closing => if s.shut > 0 then Closing else Leaving
    case Leaving => Returned
    case Returned => Returned
  }

  function AdvanceCloser<T>(s: State<T>, id: nat): State<T>
    requires id in s.closers
  {
    var t := s.(closers := s.closers[id := Next(s, s.closers[id])]);
    match s.closers[id]
    case Starting => t.(ctxDone := true)
    case Cancelling => Cancelled(t)
    case Waiting => t.(mutex := TheCloser(id))
    case Checking => t.(closed := true)
    case Closing => if s.shut > 0 then t.(panicked := true) else t.(shut := s.shut + 1)
    case Leaving => t.(mutex := Nobody)
    case Returned => t
  }

  function Apply<T>(s: State<T>, step: Step<T>): State<T>
    requires Enabled(s, step)
  {
    match step
    case Send(v) => s.(sender := Calling(v), sent := s.sent + [v])
    case LockSend => s.(sender := Inside(s.sender.value), mutex := TheSender)
    case CheckClosed => if s.closed then Decided(s, false) else s.(sender := Selecting(s.sender.value))
    case Deliver => Decided(s, true).(received := s.received + [s.sender.value], receiver := Busy)
    case SendOnClosed => s.(panicked := true)
    case GiveUp => Decided(s, false).(ctxDone := true)
    case UnlockSend => s.(sender := Outside, mutex := Nobody)
    case Close(id) => s.(closers := s.closers[id := Starting])
    case Advance(id) => AdvanceCloser(s, id)
    case Receive => s.(receiver := Receiving)
    case SeeClosed => s.(receiver := Finished)
    case Leave => Cancelled(s)
    case CancelParent => s.(ctxDone := true)
  }

  // ---------------------------------------------------------------- invariant

  /** The values of the calls that delivered. */
  function Kept<T>(sent: seq<T>, delivered: seq<bool>): (r: seq<T>)
    requires |delivered| <= |sent|
    ensures |r| <= |delivered|
  {
    if delivered == [] then []
    else
      var n := |delivered| - 1;
      Kept(sent, delivered[..n]) + (if delivered[n] then [sent[n]] else [])
  }

  predicate Owns<T>(s: State<T>, id: nat) {
    id in s.closers && (s.closers[id].Checking? || s.closers[id].Closing? || s.closers[id].Leaving?)
  }

  /** The mutex's owner is the goroutine inside. */
  ghost predicate Exclusive<T>(s: State<T>) {
    && (s.mutex == TheSender <==> s.sender.Inside? || s.sender.Selecting? || s.sender.Unlocking?)
    && (forall id :: Owns(s, id) <==> s.mutex == TheCloser(id))
  }

  predicate MidClose<T>(s: State<T>) {
    s.mutex.TheCloser? && s.mutex.id in s.closers && s.closers[s.mutex.id].Closing?
  }

  /** The channel is closed once, by the closer that set the flag, and never while a send is under way. */
  ghost predicate ShutOnce<T>(s: State<T>) {
    && !s.panicked
    && s.shut == (if s.closed && !MidClose(s) then 1 else 0)
    && (s.sender.Selecting? ==> !s.closed)
    && (forall id :: id in s.closers && s.closers[id].Closing? ==> s.closed)
    && (forall id :: id in s.closers && (s.closers[id].Leaving? || s.closers[id].Returned?) ==> s.closed && s.shut == 1)
  }

  /** Both contexts are cancelled before the flag is set. */
  ghost predicate CancelsFirst<T>(s: State<T>) {
    && (s.closed ==> s.sendDone && s.ctxDone)
    && (forall id :: id in s.closers && !s.closers[id].Starting? ==> s.ctxDone)
    && (forall id :: id in s.closers && !s.closers[id].Starting? && !s.closers[id].Cancelling? ==> s.sendDone)
  }

  /** What is received is what was sent, in order, less the calls that gave up, of which there is none before the
      send context is cancelled, and which leave the sender's own context cancelled. */
  predicate InOrder<T(==)>(s: State<T>) {
    && |s.sent| == |s.delivered| + (if s.sender.Outside? || s.sender.Unlocking? then 0 else 1)
    && (!s.sender.Outside? && !s.sender.Unlocking? ==> s.sent[|s.delivered|] == s.sender.value)
    && s.received == Kept(s.sent, s.delivered)
    && s.before <= |s.delivered|
    && (forall i :: 0 <= i < |s.delivered| && !s.delivered[i] ==> s.ctxDone && s.sendDone && s.before <= i)
  }

  ghost predicate Inv<T>(s: State<T>) {
    Exclusive(s) && ShutOnce(s) && CancelsFirst(s) && InOrder(s)
  }

  lemma KeptAppend<T>(sent: seq<T>, delivered: seq<bool>, ok: bool)
    requires |delivered| < |sent|
    ensures Kept(sent, delivered + [ok]) == Kept(sent, delivered) + (if ok then [sent[|delivered|]] else [])
  {
    assert (delivered + [ok])[..|delivered|] == delivered;
  }

  lemma {:induction false} KeptOfMore<T>(sent: seq<T>, more: seq<T>, delivered: seq<bool>)
    requires |delivered| <= |sent|
    ensures Kept(sent + more, delivered) == Kept(sent, delivered)
  {
    if delivered != [] {
      KeptOfMore(sent, more, delivered[..|delivered| - 1]);
    }
  }

  lemma StepKeepsOrder<T>(s: State<T>, step: Step<T>)
    requires Inv(s) && Enabled(s, step)
    ensures InOrder(Apply(s, step))
  {
    hide Exclusive, Kept;
    match step
    case Send(v) => KeptOfMore(s.sent, [v], s.delivered);
    case CheckClosed => KeptAppend(s.sent, s.delivered, false);
    case Deliver => KeptAppend(s.sent, s.delivered, true);
    case GiveUp => KeptAppend(s.sent, s.delivered, false);
    case _ =>
  }

  lemma StepKeepsExclusive<T>(s: State<T>, step: Step<T>)
    requires Exclusive(s) && Enabled(s, step)
    ensures Exclusive(Apply(s, step))
  {
    if step.Advance? {
      AdvanceKeepsExclusive(s, step.id);
    } else {
      forall id ensures Owns(s, id) <==> Owns(Apply(s, step), id) {}
    }
  }

  lemma AdvanceKeepsExclusive<T>(s: State<T>, id: nat)
    requires Exclusive(s) && Enabled(s, Step<T>.Advance(id))
    ensures Exclusive(AdvanceCloser(s, id))
  {
    var t, closer := AdvanceCloser(s, id), s.closers[id];
    assert t.sender == s.sender && t.closers == s.closers[id := Next(s, closer)];
    assert t.mutex == if closer.Waiting? then TheCloser(id) else if closer.Leaving? then Nobody else s.mutex;
    hide AdvanceCloser;
    assert Owns(s, id) <==> s.mutex == TheCloser(id);
    assert Owns(t, id) <==> t.mutex == TheCloser(id);
    forall j ensures Owns(t, j) <==> t.mutex == TheCloser(j) {
      if j != id {
        assert Owns(t, j) <==> Owns(s, j);
      }
    }
  }

  lemma StepKeepsShutOnce<T>(s: State<T>, step: Step<T>)
    requires Exclusive(s) && ShutOnce(s) && Enabled(s, step)
    ensures ShutOnce(Apply(s, step))
  {
    if step.Advance? {
      assert Owns(s, step.id) <==> s.mutex == TheCloser(step.id);
      assert Apply(s, step).closers == s.closers[step.id := Next(s, s.closers[step.id])];
      hide Exclusive;
    }
  }

  lemma OpenUntilClosed<T>(s: State<T>)
    requires Inv(s)
    ensures s.shut == if s.closed && !MidClose(s) then 1 else 0
    ensures s.closed ==> s.ctxDone && s.sendDone
  {
    hide Exclusive, InOrder;
  }

  lemma StepKeepsCancelsFirst<T>(s: State<T>, step: Step<T>)
    requires CancelsFirst(s) && Enabled(s, step)
    ensures CancelsFirst(Apply(s, step))
  {
  }

  lemma StepKeepsInv<T>(s: State<T>, step: Step<T>)
    requires Inv(s) && Enabled(s, step)
    ensures Inv(Apply(s, step))
  {
    hide Exclusive, ShutOnce, CancelsFirst, InOrder;
    StepKeepsExclusive(s, step);
    StepKeepsShutOnce(s, step);
    StepKeepsCancelsFirst(s, step);
    StepKeepsOrder(s, step);
  }

  // ---------------------------------------------------------------- runs

  ghost predicate Run<T>(s: State<T>, steps: seq<Step<T>>)
    decreases |steps|
  {
    steps == [] || (Enabled(s, steps[0]) && Run(Apply(s, steps[0]), steps[1..]))
  }

  ghost function After<T>(s: State<T>, steps: seq<Step<T>>): State<T>
    requires Run(s, steps)
    decreases |steps|
  {
    if steps == [] then s else After(Apply(s, steps[0]), steps[1..])
  }

  lemma {:induction false} RunAppend<T>(s: State<T>, steps: seq<Step<T>>, step: Step<T>)
    requires Run(s, steps) && Enabled(After(s, steps), step)
    ensures Run(s, steps + [step]) && After(s, steps + [step]) == Apply(After(s, steps), step)
    decreases |steps|
  {
    hide Apply, Enabled;
    if steps == [] {
      assert [] + [step] == [step] && [step][1..] == [];
    } else {
      RunAppend(Apply(s, steps[0]), steps[1..], step);
      assert (steps + [step])[1..] == steps[1..] + [step];
    }
  }

  lemma {:induction false} RunKeepsInv<T>(s: State<T>, steps: seq<Step<T>>)
    requires Inv(s) && Run(s, steps)
    ensures Inv(After(s, steps))
    decreases |steps|
  {
    hide Inv, Apply, Enabled;
    if steps != [] {
      StepKeepsInv(s, steps[0]);
      RunKeepsInv(Apply(s, steps[0]), steps[1..]);
    }
  }

  lemma {:induction false} KeptIsSubsequence<T>(sent: seq<T>, delivered: seq<bool>)
    requires |delivered| <= |sent|
    ensures Subsequence(Kept(sent, delivered), sent[..|delivered|])
  {
    if delivered != [] {
      var n := |delivered| - 1;
      KeptIsSubsequence(sent, delivered[..n]);
      var u := sent[..|delivered|];
      assert u[..|u| - 1] == sent[..n];
      if delivered[n] {
        var r := Kept(sent, delivered);
        assert r[..|r| - 1] == Kept(sent, delivered[..n]) && r[|r| - 1] == u[|u| - 1];
      } else {
        assert Kept(sent, delivered) == Kept(sent, delivered[..n]);
      }
    }
  }

  /** The calls that all delivered are a prefix of what is received. */
  lemma {:induction false} KeptBegins<T>(sent: seq<T>, delivered: seq<bool>, k: nat)
    requires k <= |delivered| <= |sent| && forall i :: 0 <= i < k ==> delivered[i]
    ensures sent[..k] <= Kept(sent, delivered)
  {
    if k == |delivered| && k > 0 {
      KeptBegins(sent, delivered[..k - 1], k - 1);
      assert sent[..k] == sent[..k - 1] + [sent[k - 1]];
    } else if k < |delivered| {
      KeptBegins(sent, delivered[..|delivered| - 1], k);
    }
  }

  /** In every interleaving: nothing panics, as no closer is about to close the channel again and no send meets it
      closed; values arrive in the order sent; every call of Send that ended before the receiver left and before
      Close cancelled delivered; and a call that did not has cancelled the sender's context. */
  lemma EveryRunIsSafe<T>(steps: seq<Step<T>>)
    requires Run(Initial(), steps)
    ensures var s := After(Initial(), steps);
            && !s.panicked && s.shut <= 1 && !Enabled(s, Step<T>.SendOnClosed)
            && (forall id :: id in s.closers && s.closers[id].Closing? ==> s.shut == 0)
            && s.before <= |s.delivered| <= |s.sent|
            && Subsequence(s.received, s.sent[..|s.delivered|])
            && s.sent[..s.before] <= s.received
            && (!s.sendDone ==> s.received == s.sent[..|s.delivered|])
            && (|s.received| < |s.delivered| ==> s.ctxDone && s.sendDone)
  {
    var s := After(Initial(), steps);
    assert Inv(Initial<T>());
    RunKeepsInv(Initial(), steps);
    KeptIsSubsequence(s.sent, s.delivered);
    KeptBegins(s.sent, s.delivered, s.before);
    forall id | id in s.closers ensures s.closers[id].Closing? ==> s.shut == 0 {
      NeverClosesTwice(s, id);
    }
    hide Exclusive;
    if forall i :: 0 <= i < |s.delivered| ==> s.delivered[i] {
      KeptBegins(s.sent, s.delivered, |s.delivered|);
    }
  }

  /** What is received only grows, and once the flag is set does not; the calls that ended before the first
      cancellation are counted once. */
  predicate Onward<T(==)>(s: State<T>, t: State<T>) {
    && s.received <= t.received && (s.closed ==> t.closed && t.received == s.received)
    && (s.sendDone ==> t.sendDone && t.before == s.before)
  }

  lemma StepIsOnward<T>(s: State<T>, step: Step<T>)
    requires Inv(s) && Enabled(s, step)
    ensures Onward(s, Apply(s, step))
  {
    hide Exclusive, CancelsFirst, InOrder;
  }

  lemma {:induction false} RunIsOnward<T>(s: State<T>, steps: seq<Step<T>>)
    requires Inv(s) && Run(s, steps)
    ensures Onward(s, After(s, steps))
    decreases |steps|
  {
    hide Inv, Apply, Enabled;
    if steps != [] {
      StepKeepsInv(s, steps[0]);
      StepIsOnward(s, steps[0]);
      RunIsOnward(Apply(s, steps[0]), steps[1..]);
    }
  }

  /** A receiver that goes to receive after a Close returned learns that the channel is closed. */
  lemma CloseIsSeen<T>(s: State<T>, id: nat)
    requires Inv(s) && id in s.closers && s.closers[id].Returned? && s.receiver.Receiving?
    ensures Enabled(s, Step<T>.SeeClosed) && !Enabled(s, Step<T>.Deliver)
  {
  }

  // ---------------------------------------------------------------- what the steps taken tell

  /** Where the steps leave the receiver. */
  function Whereabouts<T>(steps: seq<Step<T>>): Receiver {
    if steps == [] then Busy
    else
      match steps[|steps| - 1]
      case Receive => Receiving
      case Deliver => Busy
      case SeeClosed => Finished
      case _ => Whereabouts(steps[..|steps| - 1])
  }

  /** The values given to Send, in order. */
  function Given<T>(steps: seq<Step<T>>): seq<T> {
    if steps == [] then []
    else
      var n := |steps| - 1;
      Given(steps[..n]) + if steps[n].Send? then [steps[n].value] else []
  }

  predicate BothCancelled(closer: Closer) {
    !closer.Starting? && !closer.Cancelling?
  }

  /** The send context is cancelled by leaving and by Close, and by nothing else. */
  ghost predicate SendContextTold<T>(s: State<T>, past: seq<Step<T>>) {
    s.sendDone <==> Leave in past || exists id :: id in s.closers && BothCancelled(s.closers[id])
  }

  /** The sender's context is cancelled by its parent, by a send that gives up and by Close, and by nothing else. */
  ghost predicate ContextTold<T>(s: State<T>, past: seq<Step<T>>) {
    s.ctxDone <==> CancelParent in past || GiveUp in past || exists id :: id in s.closers && !s.closers[id].Starting?
  }

  ghost predicate ClosersTold<T>(s: State<T>, past: seq<Step<T>>) {
    forall id :: id in s.closers <==> Step<T>.Close(id) in past
  }

  ghost predicate PartnersTold<T>(s: State<T>, past: seq<Step<T>>) {
    s.receiver == Whereabouts(past) && s.sent == Given(past)
  }

  ghost predicate Told<T>(s: State<T>, past: seq<Step<T>>) {
    SendContextTold(s, past) && ContextTold(s, past) && ClosersTold(s, past) && PartnersTold(s, past)
  }

  lemma Appended<T>(past: seq<T>, step: T)
    ensures forall x :: x in past + [step] <==> x in past || x == step
  {
  }

  lemma AdvanceTellsSendContext<T>(s: State<T>, past: seq<Step<T>>, id: nat)
    requires SendContextTold(s, past) && Enabled(s, Step<T>.Advance(id))
    ensures SendContextTold(AdvanceCloser(s, id), past + [Advance(id)])
  {
    var t := AdvanceCloser(s, id);
    Appended(past, Step<T>.Advance(id));
    assert t.closers == s.closers[id := Next(s, s.closers[id])];
    assert t.sendDone <==> s.sendDone || s.closers[id].Cancelling?;
    assert BothCancelled(Next(s, s.closers[id])) <==> !s.closers[id].Starting?;
    hide AdvanceCloser, Next;
    assert id in t.closers && t.closers[id] == Next(s, s.closers[id]);
    assert forall j :: j in s.closers && j != id ==> j in t.closers && t.closers[j] == s.closers[j];
  }

  lemma StepTellsSendContext<T>(s: State<T>, past: seq<Step<T>>, step: Step<T>)
    requires SendContextTold(s, past) && Enabled(s, step)
    ensures SendContextTold(Apply(s, step), past + [step])
  {
    if step.Advance? {
      AdvanceTellsSendContext(s, past, step.id);
    } else {
      Appended(past, step);
      var t := Apply(s, step);
      assert forall id :: id in s.closers ==> id in t.closers && t.closers[id] == s.closers[id];
    }
  }

  lemma AdvanceTellsContext<T>(s: State<T>, past: seq<Step<T>>, id: nat)
    requires ContextTold(s, past) && Enabled(s, Step<T>.Advance(id))
    ensures ContextTold(AdvanceCloser(s, id), past + [Advance(id)])
  {
    var t := AdvanceCloser(s, id);
    Appended(past, Step<T>.Advance(id));
    assert id in s.closers && id in t.closers;
    assert forall j :: j in s.closers && j != id ==> j in t.closers && t.closers[j] == s.closers[j];
  }

  lemma StepTellsContext<T>(s: State<T>, past: seq<Step<T>>, step: Step<T>)
    requires ContextTold(s, past) && Enabled(s, step)
    ensures ContextTold(Apply(s, step), past + [step])
  {
    if step.Advance? {
      AdvanceTellsContext(s, past, step.id);
    } else {
      Appended(past, step);
      var t := Apply(s, step);
      assert forall id :: id in s.closers ==> id in t.closers && t.closers[id] == s.closers[id];
    }
  }

  lemma AdvanceTellsClosers<T>(s: State<T>, past: seq<Step<T>>, id: nat)
    requires ClosersTold(s, past) && Enabled(s, Step<T>.Advance(id))
    ensures ClosersTold(AdvanceCloser(s, id), past + [Advance(id)])
  {
    var t := AdvanceCloser(s, id);
    Appended(past, Step<T>.Advance(id));
    assert id in s.closers && id in t.closers;
    assert forall j :: j in s.closers && j != id ==> j in t.closers && t.closers[j] == s.closers[j];
  }

  lemma StepTellsClosers<T>(s: State<T>, past: seq<Step<T>>, step: Step<T>)
    requires ClosersTold(s, past) && Enabled(s, step)
    ensures ClosersTold(Apply(s, step), past + [step])
  {
    if step.Advance? {
      AdvanceTellsClosers(s, past, step.id);
    } else {
      Appended(past, step);
      var t := Apply(s, step);
      assert forall id :: id in s.closers ==> id in t.closers && t.closers[id] == s.closers[id];
    }
  }

  lemma StepTellsPartners<T>(s: State<T>, past: seq<Step<T>>, step: Step<T>)
    requires PartnersTold(s, past) && Enabled(s, step)
    ensures PartnersTold(Apply(s, step), past + [step])
  {
    assert (past + [step])[..|past|] == past;
  }

  lemma {:induction false} RunTells<T>(s: State<T>, past: seq<Step<T>>, steps: seq<Step<T>>)
    requires Told(s, past) && Run(s, steps)
    ensures Told(After(s, steps), past + steps)
    decreases |steps|
  {
    hide Apply, Enabled, SendContextTold, ContextTold, ClosersTold, PartnersTold;
    if steps == [] {
      assert past + [] == past;
    } else {
      StepTellsSendContext(s, past, steps[0]);
      StepTellsContext(s, past, steps[0]);
      StepTellsClosers(s, past, steps[0]);
      StepTellsPartners(s, past, steps[0]);
      RunTells(Apply(s, steps[0]), past + [steps[0]], steps[1..]);
      assert past + [steps[0]] + steps[1..] == past + steps;
    }
  }

  /** In every run the steps taken tell whether each context is cancelled, where the receiver is, what was given to
      Send and who called Close. */
  lemma EveryRunTells<T>(steps: seq<Step<T>>)
    requires Run(Initial(), steps)
    ensures Told(After(Initial(), steps), steps)
  {
    RunTells(Initial(), [], steps);
    assert [] + steps == steps;
  }

  /** The receiver leaves, or a Close makes its second cancellation. */
  predicate CancelsSend<T>(s: State<T>, step: Step<T>)
    requires Enabled(s, step)
  {
    step.Leave? || (step.Advance? && s.closers[step.id].Cancelling?)
  }

  /** How many calls have ended before that first happens, or at all if it does not. */
  ghost function EndedBefore<T>(s: State<T>, steps: seq<Step<T>>): nat
    requires Run(s, steps)
    decreases |steps|
  {
    if steps == [] || CancelsSend(s, steps[0]) then |s.delivered| else EndedBefore(Apply(s, steps[0]), steps[1..])
  }

  lemma StepCancels<T>(s: State<T>, step: Step<T>)
    requires Enabled(s, step) && !s.sendDone
    ensures var t := Apply(s, step);
            (t.sendDone <==> CancelsSend(s, step)) && (t.sendDone ==> t.before == |s.delivered|)
  {
  }

  lemma {:induction false} BeforeIsEndedBefore<T>(s: State<T>, steps: seq<Step<T>>)
    requires Inv(s) && Run(s, steps) && !s.sendDone
    ensures var t := After(s, steps); (if t.sendDone then t.before else |t.delivered|) == EndedBefore(s, steps)
    decreases |steps|
  {
    hide Inv, Apply, Enabled, CancelsSend;
    if steps != [] {
      StepKeepsInv(s, steps[0]);
      StepCancels(s, steps[0]);
      if CancelsSend(s, steps[0]) {
        RunIsOnward(Apply(s, steps[0]), steps[1..]);
      } else {
        BeforeIsEndedBefore(Apply(s, steps[0]), steps[1..]);
      }
    }
  }

  /** What was given to the calls of Send that ended before the receiver left and before Close cancelled is what was
      received first, all of it; the rest of what was received is of later calls, in order. */
  lemma EndedBeforeIsReceived<T>(steps: seq<Step<T>>)
    requires Run(Initial(), steps)
    ensures var s, n := After(Initial(), steps), EndedBefore(Initial(), steps);
            n <= |Given(steps)| && Given(steps)[..n] <= s.received && Subsequence(s.received, Given(steps))
            && ((Leave !in steps && forall id :: Step<T>.Close(id) !in steps) ==> n == |s.received|)
  {
    var s, n := After(Initial(), steps), EndedBefore(Initial(), steps);
    EveryRunIsSafe(steps);
    EveryRunTells(steps);
    assert Inv(Initial<T>());
    BeforeIsEndedBefore(Initial(), steps);
    hide Inv, Enabled, Apply;
    SubsequenceOfPrefix(s.received, s.sent, |s.delivered|);
    if Leave !in steps && forall id :: Step<T>.Close(id) !in steps {
      assert !s.sendDone;
    }
  }

  // ---------------------------------------------------------------- progress

  /** The statements of calls under way; a delivery is one of the sender's. */
  predicate Moves<T>(step: Step<T>) {
    step.LockSend? || step.CheckClosed? || step.Deliver? || step.GiveUp? || step.UnlockSend? || step.Advance?
  }

  lemma HeldUpOnlyBySelect<T>(s: State<T>)
    requires Inv(s) && !s.sender.Outside?
    ensures (forall step: Step<T> :: Moves(step) ==> !Enabled(s, step)) <==>
            (s.sender.Selecting? && !s.receiver.Receiving? && !s.sendDone && s.closers == map[])
  {
    if s.sender.Calling? && s.mutex.TheCloser? {
      assert Owns(s, s.mutex.id);
      assert Enabled(s, Step<T>.Advance(s.mutex.id));
    } else if s.sender.Selecting? && !s.sendDone && s.closers != map[] {
      var id :| id in s.closers;
      assert Enabled(s, Step<T>.Advance(id));
    } else {
      assert s.sender.Calling? ==> Enabled(s, Step<T>.LockSend);
      assert s.sender.Inside? ==> Enabled(s, Step<T>.CheckClosed);
      assert s.sender.Unlocking? ==> Enabled(s, Step<T>.UnlockSend);
      assert s.sender.Selecting? && s.sendDone ==> Enabled(s, Step<T>.GiveUp);
      assert s.sender.Selecting? && s.receiver.Receiving? && !s.sendDone ==> Enabled(s, Step<T>.Deliver);
    }
  }

  /** A call of Send under way is held up exactly by a receiver that has gone to no receive since it last came out of
      one, and only until the receiver leaves or Close is called. */
  lemma SendIsHeldUpOnlyByReceiver<T>(steps: seq<Step<T>>)
    requires Run(Initial(), steps) && !After(Initial(), steps).sender.Outside?
    ensures var s := After(Initial(), steps);
            (forall step: Step<T> :: Moves(step) ==> !Enabled(s, step)) <==>
            s.sender.Selecting? && Whereabouts(steps) != Receiving && Leave !in steps && forall id :: Step<T>.Close(id) !in steps
  {
    var s := After(Initial(), steps);
    RunKeepsInv(Initial(), steps);
    EveryRunTells(steps);
    HeldUpOnlyBySelect(s);
    hide Inv, Enabled, Moves, Whereabouts;
    if s.closers == map[] {
      assert forall id :: Step<T>.Close(id) in steps <==> id in s.closers;
    } else {
      var id :| id in s.closers;
      assert Step<T>.Close(id) in steps;
    }
  }

  /** A send in its select can give up as soon as the receiver has left or a Close has made its second cancellation,
      and no sooner. */
  lemma LeavingFreesTheSender<T>(steps: seq<Step<T>>)
    requires Run(Initial(), steps) && After(Initial(), steps).sender.Selecting?
    ensures var s := After(Initial(), steps);
            Enabled(s, Step<T>.GiveUp) <==> Leave in steps || exists id :: id in s.closers && BothCancelled(s.closers[id])
  {
    EveryRunTells(steps);
  }

  function SenderRank<T>(sender: Sender<T>): nat {
    match sender
    case Outside => 0 case Calling(_) => 4 case Inside(_) => 3 case Selecting(_) => 2 case Unlocking => 1
  }

  function CloserRank(closer: Closer): nat {
    match closer
    case Starting => 6 case Cancelling => 5 case Waiting => 4 case Checking => 3 case Closing => 2 case Leaving => 1
    case Returned => 0
  }

  function Ranks(closers: map<nat, Closer>): map<nat, nat> {
    map id | id in closers :: CloserRank(closers[id])
  }

  /** The statements the calls under way have left at most. */
  ghost function Work<T>(s: State<T>): nat {
    SenderRank(s.sender) + Sum(Ranks(s.closers))
  }

  lemma AdvanceLessTodo(closers: map<nat, Closer>, id: nat, next: Closer)
    requires id in closers && CloserRank(next) < CloserRank(closers[id])
    ensures Sum(Ranks(closers[id := next])) < Sum(Ranks(closers))
  {
    SumFalls(Ranks(closers), id, CloserRank(next));
    assert Ranks(closers[id := next]) == Ranks(closers)[id := CloserRank(next)];
  }

  lemma NeverClosesTwice<T>(s: State<T>, id: nat)
    requires Exclusive(s) && ShutOnce(s) && id in s.closers
    ensures s.closers[id].Closing? ==> s.shut == 0
  {
    assert Owns(s, id) <==> s.mutex == TheCloser(id);
  }

  lemma MoveLessWork<T>(s: State<T>, step: Step<T>)
    requires Inv(s) && Enabled(s, step) && !step.Send? && !step.Close?
    ensures Work(Apply(s, step)) + (if Moves(step) then 1 else 0) <= Work(s)
  {
    if step.Advance? {
      NeverClosesTwice(s, step.id);
      hide Exclusive, ShutOnce, CancelsFirst, InOrder, Sum;
      AdvanceLessTodo(s.closers, step.id, AdvanceCloser(s, step.id).closers[step.id]);
    }
  }

  ghost function Count<T>(steps: seq<Step<T>>): nat {
    if steps == [] then 0 else (if Moves(steps[0]) then 1 else 0) + Count(steps[1..])
  }

  /** So calls end: with no new call, all of them together take no more than the statements they have left. */
  lemma {:induction false} CallsEnd<T>(s: State<T>, steps: seq<Step<T>>)
    requires Inv(s) && Run(s, steps) && forall i :: 0 <= i < |steps| ==> !steps[i].Send? && !steps[i].Close?
    ensures Count(steps) + Work(After(s, steps)) <= Work(s)
    decreases |steps|
  {
    hide Inv, Apply, Enabled, Work;
    if steps != [] {
      StepKeepsInv(s, steps[0]);
      MoveLessWork(s, steps[0]);
      CallsEnd(Apply(s, steps[0]), steps[1..]);
    }
  }
}

/** The object itself, called while nobody holds its mutex. Its trace is a run of the protocol, so whatever holds of
    every run holds of it. */
module SingleSenders {
  import opened SenderProtocol

  class SingleSender<T> {
    var ctxDone: bool
    var sendDone: bool
    var closed: bool
    var shut: nat
    ghost var s: State<T>
    ghost var trace: seq<Step<T>>

    ghost predicate Traced()
      reads this
    {
      Run(Initial(), trace) && After(Initial(), trace) == s && Inv(s)
    }

    ghost predicate Valid()
      reads this
    {
      Traced() && s.ctxDone == ctxDone && s.sendDone == sendDone && s.closed == closed && s.shut == shut
    }

    /** Begin, for a parent context that is not done. */
    constructor ()
      ensures Valid() && trace == [] && s == Initial()
    {
      ctxDone, sendDone, closed, shut, s, trace := false, false, false, 0, Initial(), [];
    }

    ghost method Take(step: Step<T>)
      requires Traced() && Enabled(s, step)
      modifies this`s, this`trace
      ensures Traced() && s == Apply(old(s), step) && trace == old(trace) + [step]
    {
      hide Inv, Apply, Enabled;
      RunAppend(Initial(), trace, step);
      StepKeepsInv(s, step);
      s, trace := Apply(s, step), trace + [step];
    }

    ghost method Move(id: nat)
      requires Traced() && id in s.closers && !s.closers[id].Returned? && (s.closers[id].Waiting? ==> s.mutex == Nobody)
      modifies this`s, this`trace
      ensures Traced() && s == AdvanceCloser(old(s), id)
    {
      Take(Advance(id));
    }

    /** Send, when it does not block: `receiving` tells whether the receiver is in a receive. */
    method Send(value: T, receiving: bool) returns (sent: bool)
      requires Valid() && s.sender.Outside? && s.mutex == Nobody
      requires receiving == s.receiver.Receiving? && (closed || sendDone || receiving)
      modifies this
      ensures Valid() && s.sender.Outside? && s.mutex == Nobody
      ensures trace == old(trace) + [Step.Send(value), LockSend, CheckClosed]
                       + (if old(closed) then [] else [if sent then Deliver else GiveUp]) + [UnlockSend]
      ensures s.received == old(s.received) + (if sent then [value] else [])
      ensures if sent then !old(closed) && receiving else ctxDone && (old(closed) || old(sendDone))
    {
      hide Inv, Run, After;
      Take(Step.Send(value));
      Take(LockSend);
      OpenUntilClosed(s);
      Take(CheckClosed);
      if closed {
        sent := false;
      } else {
        var pick := *;
        sent := receiving && (!sendDone || pick);
        if sent {
          Take(Deliver);
        } else {
          Take(GiveUp);
          ctxDone := true;
        }
      }
      Take(UnlockSend);
    }

    method Close(ghost id: nat)
      requires Valid() && id !in s.closers && s.mutex == Nobody
      modifies this
      ensures Valid() && ctxDone && sendDone && closed && shut == 1 && s.mutex == Nobody
      ensures s.closers == old(s.closers)[id := Returned] && s.received == old(s.received)
    {
      CancelBoth(id);
      CloseChannel(id);
    }

    /** Close up to its mutex. */
    method CancelBoth(ghost id: nat)
      requires Valid() && id !in s.closers
      modifies this
      ensures Valid() && ctxDone && sendDone && s.mutex == old(s.mutex)
      ensures s.closers == old(s.closers)[id := Waiting] && s.received == old(s.received)
    {
      hide Inv, Run, After;
      Take(Step.Close(id));
      ctxDone := true;
      Move(id);
      sendDone := true;
      Move(id);
    }

    /** Close from its mutex on. */
    method CloseChannel(ghost id: nat)
      requires Valid() && id in s.closers && s.closers[id] == Waiting && s.mutex == Nobody
      modifies this
      ensures Valid() && ctxDone == old(ctxDone) && sendDone == old(sendDone) && closed && shut == 1 && s.mutex == Nobody
      ensures s.closers == old(s.closers)[id := Returned] && s.received == old(s.received)
    {
      hide Inv, Run, After, Apply, Enabled;
      OpenUntilClosed(s);
      Move(id);
      CloseOnce(id);
      Move(id);
    }

    /** What Close does under its mutex. */
    method CloseOnce(ghost id: nat)
      requires Valid() && id in s.closers && s.closers[id] == Checking && s.mutex == TheCloser(id)
      requires shut == if closed then 1 else 0
      modifies this`closed, this`shut, this`s, this`trace
      ensures Valid() && closed && shut == 1 && s.mutex == TheCloser(id)
      ensures s.closers == old(s.closers)[id := Leaving] && s.received == old(s.received)
    {
      hide Inv, Run, After, Apply, Enabled;
      if !closed {
        closed := true;
        Move(id);
        shut := shut + 1;
      }
      Move(id);
    }
  }
}
