/**
 One subscription over whole runs: publishers append to the topic at any time, also between a mark and its
 handler and inside a batch, and any handler may fail, which drops the rest of its batch. One consumer.
 */
module Subscription {
  import opened Models
  import opened PubSub

  /** `handled` lists the messages whose handler has returned, with or without an error. */
  datatype State = State(
    log: seq<Message>, processed: seq<Message>, batch: seq<Message>, handling: bool, handled: seq<Message>)

  datatype Step =
    | Append(m: Message)
    | Take(max: int)
    | Mark
    | Handled(ok: bool)

  function Start(log: seq<Message>): State {
    State(log, [], [], false, [])
  }

  /** A published message may repeat an ID. */
  predicate Possible(s: State, step: Step) {
    match step
    case Append(_) => true
    case Take(_) => s.batch == [] && !s.handling
    case Mark => s.batch != [] && !s.handling
    case Handled(_) => s.handling && s.processed != []
  }

  function After(s: State, step: Step): State
    requires Possible(s, step)
  {
    match step
    case Append(m) => s.(log := s.log + [m])
    case Take(max) => s.(batch := Batch(s.log, s.processed, max))
    case Mark => s.(processed := s.processed + [s.batch[0]], batch := s.batch[1..], handling := true)
    case Handled(ok) =>
      s.(handled := s.handled + [s.processed[|s.processed| - 1]], handling := false,
         batch := if ok then s.batch else [])
  }

  predicate Leads(s: State, steps: seq<Step>, end: State)
    decreases |steps|
  {
    if steps == [] then s == end
    else Possible(s, steps[0]) && Leads(After(s, steps[0]), steps[1..], end)
  }

  /** Handled, marked and taken messages are consecutive fronts and slices of the log. */
  ghost predicate InOrder(s: State) {
    && DistinctIds(s.log)
    && |s.processed| + |s.batch| <= |s.log|
    && s.processed == s.log[..|s.processed|]
    && s.batch == s.log[|s.processed|..|s.processed| + |s.batch|]
    && |s.processed| == |s.handled| + (if s.handling then 1 else 0)
    && s.handled == s.log[..|s.handled|]
  }

  lemma AppendKeepsOrder(s: State, m: Message)
    requires InOrder(s) && DistinctIds(s.log + [m])
    ensures InOrder(After(s, Append(m)))
  {
  }

  lemma TakeKeepsOrder(s: State, max: int)
    requires InOrder(s) && Possible(s, Take(max))
    ensures InOrder(After(s, Take(max)))
  {
    BatchIsNextSlice(s.log, |s.processed|, max);
  }

  lemma MarkKeepsOrder(s: State)
    requires InOrder(s) && Possible(s, Mark)
    ensures InOrder(After(s, Mark))
  {
    assert s.batch[0] == s.log[|s.processed|];
  }

  lemma HandledKeepsOrder(s: State, ok: bool)
    requires InOrder(s) && Possible(s, Handled(ok))
    ensures InOrder(After(s, Handled(ok)))
  {
    assert s.processed[|s.processed| - 1] == s.log[|s.handled|];
  }

  lemma StepKeepsOrder(s: State, step: Step)
    requires InOrder(s) && Possible(s, step) && DistinctIds(After(s, step).log)
    ensures InOrder(After(s, step))
    ensures s.handled <= After(s, step).handled
  {
    match step
    case Append(m) => AppendKeepsOrder(s, m);
    case Take(max) => TakeKeepsOrder(s, max);
    case Mark => MarkKeepsOrder(s);
    case Handled(ok) => HandledKeepsOrder(s, ok);
  }

  lemma {:induction false} LogGrows(s: State, steps: seq<Step>, end: State)
    requires Leads(s, steps, end)
    ensures s.log <= end.log
    decreases |steps|
  {
    if steps == [] {
    } else {
      LogGrows(After(s, steps[0]), steps[1..], end);
    }
  }

  lemma {:induction false} RunKeepsOrder(s: State, steps: seq<Step>, end: State)
    requires InOrder(s) && Leads(s, steps, end) && DistinctIds(end.log)
    ensures InOrder(end) && s.handled <= end.handled
    decreases |steps|
  {
    if steps == [] {
    } else {
      LogGrows(After(s, steps[0]), steps[1..], end);
      StepKeepsOrder(s, steps[0]);
      RunKeepsOrder(After(s, steps[0]), steps[1..], end);
    }
  }

  /**
   In every run from a new subscription in which no message ID repeats, whatever is published meanwhile and
   whichever handlers fail: the processed list is a front of the log and the batch the slice after it; the
   handlers run in publish order, the k-th of them on the k-th message, so none is handled twice and none is
   left out before one handled.
   */
  lemma HandlersRunInPublishOrder(log: seq<Message>, steps: seq<Step>, end: State)
    requires Leads(Start(log), steps, end) && DistinctIds(end.log)
    ensures log <= end.log && |end.processed| + |end.batch| <= |end.log|
    ensures end.processed == end.log[..|end.processed|]
    ensures end.batch == end.log[|end.processed|..|end.processed| + |end.batch|]
    ensures |end.handled| <= |end.log| && forall k | 0 <= k < |end.handled| :: end.handled[k] == end.log[k]
    ensures |end.processed| == |end.handled| + (if end.handling then 1 else 0)
    ensures forall i, j | 0 <= i < j < |end.handled| :: end.handled[i].messageId != end.handled[j].messageId
  {
    LogGrows(Start(log), steps, end);
    RunKeepsOrder(Start(log), steps, end);
    assert forall k | 0 <= k < |end.handled| :: end.handled[k] == end.log[k];
  }

  /** The handler calls that have returned. */
  function Returned(steps: seq<Step>): nat {
    if steps == [] then 0 else (if steps[0].Handled? then 1 else 0) + Returned(steps[1..])
  }

  lemma {:induction false} EveryReturnCounts(s: State, steps: seq<Step>, end: State)
    requires Leads(s, steps, end)
    ensures |end.handled| == |s.handled| + Returned(steps)
    decreases |steps|
  {
    if steps == [] {
    } else {
      EveryReturnCounts(After(s, steps[0]), steps[1..], end);
    }
  }

  /** Failures cost nothing but the batch: after any run, a pull takes on from the first message not yet marked. */
  lemma NothingIsLost(log: seq<Message>, steps: seq<Step>, end: State, max: int)
    requires Leads(Start(log), steps, end) && DistinctIds(end.log) && Possible(end, Take(max))
    ensures var next := After(end, Take(max));
            && Returned(steps) <= |end.log|
            && next.batch == end.log[Returned(steps)..Min(Returned(steps) + Room(max), |end.log|)]
            && (Returned(steps) < |end.log| ==> next.batch != [])
  {
    LogGrows(Start(log), steps, end);
    RunKeepsOrder(Start(log), steps, end);
    EveryReturnCounts(Start(log), steps, end);
    BatchIsNextSlice(end.log, |end.processed|, max);
  }

  // Repeated IDs

  /** Some run from here calls a handler for `m`, or ends the call that is under way. */
  ghost predicate CanBeHandled(s: State, m: Message) {
    exists steps, end: State :: Leads(s, steps, end) && HandledSince(s, end, m)
  }

  predicate HandledSince(s: State, end: State, m: Message) {
    |s.handled| <= |end.handled| && m in end.handled[|s.handled|..]
  }

  /**
   The message is being handled or in the batch; or its ID has not been processed, and is not about to be by
   the message that must be handled first.
   */
  predicate StillDue(s: State, m: Message) {
    || (s.handling && s.processed != [] && s.processed[|s.processed| - 1] == m)
    || m in s.batch
    || (!InSubscription(s.processed, m) && (s.handling || s.batch == [] || s.batch[0].messageId != m.messageId))
  }

  lemma TakeLeavesOut(s: State, max: int, m: Message)
    requires InSubscription(s.processed, m)
    ensures m !in Batch(s.log, s.processed, max)
  {
    ScanTakesUnseen(s.log, s.processed, max, []);
  }

  lemma NotDueStep(s: State, step: Step, m: Message)
    requires Possible(s, step) && !StillDue(s, m)
    ensures !StillDue(After(s, step), m) && s.handled <= After(s, step).handled
    ensures !HandledSince(s, After(s, step), m)
  {
    match step
    case Append(_) =>
    case Take(max) => TakeLeavesOut(s, max, m);
    case Mark => MarkedIsSeen(s.processed, s.batch[0], m);
    case Handled(_) =>
  }

  lemma MarkedIsSeen(processed: seq<Message>, first: Message, m: Message)
    ensures InSubscription(processed + [first], m) <==>
            InSubscription(processed, m) || first.messageId == m.messageId
  {
    if InSubscription(processed, m) {
      var p :| p in processed && p.messageId == m.messageId;
      assert p in processed + [first];
    }
    assert first in processed + [first];
  }

  lemma {:induction false} NotDueForGood(s: State, steps: seq<Step>, end: State, m: Message)
    requires Leads(s, steps, end) && !StillDue(s, m)
    ensures s.handled <= end.handled && !HandledSince(s, end, m)
    decreases |steps|
  {
    if steps == [] {
    } else {
      var next := After(s, steps[0]);
      NotDueStep(s, steps[0], m);
      NotDueForGood(next, steps[1..], end, m);
      assert end.handled[|s.handled|..] == next.handled[|s.handled|..] + end.handled[|next.handled|..];
    }
  }

  /** One step more at the front of a run. */
  lemma First(s: State, step: Step, m: Message)
    requires Possible(s, step) && CanBeHandled(After(s, step), m)
    ensures CanBeHandled(s, m)
  {
    var next := After(s, step);
    var steps, end: State :| Leads(next, steps, end) && HandledSince(next, end, m);
    assert ([step] + steps)[1..] == steps;
    assert Leads(s, [step] + steps, end);
    var i :| |next.handled| <= i < |end.handled| && end.handled[i] == m;
    assert end.handled[|s.handled|..][i - |s.handled|] == m;
  }

  lemma HandledNow(s: State, m: Message)
    requires s.handling && s.processed != [] && s.processed[|s.processed| - 1] == m
    ensures CanBeHandled(s, m)
  {
    var end := After(s, Handled(true));
    assert Leads(end, [], end);
    assert [Handled(true)][1..] == [];
    assert Leads(s, [Handled(true)], end);
    assert end.handled[|s.handled|..] == [m];
  }

  lemma {:induction false} HandledFromBatch(s: State, m: Message)
    requires !s.handling && m in s.batch
    ensures CanBeHandled(s, m)
    decreases |s.batch|
  {
    var marked := After(s, Mark);
    if s.batch[0] == m {
      HandledNow(marked, m);
    } else {
      HandledFromBatch(After(marked, Handled(true)), m);
      First(marked, Handled(true), m);
    }
    First(s, Mark, m);
  }

  lemma {:induction false} ScanIsNoLonger(log: seq<Message>, processed: seq<Message>, max: int, taken: seq<Message>)
    ensures |Scan(log, processed, max, taken)| <= |log| + |taken|
    decreases |log|
  {
    if log == [] {
    } else {
      ScanIsNoLonger(log[1..], processed, max, taken);
      ScanIsNoLonger(log[1..], processed, max, taken + [log[0]]);
    }
  }

  lemma HandledWhenIdle(s: State, m: Message)
    requires !s.handling && s.batch == [] && m in s.log && !InSubscription(s.processed, m)
    ensures CanBeHandled(s, m)
  {
    var max := |s.log| + 1;
    ScanIsNoLonger(s.log, s.processed, max, []);
    ScanTakesUnseen(s.log, s.processed, max, []);
    HandledFromBatch(After(s, Take(max)), m);
    First(s, Take(max), m);
  }

  lemma HandledAfterFailure(s: State, m: Message)
    requires s.handling && s.processed != [] && m in s.log && !InSubscription(s.processed, m)
    ensures CanBeHandled(s, m)
  {
    HandledWhenIdle(After(s, Handled(false)), m);
    First(s, Handled(false), m);
  }

  /**
   For every log, repeated IDs included: a message of the log can still be handled exactly when it is due. So
   a message is lost from the moment another with its ID is marked, or has become the next of a batch to be
   marked, unless it is in that batch itself; and no failure and no publication loses one otherwise.
   */
  lemma HandledExactlyWhenDue(s: State, m: Message)
    requires m in s.log && (s.handling ==> s.processed != [])
    ensures CanBeHandled(s, m) <==> StillDue(s, m)
  {
    if !StillDue(s, m) {
      if steps, end: State :| Leads(s, steps, end) && HandledSince(s, end, m) {
        NotDueForGood(s, steps, end, m);
      }
    } else if s.handling {
      if s.processed[|s.processed| - 1] == m {
        HandledNow(s, m);
      } else if m in s.batch {
        HandledFromBatch(After(s, Handled(true)), m);
        First(s, Handled(true), m);
      } else {
        HandledAfterFailure(s, m);
      }
    } else if m in s.batch {
      HandledFromBatch(s, m);
    } else if s.batch == [] {
      HandledWhenIdle(s, m);
    } else {
      MarkedIsSeen(s.processed, s.batch[0], m);
      HandledAfterFailure(After(s, Mark), m);
      First(s, Mark, m);
    }
  }

  /** The rest of a batch handed over without interruption; `fails(i)` says how handler call `i` of the pull ends. */
  function HandAll(s: State, fails: nat -> bool, i: nat): State
    requires !s.handling
    decreases |s.batch|
  {
    if s.batch == [] then s
    else HandAll(After(After(s, Mark), Handled(!fails(i))), fails, i + 1)
  }

  lemma {:induction false} HandAllProcesses(s: State, fails: nat -> bool, i: nat)
    requires !s.handling
    ensures var n := i + |s.batch|;
            HandAll(s, fails, i).processed == s.processed + s.batch[..Calls(i, n, fails) - i]
    decreases |s.batch|
  {
    if s.batch == [] {
      assert s.processed + [] == s.processed;
    } else if fails(i) {
      var next := After(After(s, Mark), Handled(false));
      assert HandAll(next, fails, i + 1) == next;
      assert s.batch[..1] == [s.batch[0]];
    } else {
      var next := After(After(s, Mark), Handled(true));
      HandAllProcesses(next, fails, i + 1);
      MarkedFront(s.processed, s.batch, Calls(i + 1, i + |s.batch|, fails) - i);
    }
  }

  lemma MarkedFront(processed: seq<Message>, batch: seq<Message>, k: nat)
    requires 1 <= k <= |batch|
    ensures (processed + [batch[0]]) + batch[1..][..k - 1] == processed + batch[..k]
  {
  }

  /** Without interruption the steps of a pull are the pull of the mock client. */
  lemma StepsAgreeWithPull(s: State, max: int, fails: nat -> bool)
    requires Possible(s, Take(max))
    ensures HandAll(After(s, Take(max)), fails, 0).processed == Pull(s.log, s.processed, max, fails)
  {
    HandAllProcesses(After(s, Take(max)), fails, 0);
  }
}
