/**
 The step machine of HubNode.dfy and the methods of the distributor describe the same code: taken without
 interference, the steps of one handler call or of one delivery end where the method does.
 */
module Agreement {
  import opened Models
  import opened ReceiverTable
  import opened Routing
  import opened Distributor
  import opened HubNode

  // When steps can be taken

  /** A call at the broker goes on with exactly the lists that the broker's selection can return, none empty. */
  lemma CallsBeginWithASelection(id: string, n: Node, e: SecurityEvent, targets: seq<string>)
    ensures Enabled(id, n, Begin(e, targets)) <==> targets != [] && IsSelection(n.reg, e, targets)
  {
  }

  /** Receivers can be updated, removed and paused at any time, and registered with counters at zero. */
  lemma AdministrationIsAlwaysPossible(id: string, n: Node, r: Receiver, receiver: string, status: string, now: int)
    ensures Enabled(id, n, Updating(r, now)) && Enabled(id, n, Unregistering(receiver))
    ensures Enabled(id, n, ChangingStatus(receiver, status, now))
    ensures Enabled(id, n, Registering(r, now)) <==> r.metadata.(createdAt := 0, updatedAt := 0, lastEventAt := 0,
                                                                 lastDeliveryError := "") == BLANK_METADATA
  {
  }

  /** Where the consumer is in its round: pull, mark, handle, next target, back. */
  function Turn(n: Node): nat {
    match n.stage
    case Idle => if |n.batch| == 0 then 0 else 1
    case Marked => 2
    case Distributing(rest) => if |rest| > 0 then 3 else 4
  }

  /** It has one step at a time: it pulls only with nothing left of its batch, and handles only what it has marked. */
  lemma ConsumerStepsInTurn(id: string, n: Node, max: int, now: int)
    requires n.stage != Idle ==> n.sub != []
    ensures Enabled(id, n, Pulling(max)) <==> Turn(n) == 0
    ensures Enabled(id, n, Mark) <==> Turn(n) == 1
    ensures Enabled(id, n, Handle(now)) <==> Turn(n) == 2
    ensures Enabled(id, n, Distribute) <==> Turn(n) == 3
    ensures Enabled(id, n, Finish) <==> Turn(n) == 4
  {
  }

  // Handling a message

  /** The rest of one handler call, when nobody else moves. */
  function DistributeAll(c: Config, id: string, n: Node, log: seq<Message>): Node
    requires n.stage.Distributing? && n.sub != []
    decreases |n.stage.rest|
  {
    if n.stage.rest == [] then Step(c, id, n, Finish, log)
    else DistributeAll(c, id, Step(c, id, n, Distribute, log), log)
  }

  lemma {:induction false} SpawnedFromFront(t: Table, targets: seq<string>, e: SecurityEvent)
    requires targets != []
    ensures Spawned(t, targets, e) ==
            (if Deliverable(t, targets[0], e) then [t[targets[0]]] else []) + Spawned(t, targets[1..], e)
  {
    var k := |targets| - 1;
    if k == 0 {
      assert targets[..k] == [] == targets[1..];
    } else {
      SpawnedFromFront(t, targets[..k], e);
      assert targets[..k][1..] == targets[1..][..k - 1];
    }
  }

  /** The deliveries that `Spawned` stands for, as runs. */
  function NewRuns(c: Config, pos: nat, rs: seq<Receiver>): seq<Run> {
    seq(|rs|, i requires 0 <= i < |rs| => NewRun(c, pos, rs[i].id))
  }

  /**
     Step by step or in one call: an undisturbed handler starts the deliveries of `Spawned`, in order,
     counts the message as processed, and ends idle.
   */
  lemma {:induction false} StepsAgreeWithHandler(c: Config, id: string, n: Node, log: seq<Message>)
    requires n.stage.Distributing? && n.sub != [] && Consistent(c.urlOk, n.reg)
    ensures var end := DistributeAll(c, id, n, log);
            var e := Current(n).event;
            && end.runs == n.runs + NewRuns(c, |n.sub| - 1, Spawned(n.reg, n.stage.rest, e))
            && end.processed == n.processed + 1 && end.stage == Idle
            && end.reg == n.reg && end.received == n.received && end.failed == n.failed
    decreases |n.stage.rest|
  {
    if n.stage.rest == [] {
      assert n.runs + NewRuns(c, |n.sub| - 1, []) == n.runs;
    } else {
      var e := Current(n).event;
      DistributeStartsOne(c, id, n, log);
      StepsAgreeWithHandler(c, id, Step(c, id, n, Distribute, log), log);
      NewRunsFromFront(c, |n.sub| - 1, n.reg, n.stage.rest, e);
      Associate(n.runs, NewRunIf(c, n, n.stage.rest[0]),
                NewRuns(c, |n.sub| - 1, Spawned(n.reg, n.stage.rest[1..], e)));
    }
  }

  /** The delivery that a target gets, if it is routed. */
  function NewRunIf(c: Config, n: Node, target: string): seq<Run>
    requires n.sub != []
  {
    if Deliverable(n.reg, target, Current(n).event) then [NewRun(c, |n.sub| - 1, target)] else []
  }

  /** One step of the handler: the first target gets its delivery, and all else stays. */
  lemma DistributeStartsOne(c: Config, id: string, n: Node, log: seq<Message>)
    requires n.stage.Distributing? && n.stage.rest != [] && n.sub != []
    ensures Step(c, id, n, Distribute, log) ==
            n.(stage := Distributing(n.stage.rest[1..]), runs := n.runs + NewRunIf(c, n, n.stage.rest[0]))
  {
    assert n.runs + [] == n.runs;
  }

  lemma Associate(a: seq<Run>, b: seq<Run>, c: seq<Run>)
    ensures (a + b) + c == a + (b + c)
  {
  }

  lemma NewRunsFromFront(c: Config, pos: nat, t: Table, targets: seq<string>, e: SecurityEvent)
    requires targets != [] && Consistent(c.urlOk, t)
    ensures NewRuns(c, pos, Spawned(t, targets, e)) ==
            (if Deliverable(t, targets[0], e) then [NewRun(c, pos, targets[0])] else []) +
            NewRuns(c, pos, Spawned(t, targets[1..], e))
  {
    SpawnedFromFront(t, targets, e);
    if Deliverable(t, targets[0], e) {
      assert EntryOk(c.urlOk, t, targets[0]);
    }
  }

  // Delivering to one receiver

  predicate CanAttempt(c: Config, n: Node, run: nat) {
    run < |n.runs| && n.runs[run].phase == Calling && |n.runs[run].outcomes| <= c.maxRetries
  }

  /** One attempt as one change: counters, report and the delivery's own record. */
  function Attempted(c: Config, n: Node, run: nat, r: Response, now: int): Node
    requires CanAttempt(c, n, run)
  {
    var s := n.runs[run];
    var gone := if s.receiver in n.reg then 0 else 1;
    var again := !r.success && |s.outcomes| < c.maxRetries;
    n.(runs := n.runs[run := s.(outcomes := s.outcomes + [r.success], phase := if again then Waiting else Closed)],
       attempted := n.attempted + 1,
       succeeded := n.succeeded + (if r.success then 1 else 0),
       failedDeliveries := n.failedDeliveries + (if r.success then 0 else 1),
       reg := Report(n.reg, s.receiver, r, now),
       lost := if r.success then n.lost.(delivered := n.lost.delivered + gone)
               else n.lost.(failed := n.lost.failed + gone))
  }

  /** The three steps of an attempt, one after the other, are that change: what the distributor's `Count` does. */
  lemma StepsAgreeWithCount(c: Config, id: string, n: Node, run: nat, r: Response, now: int, log: seq<Message>)
    requires CanAttempt(c, n, run)
    ensures Enabled(id, n, Answer(run, r.success))
    ensures var answered := Step(c, id, n, Answer(run, r.success), log);
            && Enabled(id, answered, Tally(run))
            && var tallied := Step(c, id, answered, Tally(run), log);
            && Enabled(id, tallied, Reporting(run, ErrorText(r), now))
            && Step(c, id, tallied, Reporting(run, ErrorText(r), now), log) == Attempted(c, n, run, r, now)
  {
    var s := n.runs[run];
    var answered := Step(c, id, n, Answer(run, r.success), log);
    var tallied := Step(c, id, answered, Tally(run), log);
    assert tallied.runs == n.runs[run := s.(outcomes := s.outcomes + [r.success], phase := Tallied)];
    assert Step(c, id, tallied, Reporting(run, ErrorText(r), now), log).runs == Attempted(c, n, run, r, now).runs;
  }

  /** Those three steps. */
  function Tried(c: Config, id: string, n: Node, run: nat, r: Response, now: int, log: seq<Message>): (end: Node)
    requires CanAttempt(c, n, run)
    ensures end == Attempted(c, n, run, r, now)
  {
    StepsAgreeWithCount(c, id, n, run, r, now, log);
    var answered := Step(c, id, n, Answer(run, r.success), log);
    Step(c, id, Step(c, id, answered, Tally(run), log), Reporting(run, ErrorText(r), now), log)
  }

  /** A delivery from its next attempt to its end by its own steps, when nobody else moves. */
  function Solo(
    c: Config, id: string, n: Node, run: nat, respond: nat -> Response, clock: nat -> int, log: seq<Message>): Node
    requires CanAttempt(c, n, run)
    decreases c.maxRetries - |n.runs[run].outcomes|
  {
    var k := |n.runs[run].outcomes| + 1;
    var m := Tried(c, id, n, run, respond(k), clock(k), log);
    if m.runs[run].phase == Waiting
    then Solo(c, id, Step(c, id, m, Wake(run), log), run, respond, clock, log)
    else m
  }

  /** What has been done for a delivery that was begun when the registry was `t` and `before` attempts were counted. */
  ghost predicate Done(
    n: Node, run: nat, receiver: string, respond: nat -> Response, clock: nat -> int, t: Table, before: int,
    attempts: nat)
  {
    && run < |n.runs| && n.runs[run].receiver == receiver && |n.runs[run].outcomes| == attempts
    && n.reg == ReportAll(t, receiver, respond, clock, attempts)
    && n.attempted == before + attempts
  }

  lemma AttemptDone(
      c: Config, n: Node, run: nat, receiver: string, respond: nat -> Response, clock: nat -> int,
      t: Table, before: int, k: nat)
    requires CanAttempt(c, n, run) && Done(n, run, receiver, respond, clock, t, before, k)
    ensures var m := Attempted(c, n, run, respond(k + 1), clock(k + 1));
            && Done(m, run, receiver, respond, clock, t, before, k + 1)
            && Last(m.runs[run].outcomes) == respond(k + 1).success
            && m.runs[run].phase == if !respond(k + 1).success && k + 1 <= c.maxRetries then Waiting else Closed
  {
  }

  lemma WakeDone(
      c: Config, id: string, n: Node, run: nat, log: seq<Message>, receiver: string, respond: nat -> Response,
      clock: nat -> int, t: Table, before: int, k: nat)
    requires Done(n, run, receiver, respond, clock, t, before, k) && n.runs[run].phase == Waiting && k <= c.maxRetries
    ensures var m := Step(c, id, n, Wake(run), log);
            && Done(m, run, receiver, respond, clock, t, before, k) && CanAttempt(c, m, run)
            && m.runs[run].outcomes == n.runs[run].outcomes
  {
  }

  /** The hub's deliveries run on a context that is never cancelled. */
  predicate Never(k: nat) { false }

  /**
     A delivery on its own makes the attempts of the distributor's loop, leaves the registry as that loop
     leaves it, and its last outcome is the loop's status: `d` is the record that the loop ends with.
     */
  lemma {:induction false} SoloAgreesWithLoop(
      c: Config, id: string, n: Node, run: nat, log: seq<Message>, receiver: string, respond: nat -> Response,
      clock: nat -> int, p: RetryPolicy, t: Table, before: int, d: EventDelivery, waits: seq<int>)
    requires CanAttempt(c, n, run) && p.maxRetries == c.maxRetries && Finished(p, respond, Never, d, waits)
    requires Done(n, run, receiver, respond, clock, t, before, |n.runs[run].outcomes|)
    requires forall k | 1 <= k <= |n.runs[run].outcomes| :: !Ends(p, respond, Never, k)
    ensures var end := Solo(c, id, n, run, respond, clock, log);
            && Done(end, run, receiver, respond, clock, t, before, d.attempt)
            && end.runs[run].phase == Closed
            && (Last(end.runs[run].outcomes) <==> d.status == Delivered)
    decreases c.maxRetries - |n.runs[run].outcomes|
  {
    var k := |n.runs[run].outcomes| + 1;
    AttemptDone(c, n, run, receiver, respond, clock, t, before, k - 1);
    FirstEnd(p, respond, d, waits, k);
    var m := Tried(c, id, n, run, respond(k), clock(k), log);
    if m.runs[run].phase == Closed {
    } else {
      WakeDone(c, id, m, run, log, receiver, respond, clock, t, before, k);
      var woken := Step(c, id, m, Wake(run), log);
      SoloAgreesWithLoop(c, id, woken, run, log, receiver, respond, clock, p, t, before, d, waits);
    }
  }

  /** The attempt a delivery stops at is the first that ends it. */
  lemma FirstEnd(p: RetryPolicy, respond: nat -> Response, d: EventDelivery, waits: seq<int>, k: nat)
    requires Finished(p, respond, Never, d, waits) && 1 <= k <= p.maxRetries + 1
    requires forall j | 1 <= j < k :: !Ends(p, respond, Never, j)
    ensures d.attempt >= k
    ensures Ends(p, respond, Never, k) <==> d.attempt == k
    ensures Ends(p, respond, Never, k) ==> (d.status == Delivered <==> respond(k).success)
  {
    var n := d.attempt;
    assert Ends(p, respond, Never, n);
    assert k < n ==> !Ends(p, respond, Never, k);
  }
}
