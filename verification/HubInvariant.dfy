/** What every step of a hub keeps, group by group. */
module HubInvariant {
  import opened Sequences
  import opened Sums
  import opened Models
  import opened ReceiverTable
  import opened PubSub
  import opened HubNode

  // The subscription

  /** Processed list and batch are consecutive fronts of the log; `clock` has a reading per handled message. */
  ghost predicate Consuming(log: seq<Message>, n: Node) {
    && |n.sub| + |n.batch| <= |log|
    && n.sub == log[..|n.sub|]
    && n.batch == log[|n.sub|..|n.sub| + |n.batch|]
    && (n.stage == Marked ==> |n.clock| == |n.sub| - 1)
    && (n.stage != Marked ==> |n.clock| == |n.sub|)
  }

  /** The messages a hub passes on out of those it has handled at the times in `clock`. */
  function Chosen(id: string, log: seq<Message>, clock: seq<int>): seq<Message>
    requires |clock| <= |log|
  {
    if clock == [] then []
    else
      var k := |clock| - 1;
      Chosen(id, log, clock[..k]) + if Wanted(id, log[k], clock[k]) then [log[k]] else []
  }

  /** Metrics and distributed messages are those of the handled front. */
  ghost predicate Metered(id: string, log: seq<Message>, n: Node) {
    && |n.clock| <= |log|
    && n.received == |n.clock|
    && n.distributed == Chosen(id, log, n.clock)
    && n.processed + (if n.stage.Distributing? then 1 else 0) == |n.distributed|
    && n.skipped == |n.clock| - |n.distributed|
    && n.failed == 0
    && (n.stage.Distributing? ==>
          && n.clock != [] && n.sub != [] && Current(n) == log[|n.clock| - 1]
          && Wanted(id, Current(n), n.clock[|n.clock| - 1])
          && IsTail(n.stage.rest, Current(n).targets))
  }

  predicate IsTail(rest: seq<string>, all: seq<string>) {
    |rest| <= |all| && rest == all[|all| - |rest|..]
  }

  // The deliveries

  /** Only the last attempt can have succeeded, and the phase says how the loop goes on. */
  ghost predicate Shaped(maxRetries: int, r: Run) {
    && (forall k | 0 <= k < |r.outcomes| - 1 :: !r.outcomes[k])
    && (maxRetries < 0 ==> r.outcomes == [] && r.phase == Closed)
    && (maxRetries >= 0 ==>
          && |r.outcomes| <= maxRetries + 1
          && (r.phase == Calling ==> !Last(r.outcomes) && |r.outcomes| <= maxRetries)
          && (r.phase == Waiting ==> r.outcomes != [] && !Last(r.outcomes) && |r.outcomes| <= maxRetries)
          && (r.phase == Answered || r.phase == Tallied ==> r.outcomes != [])
          && (r.phase == Closed ==> Last(r.outcomes) || |r.outcomes| == maxRetries + 1))
  }

  /** A delivery is for a target of a handled message of another hub that had not expired. */
  ghost predicate RunOk(c: Config, id: string, log: seq<Message>, clock: seq<int>, r: Run) {
    && r.pos < |clock| <= |log|
    && Wanted(id, log[r.pos], clock[r.pos])
    && r.receiver in log[r.pos].targets
    && Shaped(c.maxRetries, r)
  }

  ghost predicate RunsOk(c: Config, id: string, log: seq<Message>, clock: seq<int>, runs: seq<Run>) {
    forall i {:trigger RunOk(c, id, log, clock, runs[i])} | 0 <= i < |runs| :: RunOk(c, id, log, clock, runs[i])
  }

  predicate SameSlot(r: Run, s: Run) {
    r.pos == s.pos && r.receiver == s.receiver
  }

  /** No two deliveries are for the same message and receiver. */
  ghost predicate SlotsDiffer(runs: seq<Run>) {
    forall i, j {:trigger SameSlot(runs[i], runs[j])} | 0 <= i < j < |runs| :: !SameSlot(runs[i], runs[j])
  }

  /** The targets still to come have no delivery of the current message yet. */
  ghost predicate RestIsOpen(n: Node) {
    n.stage.Distributing? ==>
      forall i, k | 0 <= i < |n.runs| && 0 <= k < |n.stage.rest| ::
        n.runs[i].pos == |n.clock| - 1 ==> n.runs[i].receiver != n.stage.rest[k]
  }

  function TargetCount(m: Message): int { |m.targets| }

  /** There are no more deliveries, begun or to come, than targets of the messages passed on. */
  ghost predicate Bounded(n: Node) {
    |n.runs| + (if n.stage.Distributing? then |n.stage.rest| else 0) <= Sum(n.distributed, TargetCount)
  }

  // The counters

  function Attempts(r: Run): int { |r.outcomes| }

  function Successes(r: Run): int { if Last(r.outcomes) then 1 else 0 }

  function Unanswered(r: Run): int { if r.phase == Answered then 1 else 0 }

  function TalliedSuccesses(r: Run): int { if Last(r.outcomes) && r.phase != Answered then 1 else 0 }

  function TalliedFailures(r: Run): int { Attempts(r) - TalliedSuccesses(r) - Unanswered(r) }

  function ReportedSuccesses(r: Run): int { if Last(r.outcomes) && r.phase == Closed then 1 else 0 }

  function Unreported(r: Run): int { if r.phase == Tallied && Last(r.outcomes) then 1 else 0 }

  function UnreportedFailures(r: Run): int { if r.phase == Tallied && !Last(r.outcomes) then 1 else 0 }

  function ReportedFailures(r: Run): int { TalliedFailures(r) - UnreportedFailures(r) }

  ghost predicate Counted(n: Node) {
    && n.attempted == Sum(n.runs, Attempts)
    && n.succeeded == Sum(n.runs, TalliedSuccesses)
    && n.failedDeliveries == Sum(n.runs, TalliedFailures)
  }

  function CountedTargets(g: Ingest): int { g.counted }

  function PublishedTargets(g: Ingest): int { if g.published then |g.targets| else 0 }

  /** Registry counters, with what left the registry, are the reports made. */
  ghost predicate Booked(n: Node) {
    && TotalOf(n.reg, Received) + n.lost.received == Sum(n.ingests, CountedTargets)
    && TotalOf(n.reg, Delivered) + n.lost.delivered == Sum(n.runs, ReportedSuccesses)
    && TotalOf(n.reg, Failed) + n.lost.failed == Sum(n.runs, ReportedFailures)
  }

  predicate CountersOk(r: Receiver) {
    Received(r) >= 0 && Delivered(r) >= 0 && Failed(r) >= 0
  }

  /** Counters are natural numbers. */
  ghost predicate NonNegative(t: Table, l: Lost) {
    && l.received >= 0 && l.delivered >= 0 && l.failed >= 0
    && forall id {:trigger CountersOk(t[id])} | id in t :: CountersOk(t[id])
  }

  predicate Targets(g: Ingest, id: string) {
    id in g.targets
  }

  /** Everyone is there who was never unregistered, and without unregistrations nothing is lost. */
  ghost predicate NothingLost(n: Node) {
    && (n.removed == {} ==> n.lost == Lost(0, 0, 0))
    && (forall i | 0 <= i < |n.runs| :: Known(n, n.runs[i].receiver))
    && (forall i, id {:trigger Targets(n.ingests[i], id)} |
          0 <= i < |n.ingests| && Targets(n.ingests[i], id) :: Known(n, id))
  }

  predicate Known(n: Node, id: string) {
    id in n.reg || id in n.removed
  }

  /** A measure of deliveries, at one receiver only. */
  function At(id: string, f: Run -> int): Run -> int {
    (r: Run) => if r.receiver == id then f(r) else 0
  }

  /** The calls that have counted their event at one receiver. */
  function CountedAt(id: string): Ingest -> int {
    (g: Ingest) => if g.counted <= |g.targets| && id in g.targets[..g.counted] then 1 else 0
  }

  ghost predicate ReceiverBooked(n: Node, id: string)
    requires id in n.reg
  {
    && Received(n.reg[id]) == Sum(n.ingests, CountedAt(id))
    && Delivered(n.reg[id]) == Sum(n.runs, At(id, ReportedSuccesses))
    && Failed(n.reg[id]) == Sum(n.runs, At(id, ReportedFailures))
  }

  /** The counters of a receiver that was never unregistered are the reports about it. */
  ghost predicate ReceiversBooked(n: Node) {
    forall id {:trigger ReceiverBooked(n, id)} | id in n.reg && id !in n.removed :: ReceiverBooked(n, id)
  }

  predicate IngestOk(g: Ingest) {
    && g.targets != [] && NoDuplicates(g.targets) && g.counted <= |g.targets|
    && (g.published ==> g.counted == |g.targets|)
  }

  ghost predicate IngestsOk(ingests: seq<Ingest>) {
    forall i {:trigger IngestOk(ingests[i])} | 0 <= i < |ingests| :: IngestOk(ingests[i])
  }

  /** What the hub has consumed, passed on and begun to deliver, against the log of the topic. */
  ghost predicate RoutesWell(c: Config, id: string, log: seq<Message>, n: Node) {
    && Consuming(log, n) && Metered(id, log, n) && RunsOk(c, id, log, n.clock, n.runs)
    && SlotsDiffer(n.runs) && RestIsOpen(n) && Bounded(n)
  }

  /** The registry and all counters. */
  ghost predicate CountsWell(c: Config, n: Node) {
    && Counted(n) && Booked(n) && NonNegative(n.reg, n.lost) && NothingLost(n) && ReceiversBooked(n)
    && Consistent(c.urlOk, n.reg) && IngestsOk(n.ingests)
  }

  ghost predicate NodeInv(c: Config, id: string, log: seq<Message>, n: Node) {
    RoutesWell(c, id, log, n) && CountsWell(c, n)
  }

  /** The log: messages are told apart by ID, and each lists targets, none twice. */
  ghost predicate LogOk(log: seq<Message>) {
    DistinctIds(log) && forall m | m in log :: NoDuplicates(m.targets) && m.targets != []
  }

  // Preservation

  /** Steps of the consumer; all others leave subscription, handler and their metrics alone. */
  predicate Consumes(a: Action) {
    a.Pulling? || a.Mark? || a.Handle? || a.Distribute? || a.Finish?
  }

  lemma OthersDoNotConsume(c: Config, id: string, log: seq<Message>, n: Node, a: Action)
    requires Enabled(id, n, a) && !Consumes(a)
    ensures var n' := Step(c, id, n, a, log);
            && n'.sub == n.sub && n'.batch == n.batch && n'.stage == n.stage && n'.clock == n.clock
            && n'.distributed == n.distributed && n'.received == n.received && n'.processed == n.processed
            && n'.skipped == n.skipped && n'.failed == n.failed
  {
  }

  lemma ConsumingKept(c: Config, id: string, log: seq<Message>, n: Node, a: Action)
    requires Consuming(log, n) && DistinctIds(log) && Enabled(id, n, a)
    ensures Consuming(log, Step(c, id, n, a, log))
  {
    if a.Pulling? {
      BatchIsNextSlice(log, |n.sub|, a.max);
    } else if a.Mark? {
      MarkKept(c, id, log, n);
    } else if !Consumes(a) {
      OthersDoNotConsume(c, id, log, n, a);
    }
  }

  lemma MarkKept(c: Config, id: string, log: seq<Message>, n: Node)
    requires Consuming(log, n) && Enabled(id, n, Mark)
    ensures Consuming(log, Step(c, id, n, Mark, log))
  {
    assert n.batch[0] == log[|n.sub|];
  }

  lemma MeteredKept(c: Config, id: string, log: seq<Message>, n: Node, a: Action)
    requires Metered(id, log, n) && Consuming(log, n) && Enabled(id, n, a)
    ensures Metered(id, log, Step(c, id, n, a, log))
  {
    if a.Handle? {
      HandleKept(c, id, log, n, a.now);
    } else if !Consumes(a) {
      OthersDoNotConsume(c, id, log, n, a);
    }
  }

  lemma HandleKept(c: Config, id: string, log: seq<Message>, n: Node, now: int)
    requires Metered(id, log, n) && Consuming(log, n) && Enabled(id, n, Handle(now))
    ensures Metered(id, log, Step(c, id, n, Handle(now), log))
  {
    assert (n.clock + [now])[..|n.clock|] == n.clock;
  }

  lemma SlotsAppend(runs: seq<Run>, r: Run)
    requires SlotsDiffer(runs) && forall i | 0 <= i < |runs| :: !SameSlot(runs[i], r)
    ensures SlotsDiffer(runs + [r])
  {
    var all := runs + [r];
    forall i, j | 0 <= i < j < |all|
      ensures !SameSlot(all[i], all[j])
    {
      if j < |runs| {
        assert !SameSlot(runs[i], runs[j]);
      }
    }
  }

  lemma SlotsUpdate(runs: seq<Run>, i: nat, r: Run)
    requires SlotsDiffer(runs) && i < |runs| && SameSlot(runs[i], r)
    ensures SlotsDiffer(runs[i := r])
  {
    var all := runs[i := r];
    forall j, k | 0 <= j < k < |all|
      ensures !SameSlot(all[j], all[k])
    {
      assert !SameSlot(runs[j], runs[k]);
    }
  }

  /** The run a step changes, in its new form. */
  function Moved(c: Config, r: Run, a: Action): Run {
    match a
    case Answer(_, ok) => r.(outcomes := r.outcomes + [ok], phase := Answered)
    case Tally(_) => r.(phase := Tallied)
    case Reporting(_, _, _) =>
      r.(phase := if !Last(r.outcomes) && |r.outcomes| <= c.maxRetries then Waiting else Closed)
    case Wake(_) => r.(phase := Calling)
    case _ => r
  }

  predicate MovesRun(a: Action) {
    a.Answer? || a.Tally? || a.Reporting? || a.Wake?
  }

  function RunIndex(a: Action): nat
    requires MovesRun(a)
  {
    match a
    case Answer(run, _) => run
    case Tally(run) => run
    case Reporting(run, _, _) => run
    case Wake(run) => run
  }

  /** A step that moves a run changes that run only, as `Moved` says. */
  lemma StepMoves(c: Config, id: string, log: seq<Message>, n: Node, a: Action)
    requires Enabled(id, n, a) && MovesRun(a)
    ensures RunIndex(a) < |n.runs|
    ensures Step(c, id, n, a, log).runs == n.runs[RunIndex(a) := Moved(c, n.runs[RunIndex(a)], a)]
    ensures SameSlot(n.runs[RunIndex(a)], Moved(c, n.runs[RunIndex(a)], a))
  {
  }

  lemma ShapedKept(c: Config, id: string, n: Node, a: Action)
    requires Enabled(id, n, a) && MovesRun(a) && Shaped(c.maxRetries, n.runs[RunIndex(a)])
    ensures Shaped(c.maxRetries, Moved(c, n.runs[RunIndex(a)], a))
  {
  }

  lemma RunsKept(c: Config, id: string, log: seq<Message>, n: Node, a: Action)
    requires Enabled(id, n, a) && Consuming(log, n) && Metered(id, log, n) && LogOk(log)
    requires RunsOk(c, id, log, n.clock, n.runs) && SlotsDiffer(n.runs) && RestIsOpen(n)
    ensures var n' := Step(c, id, n, a, log);
            RunsOk(c, id, log, n'.clock, n'.runs) && SlotsDiffer(n'.runs) && RestIsOpen(n')
  {
    if MovesRun(a) {
      MoveKept(c, id, log, n, a);
    } else if a.Distribute? {
      DistributeKept(c, id, log, n);
    } else if a.Handle? {
      HandleKeepsRuns(c, id, log, n, a.now);
    } else if !Consumes(a) {
      OthersDoNotConsume(c, id, log, n, a);
    }
  }

  lemma MoveKept(c: Config, id: string, log: seq<Message>, n: Node, a: Action)
    requires Enabled(id, n, a) && MovesRun(a)
    requires RunsOk(c, id, log, n.clock, n.runs) && SlotsDiffer(n.runs) && RestIsOpen(n)
    ensures var n' := Step(c, id, n, a, log);
            RunsOk(c, id, log, n'.clock, n'.runs) && SlotsDiffer(n'.runs) && RestIsOpen(n')
  {
    var n' := Step(c, id, n, a, log);
    StepMoves(c, id, log, n, a);
    OthersDoNotConsume(c, id, log, n, a);
    var i := RunIndex(a);
    assert RunOk(c, id, log, n.clock, n.runs[i]);
    ShapedKept(c, id, n, a);
    forall k | 0 <= k < |n'.runs|
      ensures RunOk(c, id, log, n'.clock, n'.runs[k])
    {
      assert RunOk(c, id, log, n.clock, n.runs[k]);
    }
    SlotsUpdate(n.runs, i, n'.runs[i]);
  }

  lemma HandleKeepsRuns(c: Config, id: string, log: seq<Message>, n: Node, now: int)
    requires Enabled(id, n, Handle(now)) && Consuming(log, n)
    requires RunsOk(c, id, log, n.clock, n.runs) && SlotsDiffer(n.runs)
    ensures var n' := Step(c, id, n, Handle(now), log);
            RunsOk(c, id, log, n'.clock, n'.runs) && SlotsDiffer(n'.runs) && RestIsOpen(n')
  {
    var n' := Step(c, id, n, Handle(now), log);
    forall k | 0 <= k < |n'.runs|
      ensures RunOk(c, id, log, n'.clock, n'.runs[k])
      ensures n'.runs[k].pos < |n'.clock| - 1
    {
      assert RunOk(c, id, log, n.clock, n.runs[k]);
    }
  }

  lemma DistributeKept(c: Config, id: string, log: seq<Message>, n: Node)
    requires Enabled(id, n, Distribute) && Consuming(log, n) && Metered(id, log, n) && LogOk(log)
    requires RunsOk(c, id, log, n.clock, n.runs) && SlotsDiffer(n.runs) && RestIsOpen(n)
    ensures var n' := Step(c, id, n, Distribute, log);
            RunsOk(c, id, log, n'.clock, n'.runs) && SlotsDiffer(n'.runs) && RestIsOpen(n')
  {
    var n' := Step(c, id, n, Distribute, log);
    var m := Current(n);
    var target := n.stage.rest[0];
    assert m in log && target == m.targets[|m.targets| - |n.stage.rest|];
    var r := NewRun(c, |n.sub| - 1, target);
    assert RunOk(c, id, log, n.clock, r);
    forall i | 0 <= i < |n.runs|
      ensures !SameSlot(n.runs[i], r)
    {
      assert n.runs[i].pos == |n.clock| - 1 ==> n.runs[i].receiver != n.stage.rest[0];
    }
    SlotsAppend(n.runs, r);
    forall k | 0 <= k < |n'.runs|
      ensures RunOk(c, id, log, n'.clock, n'.runs[k])
    {
      if k < |n.runs| {
        assert RunOk(c, id, log, n.clock, n.runs[k]);
      }
    }
    forall k | 0 <= k < |n'.stage.rest|
      ensures n'.stage.rest[k] == n.stage.rest[k + 1] && n'.stage.rest[k] != target
    {
      assert n.stage.rest[k + 1] == m.targets[|m.targets| - |n.stage.rest| + k + 1];
    }
  }

  // Counters

  /** How a moved run changes the sum of a measure. */
  lemma SumMoved(c: Config, id: string, log: seq<Message>, n: Node, a: Action, f: Run -> int)
    requires Enabled(id, n, a) && MovesRun(a) && RunIndex(a) < |n.runs|
    ensures var r := n.runs[RunIndex(a)];
            Sum(Step(c, id, n, a, log).runs, f) == Sum(n.runs, f) - f(r) + f(Moved(c, r, a))
  {
    StepMoves(c, id, log, n, a);
    SumUpdate(n.runs, RunIndex(a), Moved(c, n.runs[RunIndex(a)], a), f);
  }

  lemma CountedKept(c: Config, id: string, log: seq<Message>, n: Node, a: Action)
    requires Enabled(id, n, a) && Counted(n)
    requires MovesRun(a) ==> RunIndex(a) < |n.runs| && Shaped(c.maxRetries, n.runs[RunIndex(a)])
    ensures Counted(Step(c, id, n, a, log))
  {
    if MovesRun(a) {
      SumMoved(c, id, log, n, a, Attempts);
      SumMoved(c, id, log, n, a, TalliedSuccesses);
      SumMoved(c, id, log, n, a, TalliedFailures);
    } else if a.Distribute? {
      SpawnKeepsSums(c, id, log, n);
    }
  }

  /** A new delivery weighs nothing in any of the sums. */
  lemma SpawnKeepsSums(c: Config, id: string, log: seq<Message>, n: Node)
    requires Enabled(id, n, Distribute)
    ensures var runs := Step(c, id, n, Distribute, log).runs;
            && Sum(runs, Attempts) == Sum(n.runs, Attempts)
            && Sum(runs, TalliedSuccesses) == Sum(n.runs, TalliedSuccesses)
            && Sum(runs, TalliedFailures) == Sum(n.runs, TalliedFailures)
            && Sum(runs, ReportedSuccesses) == Sum(n.runs, ReportedSuccesses)
            && Sum(runs, ReportedFailures) == Sum(n.runs, ReportedFailures)
  {
    var r := NewRun(c, |n.sub| - 1, n.stage.rest[0]);
    SumAppend(n.runs, r, Attempts);
    SumAppend(n.runs, r, TalliedSuccesses);
    SumAppend(n.runs, r, TalliedFailures);
    SumAppend(n.runs, r, ReportedSuccesses);
    SumAppend(n.runs, r, ReportedFailures);
  }
}
