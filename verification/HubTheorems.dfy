/** What holds of every hub in every reachable state of the cluster. */
module HubTheorems {
  import opened Sums
  import opened Models
  import opened ReceiverTable
  import opened HubNode
  import opened HubInvariant
  import opened Cluster

  lemma HubInvariantHolds(cs: Configs, hubs: set<string>, s: Cluster, hub: string)
    requires Reachable(cs, hubs, s) && hub in s.nodes
    ensures NodeInv(cs(hub), hub, s.log, s.nodes[hub]) && LogOk(s.log)
    ensures Sum(s.nodes[hub].ingests, PublishedTargets) == Sum(s.log, StampedTargets(hub))
  {
    ReachableIsSafe(cs, hubs, s);
    assert HubOk(cs, s, hub);
  }

  // Consumption

  /**
   A hub passes on exactly those messages of its consumed front that other hubs stamped and that had not
   expired when handled; every pull metric follows, and none is ever counted as failed.
   */
  lemma Consumption(cs: Configs, hubs: set<string>, s: Cluster, hub: string)
    requires Reachable(cs, hubs, s) && hub in s.nodes
    ensures var n := s.nodes[hub];
            && |n.sub| <= |s.log| && n.sub == s.log[..|n.sub|]
            && |n.clock| <= |n.sub| <= |n.clock| + 1
            && n.distributed == Chosen(hub, s.log, n.clock)
            && n.received == |n.clock|
            && n.received == n.processed + n.failed + n.skipped + (if n.stage.Distributing? then 1 else 0)
            && n.failed == 0
            && (forall m | m in n.distributed :: m.hubId != hub && m in n.sub)
  {
    HubInvariantHolds(cs, hubs, s, hub);
    var n := s.nodes[hub];
    forall m | m in n.distributed
      ensures m.hubId != hub && m in n.sub
    {
      ChosenMembers(hub, s.log, n.clock, m);
      var k :| 0 <= k < |n.clock| && s.log[k] == m;
      assert n.sub[k] == m;
    }
  }

  lemma {:induction false} ChosenMembers(hub: string, log: seq<Message>, clock: seq<int>, m: Message)
    requires |clock| <= |log|
    ensures m in Chosen(hub, log, clock) <==>
            exists k | 0 <= k < |clock| :: log[k] == m && Wanted(hub, m, clock[k])
  {
    if clock == [] {
    } else {
      var k := |clock| - 1;
      ChosenMembers(hub, log, clock[..k], m);
      if m in Chosen(hub, log, clock[..k]) {
        var j :| 0 <= j < k && log[j] == m && Wanted(hub, m, clock[..k][j]);
        assert clock[j] == clock[..k][j];
      }
    }
  }

  lemma {:induction false} ChosenNothing(hub: string, log: seq<Message>, clock: seq<int>)
    requires |clock| <= |log| && forall m | m in log :: m.hubId == hub
    ensures Chosen(hub, log, clock) == []
  {
    if clock == [] {
    } else {
      var k := |clock| - 1;
      ChosenNothing(hub, log, clock[..k]);
      assert log[k] in log;
    }
  }

  /** A hub that is alone on its topic never distributes anything. */
  lemma LoneHubIsSilent(cs: Configs, s: Cluster, hub: string)
    requires Reachable(cs, {hub}, s) && hub in s.nodes
    ensures var n := s.nodes[hub];
            n.distributed == [] && n.runs == [] && n.attempted == 0 && n.skipped == n.received
  {
    ReachableIsSafe(cs, {hub}, s);
    Consumption(cs, {hub}, s, hub);
    var n := s.nodes[hub];
    assert HubOk(cs, s, hub);
    ChosenNothing(hub, s.log, n.clock);
  }

  // Deliveries

  /** At most one delivery per message and receiver, each for a target of a message passed on. */
  lemma DeliveriesAreWanted(cs: Configs, hubs: set<string>, s: Cluster, hub: string)
    requires Reachable(cs, hubs, s) && hub in s.nodes
    ensures var n := s.nodes[hub];
            && |n.runs| <= Sum(n.distributed, TargetCount)
            && (forall i, j | 0 <= i < j < |n.runs| ::
                  n.runs[i].pos != n.runs[j].pos || n.runs[i].receiver != n.runs[j].receiver)
            && forall i | 0 <= i < |n.runs| ::
                 && n.runs[i].pos < |n.clock| <= |s.log|
                 && s.log[n.runs[i].pos].hubId != hub
                 && !Expired(s.log[n.runs[i].pos], n.clock[n.runs[i].pos])
                 && n.runs[i].receiver in s.log[n.runs[i].pos].targets
  {
    HubInvariantHolds(cs, hubs, s, hub);
    var n := s.nodes[hub];
    forall i | 0 <= i < |n.runs|
      ensures RunOk(cs(hub), hub, s.log, n.clock, n.runs[i])
    {
    }
    forall i, j | 0 <= i < j < |n.runs|
      ensures n.runs[i].pos != n.runs[j].pos || n.runs[i].receiver != n.runs[j].receiver
    {
      assert !SameSlot(n.runs[i], n.runs[j]);
    }
  }

  /**
   A delivery makes at most one attempt more than its retries and succeeds at most once, in its last
   attempt. A closed one was delivered, or failed in every one of those attempts.
   */
  lemma DeliveryOutcome(cs: Configs, hubs: set<string>, s: Cluster, hub: string, i: nat)
    requires Reachable(cs, hubs, s) && hub in s.nodes && i < |s.nodes[hub].runs|
    ensures var r := s.nodes[hub].runs[i];
            var limit := cs(hub).maxRetries + 1;
            && (limit > 0 ==> |r.outcomes| <= limit)
            && (limit <= 0 ==> r.outcomes == [] && r.phase == Closed)
            && (forall k | 0 <= k < |r.outcomes| && r.outcomes[k] :: k == |r.outcomes| - 1)
            && (r.phase == Closed && limit > 0 ==>
                  Last(r.outcomes) || (|r.outcomes| == limit && forall k | 0 <= k < limit :: !r.outcomes[k]))
  {
    HubInvariantHolds(cs, hubs, s, hub);
    assert RunOk(cs(hub), hub, s.log, s.nodes[hub].clock, s.nodes[hub].runs[i]);
    OutcomeOf(cs(hub).maxRetries, s.nodes[hub].runs[i]);
  }

  lemma OutcomeOf(maxRetries: int, r: Run)
    requires Shaped(maxRetries, r)
    ensures forall k | 0 <= k < |r.outcomes| && r.outcomes[k] :: k == |r.outcomes| - 1
    ensures r.phase == Closed && maxRetries >= 0 ==>
              Last(r.outcomes) || (|r.outcomes| == maxRetries + 1 && forall k | 0 <= k <= maxRetries :: !r.outcomes[k])
  {
  }

  /** Attempts are bounded by the targets of the messages passed on. */
  lemma AttemptsAreBounded(cs: Configs, hubs: set<string>, s: Cluster, hub: string)
    requires Reachable(cs, hubs, s) && hub in s.nodes && cs(hub).maxRetries >= 0
    ensures var n := s.nodes[hub];
            0 <= n.attempted <= (cs(hub).maxRetries + 1) * Sum(n.distributed, TargetCount)
  {
    HubInvariantHolds(cs, hubs, s, hub);
    var n := s.nodes[hub];
    var limit := cs(hub).maxRetries + 1;
    forall r | r in n.runs
      ensures 0 <= Attempts(r) <= limit
    {
      var i :| 0 <= i < |n.runs| && n.runs[i] == r;
      assert RunOk(cs(hub), hub, s.log, n.clock, n.runs[i]);
    }
    SumBounds(n.runs, Attempts, 0, limit);
    Scale(limit, |n.runs|, Sum(n.distributed, TargetCount));
  }

  lemma Scale(k: nat, x: int, y: int)
    requires x <= y
    ensures k * x <= k * y
  {
  }

  /** The steps a delivery still has before it: four for every attempt it may still make. */
  function Remaining(maxRetries: int, r: Run): int {
    if r.phase == Closed then 0
    else 4 * (maxRetries + 1 - |r.outcomes|) +
         match r.phase case Calling => 0 case Answered => 3 case Tallied => 2 case _ => 1
  }

  /** An open delivery always has a step it can take, whatever everyone else does. */
  lemma OpenDeliveryCanStep(cs: Configs, hubs: set<string>, s: Cluster, hub: string, i: nat)
    requires Reachable(cs, hubs, s) && hub in s.nodes && i < |s.nodes[hub].runs|
    requires s.nodes[hub].runs[i].phase != Closed
    ensures exists a :: MovesRun(a) && RunIndex(a) == i && Possible(s, Local(hub, a))
    ensures Remaining(cs(hub).maxRetries, s.nodes[hub].runs[i]) > 0
  {
    HubInvariantHolds(cs, hubs, s, hub);
    var r := s.nodes[hub].runs[i];
    assert RunOk(cs(hub), hub, s.log, s.nodes[hub].clock, r);
    var a := NextStep(i, r.phase);
    NextStepEnabled(cs(hub), hub, s.nodes[hub], i);
    assert Possible(s, Local(hub, a));
  }

  /** The kind of step an open delivery takes next. */
  function NextStep(i: nat, phase: Phase): Action {
    match phase
    case Calling => Answer(i, true)
    case Answered => Tally(i)
    case Tallied => Reporting(i, "", 0)
    case _ => Wake(i)
  }

  lemma NextStepEnabled(c: Config, hub: string, n: Node, i: nat)
    requires i < |n.runs| && n.runs[i].phase != Closed && Shaped(c.maxRetries, n.runs[i])
    ensures var a := NextStep(i, n.runs[i].phase);
            MovesRun(a) && RunIndex(a) == i && Enabled(hub, n, a) && Remaining(c.maxRetries, n.runs[i]) > 0
  {
  }

  /**
   Every step of a delivery brings it nearer its end, and no other move takes it back or removes it: so
   each delivery ends after at most four steps per permitted attempt.
   */
  lemma DeliveriesMoveOn(cs: Configs, hubs: set<string>, s: Cluster, m: Move, hub: string, i: nat)
    requires Reachable(cs, hubs, s) && hub in s.nodes && i < |s.nodes[hub].runs|
    requires Possible(s, m)
    ensures var n' := After(cs, s, m).nodes[hub];
            var before := Remaining(cs(hub).maxRetries, s.nodes[hub].runs[i]);
            && i < |n'.runs| && SameSlot(s.nodes[hub].runs[i], n'.runs[i])
            && s.nodes[hub].runs[i].outcomes <= n'.runs[i].outcomes
            && var after := Remaining(cs(hub).maxRetries, n'.runs[i]);
            && 0 <= after <= before <= 4 * (if cs(hub).maxRetries >= 0 then cs(hub).maxRetries + 1 else 0)
            && (m.hub == hub && m.Local? && MovesRun(m.action) && RunIndex(m.action) == i ==> after < before)
  {
    HubInvariantHolds(cs, hubs, s, hub);
    var n := s.nodes[hub];
    assert RunOk(cs(hub), hub, s.log, n.clock, n.runs[i]);
    RemainingIsBounded(cs(hub).maxRetries, n.runs[i]);
    MovesAt(cs, s, m, hub);
    if m.hub == hub {
      RunsMoveOn(cs(hub), hub, s.log, n, ActionOf(m), i);
    }
  }

  lemma RemainingIsBounded(maxRetries: int, r: Run)
    requires Shaped(maxRetries, r)
    ensures 0 <= Remaining(maxRetries, r) <= 4 * (if maxRetries >= 0 then maxRetries + 1 else 0)
  {
  }

  lemma RunsMoveOn(c: Config, hub: string, log: seq<Message>, n: Node, a: Action, i: nat)
    requires Enabled(hub, n, a) && i < |n.runs| && Shaped(c.maxRetries, n.runs[i])
    ensures var n' := Step(c, hub, n, a, log);
            && i < |n'.runs| && SameSlot(n.runs[i], n'.runs[i]) && n.runs[i].outcomes <= n'.runs[i].outcomes
            && 0 <= Remaining(c.maxRetries, n'.runs[i]) <= Remaining(c.maxRetries, n.runs[i])
            && (MovesRun(a) && RunIndex(a) == i ==>
                  Remaining(c.maxRetries, n'.runs[i]) < Remaining(c.maxRetries, n.runs[i]))
  {
    if MovesRun(a) {
      StepMoves(c, hub, log, n, a);
    } else {
      RunsStay(c, hub, log, n, a, i);
    }
  }

  lemma RunsStay(c: Config, hub: string, log: seq<Message>, n: Node, a: Action, i: nat)
    requires Enabled(hub, n, a) && i < |n.runs| && !MovesRun(a)
    ensures var n' := Step(c, hub, n, a, log);
            i < |n'.runs| && n'.runs[i] == n.runs[i]
  {
  }

  // Conservation

  /** No delivery stands between its attempt and the end of that attempt's bookkeeping. */
  ghost predicate Settled(n: Node) {
    forall i | 0 <= i < |n.runs| :: n.runs[i].phase != Answered && n.runs[i].phase != Tallied
  }

  /**
   Every attempt is a success, a failure or awaits its verdict; what the registry's receivers show as
   delivered and failed never exceeds the distributor's own counts, the difference being what is being
   reported and what left with unregistered receivers.
   */
  lemma DeliveryBooks(cs: Configs, hubs: set<string>, s: Cluster, hub: string)
    requires Reachable(cs, hubs, s) && hub in s.nodes
    ensures var n := s.nodes[hub];
            && n.attempted == n.succeeded + n.failedDeliveries + Sum(n.runs, Unanswered)
            && n.succeeded == TotalOf(n.reg, Delivered) + n.lost.delivered + Sum(n.runs, Unreported)
            && n.failedDeliveries == TotalOf(n.reg, Failed) + n.lost.failed + Sum(n.runs, UnreportedFailures)
            && Sum(n.runs, Unanswered) >= 0 && Sum(n.runs, Unreported) >= 0
            && Sum(n.runs, UnreportedFailures) >= 0
            && 0 <= TotalOf(n.reg, Delivered) <= n.succeeded
            && 0 <= TotalOf(n.reg, Failed) <= n.failedDeliveries
  {
    HubInvariantHolds(cs, hubs, s, hub);
    var n := s.nodes[hub];
    AttemptSums(cs(hub), n);
    ReportSums(cs(hub), hub, s.log, n);
    TotalsNonNegative(n);
  }

  lemma AttemptSums(c: Config, n: Node)
    requires Counted(n)
    ensures n.attempted == n.succeeded + n.failedDeliveries + Sum(n.runs, Unanswered)
    ensures Sum(n.runs, Unanswered) >= 0
  {
    var judged := (r: Run) => Attempts(r) - Unanswered(r);
    SumPlus(n.runs, judged, TalliedSuccesses, TalliedFailures);
    SumPlus(n.runs, Attempts, judged, Unanswered);
    SumBounds(n.runs, Unanswered, 0, 1);
  }

  lemma ReportSums(c: Config, hub: string, log: seq<Message>, n: Node)
    requires RunsOk(c, hub, log, n.clock, n.runs) && Counted(n) && Booked(n)
    ensures n.succeeded == TotalOf(n.reg, Delivered) + n.lost.delivered + Sum(n.runs, Unreported)
    ensures n.failedDeliveries == TotalOf(n.reg, Failed) + n.lost.failed + Sum(n.runs, UnreportedFailures)
    ensures Sum(n.runs, Unreported) >= 0 && Sum(n.runs, UnreportedFailures) >= 0
  {
    forall r | r in n.runs
      ensures TalliedSuccesses(r) == ReportedSuccesses(r) + Unreported(r)
    {
      var i :| 0 <= i < |n.runs| && n.runs[i] == r;
      assert RunOk(c, hub, log, n.clock, n.runs[i]);
    }
    SumPlus(n.runs, TalliedSuccesses, ReportedSuccesses, Unreported);
    SumPlus(n.runs, TalliedFailures, ReportedFailures, UnreportedFailures);
    SumBounds(n.runs, Unreported, 0, 1);
    SumBounds(n.runs, UnreportedFailures, 0, 1);
  }

  lemma TotalOfNonNegative(t: Table, f: Receiver -> int)
    requires forall id | id in t :: f(t[id]) >= 0
    ensures TotalOf(t, f) >= 0
  {
    TotalNonNegative(map id | id in t :: f(t[id]));
  }

  lemma TotalsNonNegative(n: Node)
    requires NonNegative(n.reg, n.lost)
    ensures TotalOf(n.reg, Delivered) >= 0 && TotalOf(n.reg, Failed) >= 0
  {
    forall id | id in n.reg
      ensures CountersOk(n.reg[id])
    {
    }
    TotalOfNonNegative(n.reg, Delivered);
    TotalOfNonNegative(n.reg, Failed);
  }

  /** With nothing in flight and nothing ever unregistered, the books are equal. */
  lemma SettledBooksAgree(cs: Configs, hubs: set<string>, s: Cluster, hub: string)
    requires Reachable(cs, hubs, s) && hub in s.nodes
    requires Settled(s.nodes[hub]) && s.nodes[hub].removed == {}
    ensures var n := s.nodes[hub];
            && n.attempted == n.succeeded + n.failedDeliveries
            && TotalOf(n.reg, Delivered) == n.succeeded && TotalOf(n.reg, Failed) == n.failedDeliveries
  {
    HubInvariantHolds(cs, hubs, s, hub);
    DeliveryBooks(cs, hubs, s, hub);
    var n := s.nodes[hub];
    forall r | r in n.runs
      ensures Unanswered(r) == Unreported(r) == UnreportedFailures(r) == 0
    {
      var i :| 0 <= i < |n.runs| && n.runs[i] == r;
    }
    SumBounds(n.runs, Unanswered, 0, 0);
    SumBounds(n.runs, Unreported, 0, 0);
    SumBounds(n.runs, UnreportedFailures, 0, 0);
  }

  function Failures(r: Run): int { Attempts(r) - Successes(r) }

  /**
   Receiver by receiver, whoever else was unregistered: at any time a receiver that never was shows one
   received event for each call that has counted its event there; once nothing is in flight it shows one
   delivered event for each of its deliveries that succeeded, and one failure for each failed attempt.
   */
  lemma ReceiverBooks(cs: Configs, hubs: set<string>, s: Cluster, hub: string, id: string)
    requires Reachable(cs, hubs, s) && hub in s.nodes && id in s.nodes[hub].reg && id !in s.nodes[hub].removed
    ensures Received(s.nodes[hub].reg[id]) == Sum(s.nodes[hub].ingests, CountedAt(id))
    ensures Settled(s.nodes[hub]) ==>
              && Delivered(s.nodes[hub].reg[id]) == Sum(s.nodes[hub].runs, At(id, Successes))
              && Failed(s.nodes[hub].reg[id]) == Sum(s.nodes[hub].runs, At(id, Failures))
  {
    HubInvariantHolds(cs, hubs, s, hub);
    var n := s.nodes[hub];
    assert ReceiverBooked(n, id);
    if Settled(n) {
      forall r | r in n.runs
        ensures At(id, ReportedSuccesses)(r) == At(id, Successes)(r)
        ensures At(id, ReportedFailures)(r) == At(id, Failures)(r)
      {
        var i :| 0 <= i < |n.runs| && n.runs[i] == r;
        assert RunOk(cs(hub), hub, s.log, n.clock, n.runs[i]);
        SettledReports(cs(hub).maxRetries, r);
      }
      SumSame(n.runs, At(id, ReportedSuccesses), At(id, Successes));
      SumSame(n.runs, At(id, ReportedFailures), At(id, Failures));
    }
  }

  lemma SettledReports(maxRetries: int, r: Run)
    requires Shaped(maxRetries, r) && r.phase != Answered && r.phase != Tallied
    ensures ReportedSuccesses(r) == Successes(r) && ReportedFailures(r) == Failures(r)
  {
  }

  /**
   Events counted at the receivers cover the targets of every message the hub has published; once no
   call is half way and nothing was unregistered, they are those targets exactly.
   */
  lemma ReceivedBooks(cs: Configs, hubs: set<string>, s: Cluster, hub: string)
    requires Reachable(cs, hubs, s) && hub in s.nodes
    ensures var n := s.nodes[hub];
            var stamped := Sum(s.log, StampedTargets(hub));
            && stamped <= TotalOf(n.reg, Received) + n.lost.received
            && ((forall i | 0 <= i < |n.ingests| :: n.ingests[i].published) && n.removed == {} ==>
                  TotalOf(n.reg, Received) == stamped)
  {
    HubInvariantHolds(cs, hubs, s, hub);
    var n := s.nodes[hub];
    PendingCounts(n.ingests);
    assert NothingLost(n);
  }

  /** Counted targets exceed published ones by those of the calls half way. */
  lemma PendingCounts(ingests: seq<Ingest>)
    requires IngestsOk(ingests)
    ensures Sum(ingests, CountedTargets) >= Sum(ingests, PublishedTargets)
    ensures (forall i | 0 <= i < |ingests| :: ingests[i].published) ==>
              Sum(ingests, CountedTargets) == Sum(ingests, PublishedTargets)
  {
    var pending := (g: Ingest) => CountedTargets(g) - PublishedTargets(g);
    forall g | g in ingests
      ensures pending(g) >= 0 && (g.published ==> pending(g) == 0)
    {
      var i :| 0 <= i < |ingests| && ingests[i] == g;
      assert IngestOk(ingests[i]);
    }
    SumPlus(ingests, CountedTargets, PublishedTargets, pending);
    SumNonNegative(ingests, pending);
    if forall i | 0 <= i < |ingests| :: ingests[i].published {
      SumBounds(ingests, pending, 0, 0);
    }
  }
}
