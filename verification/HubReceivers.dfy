/** Receiver by receiver: while one is not unregistered, its counters are the reports made about it. */
module HubReceivers {
  import opened Sums
  import opened Models
  import opened ReceiverTable
  import opened HubNode
  import opened HubInvariant
  import opened HubBooks

  /** Nothing has been reported about a receiver that is not there yet. */
  lemma NewcomerBooked(n: Node, id: string)
    requires NothingLost(n) && !Known(n, id)
    ensures Sum(n.ingests, CountedAt(id)) == 0
    ensures Sum(n.runs, At(id, ReportedSuccesses)) == 0 && Sum(n.runs, At(id, ReportedFailures)) == 0
  {
    forall i | 0 <= i < |n.ingests|
      ensures CountedAt(id)(n.ingests[i]) == 0
    {
      assert !Targets(n.ingests[i], id);
    }
    SumZero(n.ingests, CountedAt(id));
    SumZero(n.runs, At(id, ReportedSuccesses));
    SumZero(n.runs, At(id, ReportedFailures));
  }

  /** Administration leaves the counters of those who stay as they are, and newcomers start at zero. */
  lemma AdministrationKeepsCounters(c: Config, hub: string, log: seq<Message>, n: Node, a: Action, id: string)
    requires Enabled(hub, n, a) && (a.Registering? || a.Updating? || a.Unregistering? || a.ChangingStatus?)
    ensures var n' := Step(c, hub, n, a, log);
            && n'.runs == n.runs && n'.ingests == n.ingests
            && (id in n'.reg && id in n.reg ==>
                  && Received(n'.reg[id]) == Received(n.reg[id])
                  && Delivered(n'.reg[id]) == Delivered(n.reg[id]) && Failed(n'.reg[id]) == Failed(n.reg[id]))
            && (id in n'.reg && id !in n.reg ==>
                  Received(n'.reg[id]) == Delivered(n'.reg[id]) == Failed(n'.reg[id]) == 0)
  {
  }

  lemma AdministrationKept(c: Config, hub: string, log: seq<Message>, n: Node, a: Action, id: string)
    requires Enabled(hub, n, a) && (a.Registering? || a.Updating? || a.Unregistering? || a.ChangingStatus?)
    requires NothingLost(n) && id !in n.removed && id in Step(c, hub, n, a, log).reg
    requires id in n.reg ==> ReceiverBooked(n, id)
    ensures ReceiverBooked(Step(c, hub, n, a, log), id)
  {
    AdministrationKeepsCounters(c, hub, log, n, a, id);
    if id !in n.reg {
      NewcomerBooked(n, id);
    }
  }

  /** Counting an event at a target moves that receiver's count and nobody else's. */
  lemma CountOneKept(c: Config, hub: string, log: seq<Message>, n: Node, call: nat, now: int, id: string)
    requires Enabled(hub, n, CountOne(call, now)) && IngestOk(n.ingests[call])
    requires id in n.reg && ReceiverBooked(n, id)
    ensures var n' := Step(c, hub, n, CountOne(call, now), log);
            id in n'.reg && ReceiverBooked(n', id)
  {
    var g := n.ingests[call];
    var counted := g.(counted := g.counted + 1);
    SumUpdate(n.ingests, call, counted, CountedAt(id));
    assert g.targets[..g.counted + 1] == g.targets[..g.counted] + [g.targets[g.counted]];
    assert g.targets[g.counted] !in g.targets[..g.counted];
  }

  lemma IngestKept(c: Config, hub: string, log: seq<Message>, n: Node, a: Action, id: string)
    requires Enabled(hub, n, a) && (a.Begin? || a.CountOne? || a.MarkPublished?) && IngestsOk(n.ingests)
    requires id in n.reg && ReceiverBooked(n, id)
    ensures var n' := Step(c, hub, n, a, log);
            id in n'.reg && ReceiverBooked(n', id)
  {
    match a
    case Begin(e, targets) =>
      SumAppend(n.ingests, Ingest(e, targets, 0, false), CountedAt(id));
    case CountOne(call, now) =>
      assert IngestOk(n.ingests[call]);
      CountOneKept(c, hub, log, n, call, now, id);
    case MarkPublished(call) =>
      SumUpdate(n.ingests, call, n.ingests[call].(published := true), CountedAt(id));
  }

  /** A step of a delivery adds to the reports when it is the reporting step, by its last outcome. */
  lemma ReportsMove(c: Config, hub: string, n: Node, a: Action)
    requires Enabled(hub, n, a) && MovesRun(a)
    requires RunIndex(a) < |n.runs| && Shaped(c.maxRetries, n.runs[RunIndex(a)])
    ensures var r := n.runs[RunIndex(a)];
            var m := Moved(c, r, a);
            && m.receiver == r.receiver
            && ReportedSuccesses(m) == ReportedSuccesses(r) + (if a.Reporting? && Last(r.outcomes) then 1 else 0)
            && ReportedFailures(m) == ReportedFailures(r) + if a.Reporting? && !Last(r.outcomes) then 1 else 0
  {
  }

  /** And so do the receiver's counters in the registry. */
  lemma CountersMove(c: Config, hub: string, log: seq<Message>, n: Node, a: Action, id: string)
    requires Enabled(hub, n, a) && MovesRun(a) && RunIndex(a) < |n.runs| && id in n.reg
    ensures var r := n.runs[RunIndex(a)];
            var n' := Step(c, hub, n, a, log);
            var reports := a.Reporting? && r.receiver == id;
            && id in n'.reg && n'.ingests == n.ingests
            && Received(n'.reg[id]) == Received(n.reg[id])
            && Delivered(n'.reg[id]) == Delivered(n.reg[id]) + (if reports && Last(r.outcomes) then 1 else 0)
            && Failed(n'.reg[id]) == Failed(n.reg[id]) + if reports && !Last(r.outcomes) then 1 else 0
  {
  }

  /** What a delivery's step reports, it reports at its own receiver. */
  lemma RunKept(c: Config, hub: string, log: seq<Message>, n: Node, a: Action, id: string)
    requires Enabled(hub, n, a) && MovesRun(a)
    requires RunIndex(a) < |n.runs| && Shaped(c.maxRetries, n.runs[RunIndex(a)])
    requires id in n.reg && ReceiverBooked(n, id)
    ensures var n' := Step(c, hub, n, a, log);
            id in n'.reg && ReceiverBooked(n', id)
  {
    CountersMove(c, hub, log, n, a, id);
    AtMoves(c, hub, log, n, a, id);
  }

  lemma AtMoves(c: Config, hub: string, log: seq<Message>, n: Node, a: Action, id: string)
    requires Enabled(hub, n, a) && MovesRun(a)
    requires RunIndex(a) < |n.runs| && Shaped(c.maxRetries, n.runs[RunIndex(a)])
    ensures var r := n.runs[RunIndex(a)];
            var runs := Step(c, hub, n, a, log).runs;
            var reports := a.Reporting? && r.receiver == id;
            && Sum(runs, At(id, ReportedSuccesses)) ==
               Sum(n.runs, At(id, ReportedSuccesses)) + (if reports && Last(r.outcomes) then 1 else 0)
            && Sum(runs, At(id, ReportedFailures)) ==
               Sum(n.runs, At(id, ReportedFailures)) + if reports && !Last(r.outcomes) then 1 else 0
  {
    ReportsMove(c, hub, n, a);
    SumMoved(c, hub, log, n, a, At(id, ReportedSuccesses));
    SumMoved(c, hub, log, n, a, At(id, ReportedFailures));
  }

  lemma ConsumingKeepsReports(c: Config, hub: string, log: seq<Message>, n: Node, a: Action, id: string)
    requires Enabled(hub, n, a) && Consumes(a) && id in n.reg && ReceiverBooked(n, id)
    ensures var n' := Step(c, hub, n, a, log);
            id in n'.reg && ReceiverBooked(n', id)
  {
    ConsumersKeepBooks(c, hub, log, n, a);
    if a.Distribute? {
      SpawnKeepsReports(c, hub, log, n, id);
    }
  }

  lemma SpawnKeepsReports(c: Config, hub: string, log: seq<Message>, n: Node, id: string)
    requires Enabled(hub, n, Distribute)
    ensures var runs := Step(c, hub, n, Distribute, log).runs;
            && Sum(runs, At(id, ReportedSuccesses)) == Sum(n.runs, At(id, ReportedSuccesses))
            && Sum(runs, At(id, ReportedFailures)) == Sum(n.runs, At(id, ReportedFailures))
  {
    var r := NewRun(c, |n.sub| - 1, n.stage.rest[0]);
    assert ReportedSuccesses(r) == ReportedFailures(r) == 0;
    SumAppend(n.runs, r, At(id, ReportedSuccesses));
    SumAppend(n.runs, r, At(id, ReportedFailures));
  }

  lemma ReceiverBookedKept(c: Config, hub: string, log: seq<Message>, n: Node, a: Action, id: string)
    requires Enabled(hub, n, a) && NothingLost(n) && IngestsOk(n.ingests)
    requires MovesRun(a) ==> RunIndex(a) < |n.runs| && Shaped(c.maxRetries, n.runs[RunIndex(a)])
    requires ReceiversBooked(n) && id !in n.removed && id in Step(c, hub, n, a, log).reg
    ensures ReceiverBooked(Step(c, hub, n, a, log), id)
  {
    if a.Registering? || a.Updating? || a.Unregistering? || a.ChangingStatus? {
      AdministrationKept(c, hub, log, n, a, id);
    } else {
      NobodyComes(c, hub, log, n, a);
      assert ReceiverBooked(n, id);
      if Consumes(a) {
        ConsumingKeepsReports(c, hub, log, n, a, id);
      } else if MovesRun(a) {
        RunKept(c, hub, log, n, a, id);
      } else {
        IngestKept(c, hub, log, n, a, id);
      }
    }
  }

  lemma NobodyComes(c: Config, hub: string, log: seq<Message>, n: Node, a: Action)
    requires Enabled(hub, n, a) && !(a.Registering? || a.Updating? || a.Unregistering? || a.ChangingStatus?)
    ensures Step(c, hub, n, a, log).reg.Keys == n.reg.Keys
  {
  }

  lemma ReceiversBookedKept(c: Config, hub: string, log: seq<Message>, n: Node, a: Action)
    requires Enabled(hub, n, a) && NothingLost(n) && IngestsOk(n.ingests) && ReceiversBooked(n)
    requires MovesRun(a) ==> RunIndex(a) < |n.runs| && Shaped(c.maxRetries, n.runs[RunIndex(a)])
    ensures ReceiversBooked(Step(c, hub, n, a, log))
  {
    RemovalsGrow(c, hub, log, n, a);
    var n' := Step(c, hub, n, a, log);
    forall id | id in n'.reg && id !in n'.removed
      ensures ReceiverBooked(n', id)
    {
      ReceiverBookedKept(c, hub, log, n, a, id);
    }
  }

  lemma RemovalsGrow(c: Config, hub: string, log: seq<Message>, n: Node, a: Action)
    requires Enabled(hub, n, a)
    ensures n.removed <= Step(c, hub, n, a, log).removed
  {
  }
}
