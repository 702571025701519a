/** The counters of a hub's registry, with what left it, are always the reports made so far. */
module HubBooks {
  import opened Sums
  import opened Models
  import opened ReceiverTable
  import opened HubNode
  import opened HubInvariant

  /** How the sums over the table move when a record is written. */
  lemma PutMoves(t: Table, id: string, r: Receiver)
    ensures id in t ==>
              && TotalOf(t[id := r], Received) == TotalOf(t, Received) - Received(t[id]) + Received(r)
              && TotalOf(t[id := r], Delivered) == TotalOf(t, Delivered) - Delivered(t[id]) + Delivered(r)
              && TotalOf(t[id := r], Failed) == TotalOf(t, Failed) - Failed(t[id]) + Failed(r)
    ensures id !in t ==>
              && TotalOf(t[id := r], Received) == TotalOf(t, Received) + Received(r)
              && TotalOf(t[id := r], Delivered) == TotalOf(t, Delivered) + Delivered(r)
              && TotalOf(t[id := r], Failed) == TotalOf(t, Failed) + Failed(r)
  {
    TotalOfUpdate(t, id, r, Received);
    TotalOfUpdate(t, id, r, Delivered);
    TotalOfUpdate(t, id, r, Failed);
  }

  /** The two tables have the same sums. */
  ghost predicate SameTotals(t: Table, s: Table) {
    && TotalOf(t, Received) == TotalOf(s, Received)
    && TotalOf(t, Delivered) == TotalOf(s, Delivered)
    && TotalOf(t, Failed) == TotalOf(s, Failed)
  }

  lemma RegisteringBooked(c: Config, t: Table, r: Receiver, now: int)
    requires Received(r) == Delivered(r) == Failed(r) == 0 && ReceiverTable.Register(c.urlOk, t, r, now).Ok?
    ensures SameTotals(t, ReceiverTable.Register(c.urlOk, t, r, now).value)
  {
    var s := ReceiverTable.Register(c.urlOk, t, r, now).value;
    PutMoves(t, r.id, s[r.id]);
  }

  lemma UpdatingBooked(c: Config, t: Table, r: Receiver, now: int)
    requires ReceiverTable.Update(c.urlOk, t, r, now).Ok?
    ensures SameTotals(t, ReceiverTable.Update(c.urlOk, t, r, now).value)
  {
    var s := ReceiverTable.Update(c.urlOk, t, r, now).value;
    PutMoves(t, r.id, s[r.id]);
  }

  lemma ChangingStatusBooked(t: Table, id: string, status: string, now: int)
    ensures SameTotals(t, SetStatus(t, id, status, now))
  {
    if id in t {
      PutMoves(t, id, SetStatus(t, id, status, now)[id]);
    }
  }

  lemma UnregisteringBooked(t: Table, id: string)
    requires id in t
    ensures TotalOf(t - {id}, Received) + Received(t[id]) == TotalOf(t, Received)
    ensures TotalOf(t - {id}, Delivered) + Delivered(t[id]) == TotalOf(t, Delivered)
    ensures TotalOf(t - {id}, Failed) + Failed(t[id]) == TotalOf(t, Failed)
  {
    TotalOfRemove(t, id, Received);
    TotalOfRemove(t, id, Delivered);
    TotalOfRemove(t, id, Failed);
  }

  /** Steps that touch the registry only. */
  predicate Administers(a: Action) {
    a.Registering? || a.Updating? || a.Unregistering? || a.ChangingStatus?
  }

  lemma AdministrationBooked(c: Config, id: string, log: seq<Message>, n: Node, a: Action)
    requires Enabled(id, n, a) && Administers(a) && Booked(n)
    ensures Booked(Step(c, id, n, a, log))
  {
    match a
    case Registering(r, now) =>
      if ReceiverTable.Register(c.urlOk, n.reg, r, now).Ok? {
        RegisteringBooked(c, n.reg, r, now);
      }
    case Updating(r, now) =>
      if ReceiverTable.Update(c.urlOk, n.reg, r, now).Ok? {
        UpdatingBooked(c, n.reg, r, now);
      }
    case Unregistering(receiver) =>
      if receiver in n.reg {
        UnregisteringBooked(n.reg, receiver);
      }
    case ChangingStatus(receiver, status, now) =>
      ChangingStatusBooked(n.reg, receiver, status, now);
  }

  lemma CountReceivedBooked(t: Table, id: string, now: int)
    requires id in t
    ensures var s := CountReceived(t, id, now);
            && TotalOf(s, Received) == TotalOf(t, Received) + 1
            && TotalOf(s, Delivered) == TotalOf(t, Delivered) && TotalOf(s, Failed) == TotalOf(t, Failed)
  {
    PutMoves(t, id, CountReceived(t, id, now)[id]);
  }

  lemma CountDeliveredBooked(t: Table, id: string, now: int)
    requires id in t
    ensures var s := CountDelivered(t, id, now);
            && TotalOf(s, Delivered) == TotalOf(t, Delivered) + 1
            && TotalOf(s, Received) == TotalOf(t, Received) && TotalOf(s, Failed) == TotalOf(t, Failed)
  {
    PutMoves(t, id, CountDelivered(t, id, now)[id]);
  }

  lemma CountFailedBooked(t: Table, id: string, error: string, now: int)
    requires id in t
    ensures var s := CountFailed(t, id, error, now);
            && TotalOf(s, Failed) == TotalOf(t, Failed) + 1
            && TotalOf(s, Received) == TotalOf(t, Received) && TotalOf(s, Delivered) == TotalOf(t, Delivered)
  {
    PutMoves(t, id, CountFailed(t, id, error, now)[id]);
  }

  lemma CountOneSums(t: Table, id: string, now: int)
    ensures var s := CountReceived(t, id, now);
            && TotalOf(s, Received) + (if id in t then 0 else 1) == TotalOf(t, Received) + 1
            && TotalOf(s, Delivered) == TotalOf(t, Delivered) && TotalOf(s, Failed) == TotalOf(t, Failed)
  {
    if id in t {
      CountReceivedBooked(t, id, now);
    }
  }

  lemma CountOneBooked(c: Config, id: string, log: seq<Message>, n: Node, call: nat, now: int)
    requires Enabled(id, n, CountOne(call, now)) && Booked(n)
    ensures Booked(Step(c, id, n, CountOne(call, now), log))
  {
    var g := n.ingests[call];
    var n' := Step(c, id, n, CountOne(call, now), log);
    var target := g.targets[g.counted];
    assert Sum(n'.ingests, CountedTargets) == Sum(n.ingests, CountedTargets) + 1 by {
      SumUpdate(n.ingests, call, g.(counted := g.counted + 1), CountedTargets);
    }
    assert n'.reg == CountReceived(n.reg, target, now) && n'.runs == n.runs;
    CountOneSums(n.reg, target, now);
  }

  lemma IngestBooked(c: Config, id: string, log: seq<Message>, n: Node, a: Action)
    requires Enabled(id, n, a) && (a.Begin? || a.CountOne? || a.MarkPublished?) && Booked(n)
    ensures Booked(Step(c, id, n, a, log))
  {
    match a
    case Begin(e, targets) =>
      SumAppend(n.ingests, Ingest(e, targets, 0, false), CountedTargets);
    case CountOne(call, now) =>
      CountOneBooked(c, id, log, n, call, now);
    case MarkPublished(call) =>
      SumUpdate(n.ingests, call, n.ingests[call].(published := true), CountedTargets);
  }

  lemma RunBooked(c: Config, id: string, log: seq<Message>, n: Node, a: Action)
    requires Enabled(id, n, a) && MovesRun(a) && Booked(n)
    requires RunIndex(a) < |n.runs| && Shaped(c.maxRetries, n.runs[RunIndex(a)])
    ensures Booked(Step(c, id, n, a, log))
  {
    SumMoved(c, id, log, n, a, ReportedSuccesses);
    SumMoved(c, id, log, n, a, ReportedFailures);
    if a.Reporting? {
      var r := n.runs[a.run];
      if r.receiver in n.reg {
        if Last(r.outcomes) {
          CountDeliveredBooked(n.reg, r.receiver, a.now);
        } else {
          CountFailedBooked(n.reg, r.receiver, a.error, a.now);
        }
      }
    }
  }

  /** The consumer leaves the registry and the calls alone, and adds deliveries only. */
  lemma ConsumersKeepBooks(c: Config, id: string, log: seq<Message>, n: Node, a: Action)
    requires Enabled(id, n, a) && Consumes(a)
    ensures var n' := Step(c, id, n, a, log);
            && n'.reg == n.reg && n'.lost == n.lost && n'.ingests == n.ingests
            && (!a.Distribute? ==> n'.runs == n.runs)
  {
  }

  lemma ConsumingBooked(c: Config, id: string, log: seq<Message>, n: Node, a: Action)
    requires Enabled(id, n, a) && Consumes(a) && Booked(n)
    ensures Booked(Step(c, id, n, a, log))
  {
    ConsumersKeepBooks(c, id, log, n, a);
    if a.Distribute? {
      SpawnKeepsSums(c, id, log, n);
    }
  }

  lemma BookedKept(c: Config, id: string, log: seq<Message>, n: Node, a: Action)
    requires Enabled(id, n, a) && Booked(n)
    requires MovesRun(a) ==> RunIndex(a) < |n.runs| && Shaped(c.maxRetries, n.runs[RunIndex(a)])
    ensures Booked(Step(c, id, n, a, log))
  {
    if Administers(a) {
      AdministrationBooked(c, id, log, n, a);
    } else if a.Begin? || a.CountOne? || a.MarkPublished? {
      IngestBooked(c, id, log, n, a);
    } else if MovesRun(a) {
      RunBooked(c, id, log, n, a);
    } else {
      ConsumingBooked(c, id, log, n, a);
    }
  }
}
