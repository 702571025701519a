/** Every step of a hub, and every message that reaches the topic, keeps the whole invariant. */
module HubSafety {
  import opened Sums
  import opened Models
  import opened ReceiverTable
  import opened HubNode
  import opened HubInvariant
  import opened HubBooks
  import opened HubReceivers

  /** Receivers leave the registry by unregistration only. */
  lemma KeysStay(c: Config, id: string, log: seq<Message>, n: Node, a: Action)
    requires Enabled(id, n, a) && !a.Unregistering?
    ensures n.reg.Keys <= Step(c, id, n, a, log).reg.Keys
    ensures Step(c, id, n, a, log).removed == n.removed
  {
  }

  lemma KnownStay(c: Config, id: string, log: seq<Message>, n: Node, a: Action)
    requires Enabled(id, n, a)
    ensures forall k :: Known(n, k) ==> Known(Step(c, id, n, a, log), k)
  {
    if a.Unregistering? {
    } else {
      KeysStay(c, id, log, n, a);
    }
  }

  lemma NonNegativeKept(c: Config, id: string, log: seq<Message>, n: Node, a: Action)
    requires Enabled(id, n, a) && NonNegative(n.reg, n.lost)
    ensures NonNegative(Step(c, id, n, a, log).reg, Step(c, id, n, a, log).lost)
  {
    var n' := Step(c, id, n, a, log);
    if a.Unregistering? && a.id in n.reg {
      assert CountersOk(n.reg[a.id]);
    }
    forall k | k in n'.reg
      ensures CountersOk(n'.reg[k])
    {
      CountersKept(c, id, log, n, a, k);
    }
  }

  lemma CountersKept(c: Config, id: string, log: seq<Message>, n: Node, a: Action, k: string)
    requires Enabled(id, n, a)
    requires k in n.reg ==> CountersOk(n.reg[k])
    ensures var n' := Step(c, id, n, a, log);
            k in n'.reg ==> CountersOk(n'.reg[k])
  {
    if Consumes(a) {
      ConsumersKeepBooks(c, id, log, n, a);
    }
  }

  lemma ConsistentKept(c: Config, id: string, log: seq<Message>, n: Node, a: Action)
    requires Enabled(id, n, a) && Consistent(c.urlOk, n.reg)
    ensures Consistent(c.urlOk, Step(c, id, n, a, log).reg)
  {
    match a
    case Registering(r, now) =>
      if ReceiverTable.Register(c.urlOk, n.reg, r, now).Ok? {
        RegisterKeepsConsistent(c.urlOk, n.reg, r, now);
      }
    case Updating(r, now) =>
      if ReceiverTable.Update(c.urlOk, n.reg, r, now).Ok? {
        UpdateKeepsStatistics(c.urlOk, n.reg, r, now);
      }
    case Unregistering(receiver) =>
      RemoveKeepsConsistent(c.urlOk, n.reg, receiver);
    case ChangingStatus(receiver, status, now) =>
      StatusKeepsConsistent(c, n.reg, receiver, status, now);
    case CountOne(call, now) =>
      CountingKeepsConsistent(c.urlOk, n.reg, n.ingests[call].targets[n.ingests[call].counted], "", now);
    case Reporting(run, error, now) =>
      CountingKeepsConsistent(c.urlOk, n.reg, n.runs[run].receiver, error, now);
    case _ =>
  }

  lemma StatusKeepsConsistent(c: Config, t: Table, id: string, status: string, now: int)
    requires Consistent(c.urlOk, t)
    ensures Consistent(c.urlOk, SetStatus(t, id, status, now))
  {
    if id in t {
      assert EntryOk(c.urlOk, t, id);
      PutKeepsConsistent(c.urlOk, t, SetStatus(t, id, status, now)[id]);
    }
  }

  lemma IngestsKept(c: Config, id: string, log: seq<Message>, n: Node, a: Action)
    requires Enabled(id, n, a) && IngestsOk(n.ingests)
    ensures IngestsOk(Step(c, id, n, a, log).ingests)
  {
    var n' := Step(c, id, n, a, log);
    forall i | 0 <= i < |n'.ingests|
      ensures IngestOk(n'.ingests[i])
    {
      if i < |n.ingests| {
        assert IngestOk(n.ingests[i]);
      }
    }
  }

  lemma NothingLostKept(c: Config, id: string, log: seq<Message>, n: Node, a: Action)
    requires Enabled(id, n, a) && NothingLost(n) && IngestsOk(n.ingests)
    ensures NothingLost(Step(c, id, n, a, log))
  {
    var n' := Step(c, id, n, a, log);
    KnownStay(c, id, log, n, a);
    forall i, k | 0 <= i < |n'.ingests| && Targets(n'.ingests[i], k)
      ensures Known(n', k)
    {
      assert i < |n.ingests| ==> Targets(n.ingests[i], k);
    }
    if a.CountOne? {
      var g := n.ingests[a.call];
      assert Targets(g, g.targets[g.counted]);
    }
  }

  lemma BoundedKept(c: Config, id: string, log: seq<Message>, n: Node, a: Action)
    requires Enabled(id, n, a) && Bounded(n)
    ensures Bounded(Step(c, id, n, a, log))
  {
    if a.Handle? {
      SumAppend(n.distributed, Current(n), TargetCount);
    } else if Consumes(a) {
    } else {
      OthersDoNotConsume(c, id, log, n, a);
      if MovesRun(a) {
        StepMoves(c, id, log, n, a);
      }
    }
  }

  lemma StepRoutesWell(c: Config, id: string, log: seq<Message>, n: Node, a: Action)
    requires RoutesWell(c, id, log, n) && LogOk(log) && Enabled(id, n, a)
    ensures RoutesWell(c, id, log, Step(c, id, n, a, log))
  {
    ConsumingKept(c, id, log, n, a);
    MeteredKept(c, id, log, n, a);
    RunsKept(c, id, log, n, a);
    BoundedKept(c, id, log, n, a);
  }

  lemma StepCountsWell(c: Config, id: string, log: seq<Message>, n: Node, a: Action)
    requires CountsWell(c, n) && Enabled(id, n, a)
    requires MovesRun(a) ==> RunIndex(a) < |n.runs| && Shaped(c.maxRetries, n.runs[RunIndex(a)])
    ensures CountsWell(c, Step(c, id, n, a, log))
  {
    CountedKept(c, id, log, n, a);
    BookedKept(c, id, log, n, a);
    NonNegativeKept(c, id, log, n, a);
    NothingLostKept(c, id, log, n, a);
    ReceiversBookedKept(c, id, log, n, a);
    ConsistentKept(c, id, log, n, a);
    IngestsKept(c, id, log, n, a);
  }

  lemma MovedIsShaped(c: Config, id: string, log: seq<Message>, n: Node, a: Action)
    requires RoutesWell(c, id, log, n) && Enabled(id, n, a)
    ensures MovesRun(a) ==> RunIndex(a) < |n.runs| && Shaped(c.maxRetries, n.runs[RunIndex(a)])
  {
    if MovesRun(a) {
      assert RunOk(c, id, log, n.clock, n.runs[RunIndex(a)]);
    }
  }

  /** One step of a hub keeps its invariant. */
  lemma StepKeepsNodeInv(c: Config, id: string, log: seq<Message>, n: Node, a: Action)
    requires NodeInv(c, id, log, n) && LogOk(log) && Enabled(id, n, a)
    ensures NodeInv(c, id, log, Step(c, id, n, a, log))
  {
    MovedIsShaped(c, id, log, n, a);
    StepRoutesWell(c, id, log, n, a);
    StepCountsWell(c, id, log, n, a);
  }

  /** What has been handled is chosen from the front of the log, so later messages do not matter. */
  lemma {:induction false} ChosenStays(id: string, log: seq<Message>, more: seq<Message>, clock: seq<int>)
    requires |clock| <= |log| && log <= more
    ensures Chosen(id, more, clock) == Chosen(id, log, clock)
  {
    if clock == [] {
    } else {
      ChosenStays(id, log, more, clock[..|clock| - 1]);
    }
  }

  /** A message that another actor appends to the topic does not disturb a hub. */
  lemma AppendKeepsNodeInv(c: Config, id: string, log: seq<Message>, n: Node, m: Message)
    requires NodeInv(c, id, log, n)
    ensures NodeInv(c, id, log + [m], n)
  {
    var more := log + [m];
    ChosenStays(id, log, more, n.clock);
    forall i | 0 <= i < |n.runs|
      ensures RunOk(c, id, more, n.clock, n.runs[i])
    {
      assert RunOk(c, id, log, n.clock, n.runs[i]);
    }
  }

  lemma NewNodeOk(c: Config, id: string, log: seq<Message>)
    ensures NodeInv(c, id, log, NEW_NODE)
  {
    TotalOfNothing(Received);
    TotalOfNothing(Delivered);
    TotalOfNothing(Failed);
  }

  lemma TotalOfNothing(f: Receiver -> int)
    ensures TotalOf(map[], f) == 0
  {
  }
}
