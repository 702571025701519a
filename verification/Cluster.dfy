/**
 Any number of hubs on one topic. Each hub moves by its own steps; publishing also appends the message to
 the topic. The theorems hold of every state that any interleaving of such moves can reach.
 */
module Cluster {
  import opened Sums
  import opened Models
  import opened HubNode
  import opened HubInvariant
  import opened HubSafety

  type Configs = string -> Config

  datatype Cluster = Cluster(log: seq<Message>, nodes: map<string, Node>)

  datatype Move =
    | Local(hub: string, action: Action)
    | Publish(hub: string, call: nat, messageId: string, now: int)

  function Start(hubs: set<string>): Cluster {
    Cluster([], map h | h in hubs :: NEW_NODE)
  }

  /** A call is marked as published by publishing only, and message IDs are new. */
  predicate Possible(s: Cluster, m: Move) {
    && m.hub in s.nodes
    && match m
       case Local(hub, a) => !a.MarkPublished? && Enabled(hub, s.nodes[hub], a)
       case Publish(hub, call, messageId, _) =>
         && Enabled(hub, s.nodes[hub], MarkPublished(call))
         && forall i | 0 <= i < |s.log| :: s.log[i].messageId != messageId
  }

  function Published(n: Node, hub: string, call: nat, messageId: string, now: int): Message
    requires call < |n.ingests|
  {
    ToInternalMessage(n.ingests[call].event, n.ingests[call].targets, hub, messageId, now)
  }

  function After(cs: Configs, s: Cluster, m: Move): Cluster
    requires Possible(s, m)
  {
    var n := s.nodes[m.hub];
    match m
    case Local(hub, a) => s.(nodes := s.nodes[hub := Step(cs(hub), hub, n, a, s.log)])
    case Publish(hub, call, messageId, now) =>
      Cluster(s.log + [Published(n, hub, call, messageId, now)],
              s.nodes[hub := Step(cs(hub), hub, n, MarkPublished(call), s.log)])
  }

  /** What a move is at its own hub. */
  function ActionOf(m: Move): Action {
    match m
    case Local(_, a) => a
    case Publish(_, call, _, _) => MarkPublished(call)
  }

  lemma MovesAt(cs: Configs, s: Cluster, m: Move, hub: string)
    requires Possible(s, m) && hub in s.nodes
    ensures m.hub == hub ==> Enabled(hub, s.nodes[hub], ActionOf(m))
    ensures After(cs, s, m).nodes[hub] ==
            if m.hub == hub then Step(cs(hub), hub, s.nodes[hub], ActionOf(m), s.log) else s.nodes[hub]
  {
  }

  /** `moves`, taken from `s`, are all possible and end in `end`. */
  predicate Leads(cs: Configs, s: Cluster, moves: seq<Move>, end: Cluster)
    decreases |moves|
  {
    if moves == [] then s == end
    else Possible(s, moves[0]) && Leads(cs, After(cs, s, moves[0]), moves[1..], end)
  }

  /** Some run of hubs with these IDs reaches `s`. */
  ghost predicate Reachable(cs: Configs, hubs: set<string>, s: Cluster) {
    exists moves :: Leads(cs, Start(hubs), moves, s)
  }

  function StampedTargets(hub: string): Message -> int {
    (m: Message) => if m.hubId == hub then |m.targets| else 0
  }

  /** A hub's own invariant, and its published calls are its messages in the log. */
  ghost predicate HubOk(cs: Configs, s: Cluster, hub: string)
    requires hub in s.nodes
  {
    && NodeInv(cs(hub), hub, s.log, s.nodes[hub])
    && Sum(s.nodes[hub].ingests, PublishedTargets) == Sum(s.log, StampedTargets(hub))
  }

  ghost predicate ClusterInv(cs: Configs, s: Cluster) {
    && LogOk(s.log)
    && (forall m | m in s.log :: m.hubId in s.nodes)
    && forall hub {:trigger HubOk(cs, s, hub)} | hub in s.nodes :: HubOk(cs, s, hub)
  }

  lemma PublishedTargetsKept(c: Config, hub: string, log: seq<Message>, n: Node, a: Action)
    requires Enabled(hub, n, a) && IngestsOk(n.ingests)
    ensures Sum(Step(c, hub, n, a, log).ingests, PublishedTargets) == Sum(n.ingests, PublishedTargets) +
            if a.MarkPublished? then |n.ingests[a.call].targets| else 0
  {
    match a
    case Begin(e, targets) => SumAppend(n.ingests, Ingest(e, targets, 0, false), PublishedTargets);
    case CountOne(call, _) =>
      var g := n.ingests[call];
      assert IngestOk(g);
      SumUpdate(n.ingests, call, g.(counted := g.counted + 1), PublishedTargets);
    case MarkPublished(call) =>
      SumUpdate(n.ingests, call, n.ingests[call].(published := true), PublishedTargets);
    case _ => IngestsStay(c, hub, log, n, a);
  }

  lemma IngestsStay(c: Config, hub: string, log: seq<Message>, n: Node, a: Action)
    requires Enabled(hub, n, a) && !a.Begin? && !a.CountOne? && !a.MarkPublished?
    ensures Step(c, hub, n, a, log).ingests == n.ingests
  {
  }

  lemma LocalKeepsInv(cs: Configs, s: Cluster, m: Move)
    requires ClusterInv(cs, s) && Possible(s, m) && m.Local?
    ensures ClusterInv(cs, After(cs, s, m))
  {
    var s' := After(cs, s, m);
    forall hub | hub in s'.nodes
      ensures HubOk(cs, s', hub)
    {
      assert HubOk(cs, s, hub);
      if hub == m.hub {
        StepKeepsNodeInv(cs(hub), hub, s.log, s.nodes[hub], m.action);
        PublishedTargetsKept(cs(hub), hub, s.log, s.nodes[hub], m.action);
      }
    }
  }

  lemma PublishKeepsLog(cs: Configs, s: Cluster, m: Move)
    requires ClusterInv(cs, s) && Possible(s, m) && m.Publish?
    ensures LogOk(After(cs, s, m).log)
  {
    assert HubOk(cs, s, m.hub);
    assert IngestOk(s.nodes[m.hub].ingests[m.call]);
  }

  lemma MarkPublishedIgnoresLog(c: Config, hub: string, log: seq<Message>, more: seq<Message>, n: Node, call: nat)
    requires Enabled(hub, n, MarkPublished(call))
    ensures Step(c, hub, n, MarkPublished(call), log) == Step(c, hub, n, MarkPublished(call), more)
  {
  }

  /** The publishing hub, before and after. */
  lemma PublisherKept(c: Config, hub: string, log: seq<Message>, n: Node, call: nat, message: Message)
    requires NodeInv(c, hub, log, n) && LogOk(log + [message]) && Enabled(hub, n, MarkPublished(call))
    ensures NodeInv(c, hub, log + [message], Step(c, hub, n, MarkPublished(call), log))
  {
    AppendKeepsNodeInv(c, hub, log, n, message);
    StepKeepsNodeInv(c, hub, log + [message], n, MarkPublished(call));
    MarkPublishedIgnoresLog(c, hub, log, log + [message], n, call);
  }

  lemma PublisherLedger(c: Config, hub: string, log: seq<Message>, n: Node, call: nat, message: Message)
    requires IngestsOk(n.ingests) && Enabled(hub, n, MarkPublished(call))
    requires Sum(n.ingests, PublishedTargets) == Sum(log, StampedTargets(hub))
    requires message.hubId == hub && message.targets == n.ingests[call].targets
    ensures Sum(Step(c, hub, n, MarkPublished(call), log).ingests, PublishedTargets)
         == Sum(log + [message], StampedTargets(hub))
  {
    PublishedTargetsKept(c, hub, log, n, MarkPublished(call));
    SumAppend(log, message, StampedTargets(hub));
  }

  lemma PublishKeepsOthers(cs: Configs, s: Cluster, m: Move, hub: string)
    requires ClusterInv(cs, s) && Possible(s, m) && m.Publish? && hub in s.nodes && hub != m.hub
    ensures HubOk(cs, After(cs, s, m), hub)
  {
    var message := Published(s.nodes[m.hub], m.hub, m.call, m.messageId, m.now);
    assert HubOk(cs, s, hub);
    SumAppend(s.log, message, StampedTargets(hub));
    AppendKeepsNodeInv(cs(hub), hub, s.log, s.nodes[hub], message);
  }

  lemma PublishKeepsPublisher(cs: Configs, s: Cluster, m: Move)
    requires ClusterInv(cs, s) && Possible(s, m) && m.Publish?
    ensures HubOk(cs, After(cs, s, m), m.hub)
  {
    var n := s.nodes[m.hub];
    var message := Published(n, m.hub, m.call, m.messageId, m.now);
    assert HubOk(cs, s, m.hub);
    PublishKeepsLog(cs, s, m);
    PublisherKept(cs(m.hub), m.hub, s.log, n, m.call, message);
    PublisherLedger(cs(m.hub), m.hub, s.log, n, m.call, message);
  }

  lemma MoveKeepsInv(cs: Configs, s: Cluster, m: Move)
    requires ClusterInv(cs, s) && Possible(s, m)
    ensures ClusterInv(cs, After(cs, s, m)) && After(cs, s, m).nodes.Keys == s.nodes.Keys
  {
    if m.Local? {
      LocalKeepsInv(cs, s, m);
    } else {
      PublishKeepsLog(cs, s, m);
      var s' := After(cs, s, m);
      forall hub | hub in s'.nodes
        ensures HubOk(cs, s', hub)
      {
        if hub == m.hub {
          PublishKeepsPublisher(cs, s, m);
        } else {
          PublishKeepsOthers(cs, s, m, hub);
        }
      }
    }
  }

  lemma {:induction false} RunKeepsInv(cs: Configs, s: Cluster, moves: seq<Move>, end: Cluster)
    requires ClusterInv(cs, s) && Leads(cs, s, moves, end)
    ensures ClusterInv(cs, end) && end.nodes.Keys == s.nodes.Keys
    decreases |moves|
  {
    if moves == [] {
    } else {
      MoveKeepsInv(cs, s, moves[0]);
      RunKeepsInv(cs, After(cs, s, moves[0]), moves[1..], end);
    }
  }

  /** Every reachable state satisfies the invariant of the cluster and of each hub. */
  lemma ReachableIsSafe(cs: Configs, hubs: set<string>, s: Cluster)
    requires Reachable(cs, hubs, s)
    ensures ClusterInv(cs, s) && s.nodes.Keys == hubs
  {
    var start := Start(hubs);
    forall hub | hub in hubs
      ensures HubOk(cs, start, hub)
    {
      NewNodeOk(cs(hub), hub, []);
    }
    var moves :| Leads(cs, start, moves, s);
    RunKeepsInv(cs, start, moves, s);
  }

  lemma {:induction false} LeadsOn(cs: Configs, s: Cluster, moves: seq<Move>, end: Cluster, m: Move)
    requires Leads(cs, s, moves, end) && Possible(end, m)
    ensures Leads(cs, s, moves + [m], After(cs, end, m))
    decreases |moves|
  {
    if moves == [] {
    } else {
      LeadsOn(cs, After(cs, s, moves[0]), moves[1..], end, m);
      assert (moves + [m])[1..] == moves[1..] + [m];
    }
  }

  /** Where a run can go, another can follow. */
  lemma Go(cs: Configs, hubs: set<string>, s: Cluster, m: Move) returns (next: Cluster)
    requires Reachable(cs, hubs, s) && Possible(s, m)
    ensures next == After(cs, s, m) && Reachable(cs, hubs, next)
  {
    next := After(cs, s, m);
    var moves :| Leads(cs, Start(hubs), moves, s);
    LeadsOn(cs, Start(hubs), moves, s, m);
  }

  lemma StartIsReachable(cs: Configs, hubs: set<string>)
    ensures Reachable(cs, hubs, Start(hubs))
  {
    assert Leads(cs, Start(hubs), [], Start(hubs));
  }
}
