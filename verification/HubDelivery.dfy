/**
 Which targets get a delivery: over one handler call, with everything else going on in between, exactly
 those the distributor accepts. And a run in which a message does reach a receiver.
 */
module HubDelivery {
  import opened Sequences
  import opened Models
  import opened ReceiverTable
  import opened Routing
  import opened PubSub
  import opened HubNode
  import opened HubInvariant
  import opened HubBooks
  import opened Cluster

  // One handler call

  /** Moves that do not end this hub's handler call. */
  predicate KeepsCall(hub: string, m: Move) {
    m.Local? && m.hub == hub ==> !m.action.Finish?
  }

  /** Moves that leave this hub's routes alone. */
  predicate KeepsRoutes(hub: string, m: Move) {
    m.Local? && m.hub == hub ==> !Administers(m.action)
  }

  /** The handler of this hub looks up its next target. */
  predicate LooksUp(hub: string, m: Move) {
    m == Local(hub, Distribute)
  }

  /** The registries in which a hub's handler looked up one target after the other. */
  function Lookups(cs: Configs, s: Cluster, moves: seq<Move>, end: Cluster, hub: string): seq<Table>
    requires hub in s.nodes && Leads(cs, s, moves, end)
    decreases |moves|
  {
    if moves == [] then []
    else
      (if LooksUp(hub, moves[0]) then [s.nodes[hub].reg] else []) +
      Lookups(cs, After(cs, s, moves[0]), moves[1..], end, hub)
  }

  predicate SlotIs(r: Run, pos: nat, receiver: string) {
    r.pos == pos && r.receiver == receiver
  }

  /** A delivery of the message at `pos` to this receiver has been started. */
  ghost predicate HasRun(n: Node, pos: nat, receiver: string) {
    exists i | 0 <= i < |n.runs| :: SlotIs(n.runs[i], pos, receiver)
  }

  /** The handler has been through the targets before its `rest`: each was looked up, and delivered as found. */
  ghost predicate RoutedSoFar(looks: seq<Table>, n: Node, m: Message) {
    && n.sub != [] && Current(n) == m && n.stage.Distributing? && IsTail(n.stage.rest, m.targets)
    && |looks| + |n.stage.rest| == |m.targets|
    && forall k {:trigger m.targets[k]} | 0 <= k < |looks| ::
         HasRun(n, |n.sub| - 1, m.targets[k]) <==> Deliverable(looks[k], m.targets[k], m.event)
  }

  lemma RoutesAlike(t: Table, s: Table, id: string, e: SecurityEvent)
    requires SettingsEqual(t, s)
    ensures Deliverable(t, id, e) <==> Deliverable(s, id, e)
  {
    if id in t {
      assert s[id].(metadata := t[id].metadata) == t[id];
    }
  }

  /** Other steps of the hub count, report and deliver, but route every event as before. */
  lemma OthersKeepRoutes(c: Config, hub: string, log: seq<Message>, n: Node, a: Action)
    requires Enabled(hub, n, a) && !Administers(a) && Consistent(c.urlOk, n.reg)
    ensures SettingsEqual(n.reg, Step(c, hub, n, a, log).reg)
  {
    match a
    case CountOne(call, now) =>
      CountingKeepsConsistent(c.urlOk, n.reg, n.ingests[call].targets[n.ingests[call].counted], "", now);
    case Reporting(run, error, now) =>
      CountingKeepsConsistent(c.urlOk, n.reg, n.runs[run].receiver, error, now);
    case _ => OthersKeepTable(c, hub, log, n, a);
  }

  lemma OthersKeepTable(c: Config, hub: string, log: seq<Message>, n: Node, a: Action)
    requires Enabled(hub, n, a) && !Administers(a) && !a.CountOne? && !a.Reporting?
    ensures Step(c, hub, n, a, log).reg == n.reg
  {
  }

  lemma SettingsChain(t: Table, s: Table, u: Table)
    requires SettingsEqual(t, s) && SettingsEqual(s, u)
    ensures SettingsEqual(t, u)
  {
    forall id | id in t
      ensures u[id].(metadata := t[id].metadata) == t[id]
    {
      assert s[id].(metadata := t[id].metadata) == t[id];
      assert u[id].(metadata := s[id].metadata) == s[id];
    }
  }

  /** Deliveries stay, and other steps start none. */
  lemma OthersKeepRuns(c: Config, hub: string, log: seq<Message>, n: Node, a: Action, pos: nat, receiver: string)
    requires Enabled(hub, n, a) && !a.Distribute?
    ensures HasRun(Step(c, hub, n, a, log), pos, receiver) <==> HasRun(n, pos, receiver)
  {
    var n' := Step(c, hub, n, a, log);
    if MovesRun(a) {
      StepMoves(c, hub, log, n, a);
    } else {
      OthersLeaveRuns(c, hub, log, n, a);
    }
    assert |n'.runs| == |n.runs| && forall i | 0 <= i < |n.runs| :: SameSlot(n.runs[i], n'.runs[i]);
    if i :| 0 <= i < |n.runs| && SlotIs(n.runs[i], pos, receiver) {
      assert SlotIs(n'.runs[i], pos, receiver);
    }
    if i :| 0 <= i < |n'.runs| && SlotIs(n'.runs[i], pos, receiver) {
      assert SlotIs(n.runs[i], pos, receiver);
    }
  }

  lemma OthersLeaveRuns(c: Config, hub: string, log: seq<Message>, n: Node, a: Action)
    requires Enabled(hub, n, a) && !a.Distribute? && !MovesRun(a)
    ensures Step(c, hub, n, a, log).runs == n.runs
  {
  }

  /** One target: its delivery is started exactly if it is routed now, and nobody else's. */
  lemma DistributeRoutes(c: Config, hub: string, log: seq<Message>, n: Node, m: Message, looks: seq<Table>)
    requires RoutedSoFar(looks, n, m) && NoDuplicates(m.targets)
    requires RestIsOpen(n) && |n.clock| == |n.sub| && Enabled(hub, n, Distribute)
    ensures RoutedSoFar(looks + [n.reg], Step(c, hub, n, Distribute, log), m)
  {
    var n' := Step(c, hub, n, Distribute, log);
    var d := |looks|;
    var all := looks + [n.reg];
    assert n.stage.rest[0] == m.targets[d];
    assert IsTail(n'.stage.rest, m.targets);
    forall k | 0 <= k <= d
      ensures HasRun(n', |n.sub| - 1, m.targets[k]) <==> Deliverable(all[k], m.targets[k], m.event)
    {
      DistributeStarts(c, hub, log, n, m.targets[k]);
      if k == d {
        RestHasNoRun(n, 0);
      }
    }
  }

  lemma RestHasNoRun(n: Node, k: nat)
    requires RestIsOpen(n) && n.stage.Distributing? && k < |n.stage.rest| && |n.clock| == |n.sub| > 0
    ensures !HasRun(n, |n.sub| - 1, n.stage.rest[k])
  {
  }

  lemma DistributeStarts(c: Config, hub: string, log: seq<Message>, n: Node, receiver: string)
    requires Enabled(hub, n, Distribute)
    ensures HasRun(Step(c, hub, n, Distribute, log), |n.sub| - 1, receiver) <==>
            || HasRun(n, |n.sub| - 1, receiver)
            || (receiver == n.stage.rest[0] && Deliverable(n.reg, receiver, Current(n).event))
  {
    var n' := Step(c, hub, n, Distribute, log);
    var pos := |n.sub| - 1;
    if Deliverable(n.reg, n.stage.rest[0], Current(n).event) {
      assert n'.runs == n.runs + [NewRun(c, pos, n.stage.rest[0])];
      assert n'.runs[|n.runs|] == NewRun(c, pos, n.stage.rest[0]);
    }
    if i :| 0 <= i < |n.runs| && SlotIs(n.runs[i], pos, receiver) {
      assert n'.runs[i] == n.runs[i];
    }
  }

  lemma StepKeepsRouting(
      c: Config, hub: string, log: seq<Message>, n: Node, a: Action, msg: Message, looks: seq<Table>)
    requires NodeInv(c, hub, log, n) && LogOk(log) && msg in log && Enabled(hub, n, a)
    requires RoutedSoFar(looks, n, msg) && !a.Finish?
    ensures var n' := Step(c, hub, n, a, log);
            RoutedSoFar(looks + (if a.Distribute? then [n.reg] else []), n', msg) && |n'.sub| == |n.sub|
  {
    var n' := Step(c, hub, n, a, log);
    if a.Distribute? {
      DistributeRoutes(c, hub, log, n, msg, looks);
    } else {
      OthersKeepStage(c, hub, log, n, a);
      assert looks + [] == looks;
      forall k | 0 <= k < |looks|
        ensures HasRun(n', |n.sub| - 1, msg.targets[k]) <==> Deliverable(looks[k], msg.targets[k], msg.event)
      {
        OthersKeepRuns(c, hub, log, n, a, |n.sub| - 1, msg.targets[k]);
      }
    }
  }

  /** Any move of anyone that keeps the call keeps what it has done so far. */
  lemma MoveKeepsRouting(cs: Configs, s: Cluster, m: Move, hub: string, msg: Message, looks: seq<Table>)
    requires ClusterInv(cs, s) && hub in s.nodes && Possible(s, m) && KeepsCall(hub, m)
    requires RoutedSoFar(looks, s.nodes[hub], msg) && msg in s.log
    ensures var n' := After(cs, s, m).nodes[hub];
            && RoutedSoFar(looks + (if LooksUp(hub, m) then [s.nodes[hub].reg] else []), n', msg)
            && msg in After(cs, s, m).log && |n'.sub| == |s.nodes[hub].sub|
  {
    assert HubOk(cs, s, hub);
    MovesAt(cs, s, m, hub);
    assert looks + [] == looks;
    if m.hub == hub {
      StepKeepsRouting(cs(hub), hub, s.log, s.nodes[hub], ActionOf(m), msg, looks);
    }
  }

  lemma OthersKeepStage(c: Config, hub: string, log: seq<Message>, n: Node, a: Action)
    requires Enabled(hub, n, a) && n.stage.Distributing? && !a.Distribute? && !a.Finish?
    ensures Step(c, hub, n, a, log).stage == n.stage && Step(c, hub, n, a, log).sub == n.sub
  {
  }

  lemma {:induction false} RunKeepsRouting(
      cs: Configs, s: Cluster, moves: seq<Move>, end: Cluster, hub: string, msg: Message, looks: seq<Table>)
    requires ClusterInv(cs, s) && hub in s.nodes && Leads(cs, s, moves, end)
    requires forall m | m in moves :: KeepsCall(hub, m)
    requires RoutedSoFar(looks, s.nodes[hub], msg) && msg in s.log
    ensures hub in end.nodes && |end.nodes[hub].sub| == |s.nodes[hub].sub|
    ensures RoutedSoFar(looks + Lookups(cs, s, moves, end, hub), end.nodes[hub], msg)
    decreases |moves|
  {
    if moves == [] {
      assert looks + [] == looks;
    } else {
      var next := After(cs, s, moves[0]);
      var looked := if LooksUp(hub, moves[0]) then [s.nodes[hub].reg] else [];
      assert moves[0] in moves;
      MoveKeepsInv(cs, s, moves[0]);
      MoveKeepsRouting(cs, s, moves[0], hub, msg, looks);
      RunKeepsRouting(cs, next, moves[1..], end, hub, msg, looks + looked);
      Associate(looks, looked, Lookups(cs, next, moves[1..], end, hub));
    }
  }

  lemma Associate(a: seq<Table>, b: seq<Table>, c: seq<Table>)
    ensures a + b + c == a + (b + c)
  {
  }

  lemma CallBegins(log: seq<Message>, n: Node)
    requires Consuming(log, n) && n.sub != [] && n.stage == Distributing(Current(n).targets)
    ensures RoutedSoFar([], n, Current(n)) && Current(n) in log
  {
    assert Current(n) == log[|n.sub| - 1];
  }

  /** `s` is where a handler call of the hub begins, and `moves` take it to where its targets are used up. */
  ghost predicate OneCall(cs: Configs, s: Cluster, moves: seq<Move>, end: Cluster, hub: string) {
    && hub in s.nodes && Leads(cs, s, moves, end) && (forall m | m in moves :: KeepsCall(hub, m))
    && s.nodes[hub].sub != [] && s.nodes[hub].stage == Distributing(Current(s.nodes[hub]).targets)
    && hub in end.nodes && end.nodes[hub].stage == Distributing([])
  }

  ghost predicate AtMostOne(n: Node, pos: nat, target: string) {
    forall i, j | 0 <= i < j < |n.runs| :: !(SlotIs(n.runs[i], pos, target) && SlotIs(n.runs[j], pos, target))
  }

  lemma OnePerSlot(n: Node, pos: nat, target: string)
    requires SlotsDiffer(n.runs)
    ensures AtMostOne(n, pos, target)
  {
    forall i, j | 0 <= i < j < |n.runs|
      ensures !(SlotIs(n.runs[i], pos, target) && SlotIs(n.runs[j], pos, target))
    {
      assert !SameSlot(n.runs[i], n.runs[j]);
    }
  }

  /**
   A handler call from its first target to its last, with any moves of this hub and all others in between,
   changes of its routes included: every target is looked up once, in order, and has a delivery of the message
   exactly if the distributor accepts it in the registry of that moment. No target has two.
   */
  lemma TargetsAreDeliveredAsLookedUp(
      cs: Configs, hubs: set<string>, s: Cluster, moves: seq<Move>, end: Cluster, hub: string)
    requires Reachable(cs, hubs, s) && OneCall(cs, s, moves, end, hub)
    ensures var msg, looks := Current(s.nodes[hub]), Lookups(cs, s, moves, end, hub);
            var pos := |s.nodes[hub].sub| - 1;
            && |looks| == |msg.targets|
            && (forall k {:trigger msg.targets[k]} | 0 <= k < |looks| ::
                  HasRun(end.nodes[hub], pos, msg.targets[k]) <==> Deliverable(looks[k], msg.targets[k], msg.event))
            && forall k {:trigger msg.targets[k]} | 0 <= k < |looks| :: AtMostOne(end.nodes[hub], pos, msg.targets[k])
  {
    ReachableIsSafe(cs, hubs, s);
    assert HubOk(cs, s, hub);
    var msg, looks := Current(s.nodes[hub]), Lookups(cs, s, moves, end, hub);
    CallBegins(s.log, s.nodes[hub]);
    RunKeepsRouting(cs, s, moves, end, hub, msg, []);
    assert [] + looks == looks;
    RunKeepsInv(cs, s, moves, end);
    assert HubOk(cs, end, hub);
    forall k | 0 <= k < |looks|
      ensures AtMostOne(end.nodes[hub], |s.nodes[hub].sub| - 1, msg.targets[k])
    {
      OnePerSlot(end.nodes[hub], |s.nodes[hub].sub| - 1, msg.targets[k]);
    }
  }

  lemma {:induction false} LookupsAreAlike(
      cs: Configs, s: Cluster, moves: seq<Move>, end: Cluster, hub: string, t: Table)
    requires ClusterInv(cs, s) && hub in s.nodes && Leads(cs, s, moves, end)
    requires (forall m | m in moves :: KeepsRoutes(hub, m)) && SettingsEqual(t, s.nodes[hub].reg)
    ensures forall look | look in Lookups(cs, s, moves, end, hub) :: SettingsEqual(t, look)
    decreases |moves|
  {
    if moves == [] {
    } else {
      assert moves[0] in moves && HubOk(cs, s, hub);
      MovesAt(cs, s, moves[0], hub);
      MoveKeepsInv(cs, s, moves[0]);
      var next := After(cs, s, moves[0]);
      if moves[0].hub == hub {
        OthersKeepRoutes(cs(hub), hub, s.log, s.nodes[hub], ActionOf(moves[0]));
        SettingsChain(t, s.nodes[hub].reg, next.nodes[hub].reg);
      }
      LookupsAreAlike(cs, next, moves[1..], end, hub, t);
    }
  }

  /** While nobody changes the hub's routes, that is whether the distributor accepts it at the beginning. */
  lemma EveryRoutedTargetIsDelivered(
      cs: Configs, hubs: set<string>, s: Cluster, moves: seq<Move>, end: Cluster, hub: string, target: string)
    requires Reachable(cs, hubs, s) && OneCall(cs, s, moves, end, hub)
    requires (forall m | m in moves :: KeepsRoutes(hub, m)) && target in Current(s.nodes[hub]).targets
    ensures var n := s.nodes[hub];
            var pos := |n.sub| - 1;
            && (HasRun(end.nodes[hub], pos, target) <==> Deliverable(n.reg, target, Current(n).event))
            && AtMostOne(end.nodes[hub], pos, target)
  {
    var msg := Current(s.nodes[hub]);
    TargetsAreDeliveredAsLookedUp(cs, hubs, s, moves, end, hub);
    ReachableIsSafe(cs, hubs, s);
    LookupsAreAlike(cs, s, moves, end, hub, s.nodes[hub].reg);
    var k :| 0 <= k < |msg.targets| && msg.targets[k] == target;
    var look := Lookups(cs, s, moves, end, hub)[k];
    RoutesAlike(s.nodes[hub].reg, look, target, msg.event);
  }

  // A message that arrives

  /** A receiver fit for both hubs, new to them, and an event for it. */
  predicate Fits(ca: Config, cb: Config, r: Receiver, e: SecurityEvent) {
    && Received(r) == Delivered(r) == Failed(r) == 0
    && Check(ca.urlOk, r).Ok? && Check(cb.urlOk, r).Ok?
    && RegistryAccepts(Stored(ca, r), e)
  }

  function Stored(c: Config, r: Receiver): Receiver {
    Registered(Checked(c.urlOk, r), 0)
  }

  lemma BothStoreAlike(ca: Config, cb: Config, r: Receiver, e: SecurityEvent)
    requires Fits(ca, cb, r, e)
    ensures Stored(ca, r) == Stored(cb, r) && Stored(ca, r).id == r.id && Stored(ca, r).delivery.channel == WEBHOOK
    ensures Delivered(Stored(ca, r)) == 0
    ensures ReceiverTable.Register(ca.urlOk, map[], r, 0).Ok? && ReceiverTable.Register(cb.urlOk, map[], r, 0).Ok?
    ensures ReceiverTable.Register(ca.urlOk, map[], r, 0).value == map[r.id := Stored(ca, r)]
    ensures ReceiverTable.Register(cb.urlOk, map[], r, 0).value == map[r.id := Stored(ca, r)]
  {
  }

  /** A local move, by what it makes of its hub. */
  lemma GoTo(cs: Configs, hubs: set<string>, s: Cluster, hub: string, a: Action, n: Node) returns (next: Cluster)
    requires Reachable(cs, hubs, s) && hub in s.nodes && !a.MarkPublished? && Enabled(hub, s.nodes[hub], a)
    requires Step(cs(hub), hub, s.nodes[hub], a, s.log) == n
    ensures Reachable(cs, hubs, next) && hub in next.nodes && next.nodes == s.nodes[hub := n] && next.log == s.log
  {
    next := Go(cs, hubs, s, Local(hub, a));
  }

  /** Hub `a` on its way: the event taken in for its one receiver, and counted there. */
  function BegunAt(t: Table, e: SecurityEvent, id: string): Node {
    NEW_NODE.(reg := t, ingests := [Ingest(e, [id], 0, false)])
  }

  function CountedOnce(t: Table, e: SecurityEvent, id: string): Node {
    NEW_NODE.(reg := CountReceived(t, id, 0), ingests := [Ingest(e, [id], 1, false)])
  }

  /** Both hubs are told of the receiver. */
  lemma Preparing(cs: Configs, hubs: set<string>, a: string, b: string, r: Receiver, e: SecurityEvent)
    returns (s: Cluster)
    requires a in hubs && b in hubs && a != b && Fits(cs(a), cs(b), r, e)
    ensures Reachable(cs, hubs, s) && s.log == [] && a in s.nodes && b in s.nodes
    ensures s.nodes[a] == s.nodes[b] == NEW_NODE.(reg := map[r.id := Stored(cs(a), r)])
  {
    BothStoreAlike(cs(a), cs(b), r, e);
    var n := NEW_NODE.(reg := map[r.id := Stored(cs(a), r)]);
    StartIsReachable(cs, hubs);
    s := GoTo(cs, hubs, Start(hubs), a, Registering(r, 0), n);
    s := GoTo(cs, hubs, s, b, Registering(r, 0), n);
  }

  /** Hub `a` takes in the event and counts it. */
  lemma Ingesting(cs: Configs, hubs: set<string>, s0: Cluster, a: string, r: Receiver, e: SecurityEvent)
    returns (s: Cluster)
    requires Reachable(cs, hubs, s0) && a in s0.nodes && s0.nodes[a] == NEW_NODE.(reg := map[r.id := r])
    requires RegistryAccepts(r, e)
    ensures Reachable(cs, hubs, s) && s.log == s0.log && a in s.nodes
    ensures s.nodes == s0.nodes[a := CountedOnce(map[r.id := r], e, r.id)]
  {
    var t := map[r.id := r];
    assert Selects(t, e, [r.id]);
    s := GoTo(cs, hubs, s0, a, Begin(e, [r.id]), BegunAt(t, e, r.id));
    CountsOnce(cs(a), a, t, e, r.id, s.log);
    s := GoTo(cs, hubs, s, a, CountOne(0, 0), CountedOnce(t, e, r.id));
  }

  lemma CountsOnce(c: Config, hub: string, t: Table, e: SecurityEvent, id: string, log: seq<Message>)
    requires id in t
    ensures Step(c, hub, BegunAt(t, e, id), CountOne(0, 0), log) == CountedOnce(t, e, id)
  {
    assert Step(c, hub, BegunAt(t, e, id), CountOne(0, 0), log).ingests == CountedOnce(t, e, id).ingests;
  }

  /** Hub `a` publishes the event; hub `b` has only been told of the receiver. */
  lemma Publishing(cs: Configs, hubs: set<string>, a: string, b: string, r: Receiver, e: SecurityEvent)
    returns (s: Cluster)
    requires a in hubs && b in hubs && a != b && Fits(cs(a), cs(b), r, e)
    ensures Reachable(cs, hubs, s) && b in s.nodes && s.log == [ToInternalMessage(e, [r.id], a, "m", 0)]
    ensures s.nodes[b] == NEW_NODE.(reg := map[r.id := Stored(cs(a), r)])
  {
    BothStoreAlike(cs(a), cs(b), r, e);
    s := Preparing(cs, hubs, a, b, r, e);
    s := Ingesting(cs, hubs, s, a, Stored(cs(a), r), e);
    s := Go(cs, hubs, s, Publish(a, 0, "m", 0));
  }

  /** Hub `b` with the one message of its topic: taken, marked, found wanted, handed to its one target. */
  function TakenIn(n: Node, m: Message): Node { n.(batch := [m]) }

  function MarkedIn(n: Node, m: Message): Node { n.(sub := [m], batch := [], stage := Marked) }

  function WantedIn(n: Node, m: Message): Node {
    n.(sub := [m], stage := Distributing(m.targets), clock := [0], received := 1, distributed := [m])
  }

  function StartedIn(n: Node, m: Message, id: string): Node {
    WantedIn(n, m).(stage := Distributing([]), runs := [Run(0, id, [], Calling)])
  }

  function AnsweredIn(n: Node, id: string): Node {
    n.(runs := [Run(0, id, [true], Answered)], attempted := n.attempted + 1)
  }

  function TalliedIn(n: Node, id: string): Node {
    AnsweredIn(n, id).(runs := [Run(0, id, [true], Tallied)], succeeded := n.succeeded + 1)
  }

  function ReportedIn(n: Node, id: string): Node {
    TalliedIn(n, id).(runs := [Run(0, id, [true], Closed)], reg := CountDelivered(n.reg, id, 0))
  }

  /** The hub knows the receiver of the one message of the topic and has done nothing yet. */
  ghost predicate Waits(c: Config, hub: string, n: Node, m: Message, id: string) {
    && n == NEW_NODE.(reg := n.reg) && Wanted(hub, m, 0) && m.targets == [id] && c.maxRetries >= 0
    && Deliverable(n.reg, id, m.event)
  }

  lemma Taking(cs: Configs, hubs: set<string>, s0: Cluster, b: string, m: Message, id: string) returns (s: Cluster)
    requires Reachable(cs, hubs, s0) && s0.log == [m] && b in s0.nodes && Waits(cs(b), b, s0.nodes[b], m, id)
    ensures Reachable(cs, hubs, s) && s.log == [m] && b in s.nodes && s.nodes[b] == TakenIn(s0.nodes[b], m)
  {
    assert [m][..0] == [];
    BatchIsNextSlice([m], 0, 100);
    s := GoTo(cs, hubs, s0, b, Pulling(100), TakenIn(s0.nodes[b], m));
  }

  lemma Marking(cs: Configs, hubs: set<string>, s0: Cluster, b: string, n: Node, m: Message) returns (s: Cluster)
    requires Reachable(cs, hubs, s0) && s0.log == [m] && b in s0.nodes && s0.nodes[b] == TakenIn(n, m)
    requires n == NEW_NODE.(reg := n.reg)
    ensures Reachable(cs, hubs, s) && s.log == [m] && b in s.nodes && s.nodes[b] == MarkedIn(n, m)
  {
    s := GoTo(cs, hubs, s0, b, Mark, MarkedIn(n, m));
  }

  lemma Handling(cs: Configs, hubs: set<string>, s0: Cluster, b: string, n: Node, m: Message, id: string)
    returns (s: Cluster)
    requires Reachable(cs, hubs, s0) && s0.log == [m] && b in s0.nodes && s0.nodes[b] == MarkedIn(n, m)
    requires Waits(cs(b), b, n, m, id)
    ensures Reachable(cs, hubs, s) && s.log == [m] && b in s.nodes && s.nodes[b] == WantedIn(n, m)
  {
    s := GoTo(cs, hubs, s0, b, Handle(0), WantedIn(n, m));
  }

  lemma Starting(cs: Configs, hubs: set<string>, s0: Cluster, b: string, n: Node, m: Message, id: string)
    returns (s: Cluster)
    requires Reachable(cs, hubs, s0) && s0.log == [m] && b in s0.nodes && s0.nodes[b] == WantedIn(n, m)
    requires Waits(cs(b), b, n, m, id)
    ensures Reachable(cs, hubs, s) && s.log == [m] && b in s.nodes && s.nodes[b] == StartedIn(n, m, id)
  {
    assert m.targets[1..] == [];
    assert Step(cs(b), b, WantedIn(n, m), Distribute, s0.log).runs == [Run(0, id, [], Calling)];
    s := GoTo(cs, hubs, s0, b, Distribute, StartedIn(n, m, id));
  }

  /** Hub `b` pulls the message, finds it wanted, and starts its delivery. */
  lemma Receiving(cs: Configs, hubs: set<string>, s0: Cluster, b: string, m: Message, id: string)
    returns (s: Cluster)
    requires Reachable(cs, hubs, s0) && s0.log == [m] && b in s0.nodes && Waits(cs(b), b, s0.nodes[b], m, id)
    ensures Reachable(cs, hubs, s) && b in s.nodes && s.nodes[b] == StartedIn(s0.nodes[b], m, id)
  {
    var n := s0.nodes[b];
    s := Taking(cs, hubs, s0, b, m, id);
    s := Marking(cs, hubs, s, b, n, m);
    s := Handling(cs, hubs, s, b, n, m, id);
    s := Starting(cs, hubs, s, b, n, m, id);
  }

  /** The three steps of a successful attempt. */
  lemma Succeeding(cs: Configs, hubs: set<string>, s0: Cluster, b: string, n: Node, id: string)
    returns (s: Cluster)
    requires Reachable(cs, hubs, s0) && b in s0.nodes && s0.nodes[b] == n
    requires n.runs == [Run(0, id, [], Calling)] && id in n.reg
    ensures Reachable(cs, hubs, s) && b in s.nodes && s.nodes[b] == ReportedIn(n, id)
  {
    s := Answering(cs, hubs, s0, b, n, id);
    s := Tallying(cs, hubs, s, b, n, id);
    s := Telling(cs, hubs, s, b, n, id);
  }

  lemma Answering(cs: Configs, hubs: set<string>, s0: Cluster, b: string, n: Node, id: string) returns (s: Cluster)
    requires Reachable(cs, hubs, s0) && b in s0.nodes && s0.nodes[b] == n && n.runs == [Run(0, id, [], Calling)]
    ensures Reachable(cs, hubs, s) && b in s.nodes && s.nodes[b] == AnsweredIn(n, id)
  {
    assert [] + [true] == [true];
    assert Step(cs(b), b, n, Answer(0, true), s0.log).runs == [Run(0, id, [true], Answered)];
    s := GoTo(cs, hubs, s0, b, Answer(0, true), AnsweredIn(n, id));
  }

  lemma Tallying(cs: Configs, hubs: set<string>, s0: Cluster, b: string, n: Node, id: string) returns (s: Cluster)
    requires Reachable(cs, hubs, s0) && b in s0.nodes && s0.nodes[b] == AnsweredIn(n, id)
    ensures Reachable(cs, hubs, s) && b in s.nodes && s.nodes[b] == TalliedIn(n, id)
  {
    s := GoTo(cs, hubs, s0, b, Tally(0), TalliedIn(n, id));
  }

  lemma Telling(cs: Configs, hubs: set<string>, s0: Cluster, b: string, n: Node, id: string) returns (s: Cluster)
    requires Reachable(cs, hubs, s0) && b in s0.nodes && s0.nodes[b] == TalliedIn(n, id) && id in n.reg
    ensures Reachable(cs, hubs, s) && b in s.nodes && s.nodes[b] == ReportedIn(n, id)
  {
    s := GoTo(cs, hubs, s0, b, Reporting(0, "", 0), ReportedIn(n, id));
  }

  /**
   The theorems are about something: between any two hubs of a cluster, an event for a receiver that both know
   is published by one and delivered by the other, and both books show it.
   */
  lemma MessagesDoArrive(cs: Configs, hubs: set<string>, a: string, b: string, r: Receiver, e: SecurityEvent)
    returns (s: Cluster)
    requires a in hubs && b in hubs && a != b && Fits(cs(a), cs(b), r, e) && cs(b).maxRetries >= 0
    ensures Reachable(cs, hubs, s) && b in s.nodes && r.id in s.nodes[b].reg
    ensures s.nodes[b].attempted == s.nodes[b].succeeded == 1 && Delivered(s.nodes[b].reg[r.id]) == 1
  {
    BothStoreAlike(cs(a), cs(b), r, e);
    s := Publishing(cs, hubs, a, b, r, e);
    var n, m := s.nodes[b], ToInternalMessage(e, [r.id], a, "m", 0);
    s := Receiving(cs, hubs, s, b, m, r.id);
    s := Succeeding(cs, hubs, s, b, StartedIn(n, m, r.id), r.id);
    DeliveryIsReported(n, m, r.id);
  }

  lemma DeliveryIsReported(n: Node, m: Message, id: string)
    requires n == NEW_NODE.(reg := n.reg) && id in n.reg && Delivered(n.reg[id]) == 0
    ensures var end := ReportedIn(StartedIn(n, m, id), id);
            end.attempted == end.succeeded == 1 && id in end.reg && Delivered(end.reg[id]) == 1
  {
  }
}
