/** How long a message lives: what publishers stamp on it, and what that means for the hubs that handle it. */
module HubExpiry {
  import opened Models
  import opened PubSub
  import opened HubNode
  import opened Cluster
  import opened HubTheorems

  /** In nanoseconds. */
  const A_DAY: int := 24 * 3600 * 1_000_000_000

  /** A message without a time to live is never too old; any other is once it is older than that. */
  lemma AgeDecides(hub: string, m: Message, now: int, later: int)
    requires m.hubId != hub
    ensures m.ttl <= 0 ==> Wanted(hub, m, now)
    ensures m.ttl > 0 ==> (Wanted(hub, m, now) <==> now - m.createdAt <= m.ttl)
    ensures now <= later && Wanted(hub, m, later) ==> Wanted(hub, m, now)
  {
  }

  /** Published by one hub, a message is wanted by every other for a day, to the nanosecond, and by its own never. */
  lemma PublishedForADay(
      e: SecurityEvent, targets: seq<string>, from: string, messageId: string, published: int, hub: string, now: int)
    ensures Wanted(hub, ToInternalMessage(e, targets, from, messageId, published), now) <==>
            hub != from && now <= published + A_DAY
  {
  }

  ghost predicate AllForADay(log: seq<Message>) {
    forall m | m in log :: m.ttl == A_DAY
  }

  lemma {:induction false} RunStampsADay(cs: Configs, s: Cluster, moves: seq<Move>, end: Cluster)
    requires Leads(cs, s, moves, end) && AllForADay(s.log)
    ensures AllForADay(end.log)
    decreases |moves|
  {
    if moves == [] {
    } else {
      RunStampsADay(cs, After(cs, s, moves[0]), moves[1..], end);
    }
  }

  /**
   In every reachable state a hub has passed on, of the messages it has handled, exactly those that another hub
   published at most a day before it handled them.
   */
  lemma PassedOnForADay(cs: Configs, hubs: set<string>, s: Cluster, hub: string, i: nat)
    requires Reachable(cs, hubs, s) && hub in s.nodes && i < |s.nodes[hub].clock|
    ensures i < |s.log|
    ensures s.log[i] in s.nodes[hub].distributed <==>
            s.log[i].hubId != hub && s.nodes[hub].clock[i] <= s.log[i].createdAt + A_DAY
  {
    HubInvariantHolds(cs, hubs, s, hub);
    ReachableIsSafe(cs, hubs, s);
    var n, m := s.nodes[hub], s.log[i];
    var moves :| Leads(cs, Start(hubs), moves, s);
    RunStampsADay(cs, Start(hubs), moves, s);
    ChosenMembers(hub, s.log, n.clock, m);
    HandledOnce(s.log, i);
    if m in n.distributed {
      var k :| 0 <= k < |n.clock| && s.log[k] == m && Wanted(hub, s.log[k], n.clock[k]);
      assert k == i;
    }
  }

  lemma HandledOnce(log: seq<Message>, i: nat)
    requires DistinctIds(log) && i < |log|
    ensures forall k | 0 <= k < |log| && log[k] == log[i] :: k == i
  {
  }
}
