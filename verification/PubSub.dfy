/**
 The in-memory topic and its subscriptions. A subscription remembers the messages it has processed, and
 a pull scans the whole topic for messages whose IDs are not among them.
 */
module PubSub {
  import opened Wrappers
  import opened Models

  predicate InSubscription(processed: seq<Message>, m: Message) {
    exists p | p in processed :: p.messageId == m.messageId
  }

  /** The scan from the front of `log`, on top of what it has `taken`. */
  function Scan(log: seq<Message>, processed: seq<Message>, max: int, taken: seq<Message>): seq<Message> {
    if log == [] then taken
    else if InSubscription(processed, log[0]) then Scan(log[1..], processed, max, taken)
    else if |taken| + 1 >= max then taken + [log[0]]
    else Scan(log[1..], processed, max, taken + [log[0]])
  }

  /** What one pull takes from the topic. */
  function Batch(log: seq<Message>, processed: seq<Message>, max: int): seq<Message> {
    Scan(log, processed, max, [])
  }

  /** How many of `n` messages are handed over, `from` of them already: `fails(i)` says how call `i` ends. */
  function Calls(from: nat, n: nat, fails: nat -> bool): (k: nat)
    requires from <= n
    ensures from <= k <= n
    decreases n - from
  {
    if from == n then n else if fails(from) then from + 1 else Calls(from + 1, n, fails)
  }

  /** The messages that a pull marks and hands over: the batch up to the first handler failure. */
  function HandedOver(batch: seq<Message>, fails: nat -> bool): seq<Message> {
    batch[..Calls(0, |batch|, fails)]
  }

  /** The processed list after a pull. */
  function Pull(log: seq<Message>, processed: seq<Message>, max: int, fails: nat -> bool): seq<Message> {
    processed + HandedOver(Batch(log, processed, max), fails)
  }

  function Min(a: int, b: int): int {
    if a < b then a else b
  }

  /** A pull always has room for one message, whatever its limit. */
  function Room(max: int): (n: nat)
    ensures n >= 1
  {
    if max > 1 then max else 1
  }

  /** No message from place `c` on repeats the ID of one before it. */
  ghost predicate Unseen(log: seq<Message>, c: nat) {
    forall i, j | 0 <= i < c <= j < |log| :: log[i].messageId != log[j].messageId
  }

  lemma {:induction false} ScanSlice(log: seq<Message>, c: nat, from: nat, max: int, taken: seq<Message>)
    requires Unseen(log, c) && c <= from <= |log| && taken == log[c..from]
    requires |taken| < Room(max)
    ensures Scan(log[from..], log[..c], max, taken) == log[c..Min(c + Room(max), |log|)]
    decreases |log| - from
  {
    if from == |log| {
      assert log[c..from] == log[c..Min(c + Room(max), |log|)];
    } else {
      assert log[from..][0] == log[from] && log[from..][1..] == log[from + 1..];
      assert log[c..from] + [log[from]] == log[c..from + 1];
      assert !InSubscription(log[..c], log[from]);
      if |taken| + 1 < max {
        ScanSlice(log, c, from + 1, max, taken + [log[from]]);
      }
    }
  }

  lemma {:induction false} ScanSkips(log: seq<Message>, c: nat, from: nat, max: int)
    requires from <= c <= |log|
    ensures Scan(log[from..], log[..c], max, []) == Scan(log[c..], log[..c], max, [])
    decreases c - from
  {
    if from == c {
    } else {
      assert log[from..][0] == log[from] && log[from..][1..] == log[from + 1..];
      assert log[from] in log[..c];
      ScanSkips(log, c, from + 1, max);
    }
  }

  /** When the list is the front of the log and nothing after it repeats its IDs, a pull takes the next slice. */
  lemma BatchOfUnseen(log: seq<Message>, c: nat, max: int)
    requires Unseen(log, c) && c <= |log|
    ensures Batch(log, log[..c], max) == log[c..Min(c + Room(max), |log|)]
  {
    assert log == log[0..];
    ScanSkips(log, c, 0, max);
    ScanSlice(log, c, c, max, []);
  }

  /** With distinct IDs the quadratic scan is a cursor: it always takes the next slice of the log. */
  lemma BatchIsNextSlice(log: seq<Message>, c: nat, max: int)
    requires DistinctIds(log) && c <= |log|
    ensures Batch(log, log[..c], max) == log[c..Min(c + Room(max), |log|)]
  {
    BatchOfUnseen(log, c, max);
  }

  lemma {:induction false} CallsMean(from: nat, n: nat, fails: nat -> bool)
    requires from <= n
    ensures var k := Calls(from, n, fails);
            && (forall i | from <= i < k - 1 :: !fails(i))
            && (k < n ==> k > from && fails(k - 1))
            && (from < n ==> k > from)
            && ((forall i | from <= i < n :: !fails(i)) ==> k == n)
    decreases n - from
  {
    if from == n || fails(from) {
    } else {
      CallsMean(from + 1, n, fails);
    }
  }

  /** Handlers get a front of the batch: all of it, or what goes up to and with the first failure. */
  lemma HandedOverIsFront(batch: seq<Message>, fails: nat -> bool)
    ensures HandedOver(batch, fails) <= batch
    ensures (forall i | 0 <= i < |batch| :: !fails(i)) ==> HandedOver(batch, fails) == batch
    ensures batch != [] ==> HandedOver(batch, fails) != []
    ensures forall i | 0 <= i < |HandedOver(batch, fails)| - 1 :: !fails(i)
    ensures |HandedOver(batch, fails)| < |batch| ==> fails(|HandedOver(batch, fails)| - 1)
  {
    CallsMean(0, |batch|, fails);
  }

  /** Any pull keeps the processed list a front of the log, and moves it on unless the log is used up. */
  lemma PullKeepsFront(log: seq<Message>, c: nat, max: int, fails: nat -> bool)
    requires DistinctIds(log) && c <= |log|
    ensures var k := |HandedOver(Batch(log, log[..c], max), fails)|;
            && c + k <= |log| && k <= Room(max)
            && Pull(log, log[..c], max, fails) == log[..c + k]
            && (c < |log| ==> k > 0)
            && ((forall i: nat :: !fails(i)) ==> c + k == Min(c + Room(max), |log|))
  {
    BatchIsNextSlice(log, c, max);
    var batch := Batch(log, log[..c], max);
    HandedOverIsFront(batch, fails);
    ExtendFront(log, c, Min(c + Room(max), |log|), HandedOver(batch, fails));
  }

  lemma ExtendFront(log: seq<Message>, c: nat, end: nat, handed: seq<Message>)
    requires c <= end <= |log| && handed <= log[c..end]
    ensures log[..c] + handed == log[..c + |handed|]
  {
  }

  /** The processed list after `n` pulls of one size on a quiet topic, when no handler fails. */
  function Pulls(log: seq<Message>, processed: seq<Message>, max: int, n: nat): seq<Message> {
    if n == 0 then processed
    else Pull(log, Pulls(log, processed, max, n - 1), max, Succeeds)
  }

  /** The handler that never fails. */
  predicate Succeeds(i: nat) { false }

  lemma QuietPull(log: seq<Message>, processed: seq<Message>, max: int)
    ensures Pull(log, processed, max, Succeeds) == processed + Batch(log, processed, max)
  {
    HandedOverIsFront(Batch(log, processed, max), Succeeds);
  }

  /** How far `n` pulls of one size reach. */
  function Reach(n: nat, max: int): nat {
    if n == 0 then 0 else Reach(n - 1, max) + Room(max)
  }

  lemma {:induction false} ReachIsProduct(n: nat, max: int)
    ensures Reach(n, max) == n * Room(max)
  {
    if n == 0 {
    } else {
      ReachIsProduct(n - 1, max);
      assert n * Room(max) == (n - 1) * Room(max) + Room(max);
    }
  }

  /** `n` pulls without failures advance the cursor by exactly `n` times their size, as far as there are messages. */
  lemma {:induction false} PullsAdvance(log: seq<Message>, c: nat, max: int, n: nat)
    requires DistinctIds(log) && c <= |log|
    ensures Pulls(log, log[..c], max, n) == log[..Min(c + n * Room(max), |log|)]
  {
    if n == 0 {
    } else {
      PullsAdvance(log, c, max, n - 1);
      var r := Room(max);
      var k := Min(c + (n - 1) * r, |log|);
      PullKeepsFront(log, k, max, Succeeds);
      assert n * r == (n - 1) * r + r;
      assert Min(k + r, |log|) == Min(c + n * r, |log|);
    }
  }

  // Repeated IDs

  /** The pull, counted from 0, that message `i` falls into when every pull takes all it can. */
  function Round(i: nat, max: int): nat {
    i / Room(max)
  }

  /** Messages that share an ID fall into one pull. */
  ghost predicate RepeatsShareAPull(log: seq<Message>, max: int) {
    forall i, j | 0 <= i < j < |log| && log[i].messageId == log[j].messageId :: Round(i, max) == Round(j, max)
  }

  lemma ReachedByRound(i: nat, n: nat, max: int)
    ensures i < Reach(n, max) <==> Round(i, max) < n
  {
    ReachIsProduct(n, max);
    QuotientBelow(i, n, Room(max));
  }

  lemma QuotientBelow(i: nat, n: nat, r: nat)
    requires r > 0
    ensures i < n * r <==> i / r < n
  {
    var q := i / r;
    assert q * r <= i < q * r + r;
    assert q * r + r == (q + 1) * r;
    if q < n {
      Times(q + 1, n, r);
    } else {
      Times(n, q, r);
    }
  }

  lemma Times(a: nat, b: nat, r: nat)
    requires a <= b
    ensures a * r <= b * r
  {
  }

  lemma UnseenAtRounds(log: seq<Message>, max: int, n: nat)
    requires RepeatsShareAPull(log, max)
    ensures Unseen(log, Min(Reach(n, max), |log|))
  {
    var c := Min(Reach(n, max), |log|);
    forall i, j | 0 <= i < c <= j < |log|
      ensures log[i].messageId != log[j].messageId
    {
      ReachedByRound(i, n, max);
      ReachedByRound(j, n, max);
    }
  }

  lemma {:induction false} SharedRepeatsDrain(log: seq<Message>, max: int, n: nat)
    requires RepeatsShareAPull(log, max)
    ensures Pulls(log, [], max, n) == log[..Min(Reach(n, max), |log|)]
  {
    if n == 0 {
    } else {
      var k := Min(Reach(n - 1, max), |log|);
      SharedRepeatsDrain(log, max, n - 1);
      UnseenAtRounds(log, max, n - 1);
      BatchOfUnseen(log, k, max);
      QuietPull(log, log[..k], max);
      Glue(log, k, Min(k + Room(max), |log|));
    }
  }

  lemma Glue(log: seq<Message>, c: nat, end: nat)
    requires c <= end <= |log|
    ensures log[..c] + log[c..end] == log[..end]
  {
  }

  /** What a scan takes it has not seen, in number at most its room; if it takes fewer, nothing unseen is left. */
  lemma {:induction false} ScanTakesUnseen(
      log: seq<Message>, processed: seq<Message>, max: int, taken: seq<Message>)
    requires |taken| < Room(max) && forall m | m in taken :: !InSubscription(processed, m)
    ensures var b := Scan(log, processed, max, taken);
            && |b| <= Room(max) && taken <= b
            && (forall m | m in b :: !InSubscription(processed, m))
            && (|b| < Room(max) ==> forall m | m in log :: InSubscription(processed, m) || m in b)
    decreases |log|
  {
    if log == [] {
    } else if InSubscription(processed, log[0]) {
      ScanTakesUnseen(log[1..], processed, max, taken);
    } else if |taken| + 1 < max {
      ScanTakesUnseen(log[1..], processed, max, taken + [log[0]]);
      assert log[0] in taken + [log[0]];
    }
  }

  lemma {:induction false} ScanOfSeen(log: seq<Message>, processed: seq<Message>, max: int)
    requires forall m | m in log :: InSubscription(processed, m)
    ensures Scan(log, processed, max, []) == []
  {
    if log == [] {
    } else {
      assert log[0] in log;
      ScanOfSeen(log[1..], processed, max);
    }
  }

  lemma {:induction false} PullsGrow(log: seq<Message>, max: int, n: nat, m: nat)
    requires n <= m
    ensures Pulls(log, [], max, n) <= Pulls(log, [], max, m)
    decreases m - n
  {
    if n == m {
    } else {
      PullsGrow(log, max, n, m - 1);
    }
  }

  lemma {:induction false} PullsStop(log: seq<Message>, max: int, n: nat, m: nat)
    requires n <= m && forall x | x in log :: InSubscription(Pulls(log, [], max, n), x)
    ensures Pulls(log, [], max, m) == Pulls(log, [], max, n)
    decreases m - n
  {
    if n == m {
    } else {
      PullsStop(log, max, n, m - 1);
      ScanOfSeen(log, Pulls(log, [], max, m - 1), max);
      QuietPull(log, Pulls(log, [], max, m - 1), max);
    }
  }

  /** A pull takes only unseen messages, and if it takes fewer than it could, it is the last. */
  lemma PullFacts(log: seq<Message>, processed: seq<Message>, max: int)
    ensures var b := Batch(log, processed, max);
            && Pull(log, processed, max, Succeeds) == processed + b && |b| <= Room(max)
            && (forall m | m in b :: !InSubscription(processed, m))
            && (|b| < Room(max) ==> forall m | m in log :: InSubscription(processed + b, m))
  {
    var b := Batch(log, processed, max);
    QuietPull(log, processed, max);
    ScanTakesUnseen(log, processed, max, []);
    if |b| < Room(max) {
      forall m | m in log
        ensures InSubscription(processed + b, m)
      {
        if InSubscription(processed, m) {
          var p :| p in processed && p.messageId == m.messageId;
          assert p in processed + b;
        } else {
          assert m in processed + b;
        }
      }
    }
  }

  /** When draining hands over the whole log, every pull on the way takes the next full slice. */
  lemma {:induction false} DrainedByRounds(log: seq<Message>, max: int, n: nat)
    requires Pulls(log, [], max, |log|) == log && n <= |log|
    ensures Pulls(log, [], max, n) == log[..Min(Reach(n, max), |log|)]
  {
    if n == 0 {
    } else {
      DrainedByRounds(log, max, n - 1);
      PullsGrow(log, max, n, |log|);
      var c := Min(Reach(n - 1, max), |log|);
      PullFacts(log, log[..c], max);
      if |Batch(log, log[..c], max)| < Room(max) {
        PullsStop(log, max, n, |log|);
      }
    }
  }

  /** And then no message repeats the ID of one handed over by an earlier pull. */
  lemma DrainedRoundIsUnseen(log: seq<Message>, max: int, n: nat, i: nat, j: nat)
    requires Pulls(log, [], max, |log|) == log && n < |log|
    requires i < Reach(n, max) <= j < Min(Reach(n + 1, max), |log|)
    ensures log[i].messageId != log[j].messageId
  {
    var c := Reach(n, max);
    var b := Batch(log, log[..c], max);
    DrainedByRounds(log, max, n);
    DrainedByRounds(log, max, n + 1);
    PullFacts(log, log[..c], max);
    SliceIsUnseen(log, c, b, Min(Reach(n + 1, max), |log|), i, j);
  }

  lemma SliceIsUnseen(log: seq<Message>, c: nat, b: seq<Message>, end: nat, i: nat, j: nat)
    requires i < c <= j < end <= |log| && log[..c] + b == log[..end]
    requires forall m | m in b :: !InSubscription(log[..c], m)
    ensures log[i].messageId != log[j].messageId
  {
    assert (log[..c] + b)[j] == b[j - c];
    assert b[j - c] in b && log[i] in log[..c];
  }

  lemma DrainedRepeatsShare(log: seq<Message>, max: int, i: nat, j: nat)
    requires Pulls(log, [], max, |log|) == log && i < j < |log| && Round(i, max) != Round(j, max)
    ensures log[i].messageId != log[j].messageId
  {
    var n := Round(j, max);
    EarlierRound(i, j, max);
    ReachedByRound(j, n, max);
    ReachedByRound(j, n + 1, max);
    ReachedByRound(i, n, max);
    RoundBelow(j, max);
    DrainedRoundIsUnseen(log, max, n, i, j);
  }

  lemma EarlierRound(i: nat, j: nat, max: int)
    requires i < j
    ensures Round(i, max) <= Round(j, max)
  {
    ReachedByRound(i, Round(j, max) + 1, max);
    ReachedByRound(j, Round(j, max) + 1, max);
  }

  lemma RoundBelow(j: nat, max: int)
    ensures Round(j, max) <= j
  {
    QuotientBelow(j, j + 1, Room(max));
    assert (j + 1) * Room(max) >= j + 1;
  }

  /**
   Message IDs are made from the clock and may repeat. Draining a topic from the start, by pulls of one size
   and without failures, hands over every message exactly when messages that share an ID fall into one pull.
   */
  lemma DrainsExactlyWhen(log: seq<Message>, max: int)
    ensures Pulls(log, [], max, |log|) == log <==> RepeatsShareAPull(log, max)
  {
    if RepeatsShareAPull(log, max) {
      SharedRepeatsDrain(log, max, |log|);
      ReachIsProduct(|log|, max);
      assert |log| * Room(max) >= |log|;
      assert log[..|log|] == log;
    }
    if Pulls(log, [], max, |log|) == log {
      forall i, j | 0 <= i < j < |log| && log[i].messageId == log[j].messageId
        ensures Round(i, max) == Round(j, max)
      {
        if Round(i, max) != Round(j, max) {
          DrainedRepeatsShare(log, max, i, j);
        }
      }
    }
  }

  /** Two messages with one ID: pulled one at a time the second is lost, pulled together it is not. */
  lemma RepeatIsLost(m: Message, n: Message)
    requires m.messageId == n.messageId
    ensures Pulls([m, n], [], 1, 2) == [m] && Pulls([m, n], [], 2, 2) == [m, n]
  {
    var log := [m, n];
    assert log[1..] == [n] && [n][1..] == [] && log[..1] == [m];
    PullOne(log, m, n);
    DrainsExactlyWhen(log, 2);
    assert RepeatsShareAPull(log, 2);
  }

  lemma PullOne(log: seq<Message>, m: Message, n: Message)
    requires log == [m, n] && m.messageId == n.messageId
    ensures Pulls(log, [], 1, 2) == [m]
  {
    assert log[1..] == [n] && [n][1..] == [];
    assert Batch(log, [], 1) == [m];
    QuietPull(log, [], 1);
    assert Pulls(log, [], 1, 0) == [] && Pulls(log, [], 1, 1) == [] + [m] == [m];
    assert m in [m];
    ScanOfSeen(log, [m], 1);
    QuietPull(log, [m], 1);
  }

  lemma OneAtATime(log: seq<Message>)
    ensures RepeatsShareAPull(log, 1) <==> DistinctIds(log)
  {
    forall i: nat
      ensures Round(i, 1) == i
    {
    }
    if RepeatsShareAPull(log, 1) {
      forall i, j | 0 <= i < j < |log|
        ensures log[i].messageId != log[j].messageId
      {
        assert Round(i, 1) != Round(j, 1);
      }
    }
  }

  /** So only distinct IDs are safe whatever the size, and pulling one at a time needs them. */
  lemma DrainingNeedsDistinctIds(log: seq<Message>, max: int)
    ensures Pulls(log, [], 1, |log|) == log <==> DistinctIds(log)
    ensures DistinctIds(log) ==> Pulls(log, [], max, |log|) == log
  {
    OneAtATime(log);
    DrainsExactlyWhen(log, 1);
    DrainsExactlyWhen(log, max);
  }

  class MockTopic {
    var messages: seq<Message>

    constructor ()
      ensures messages == []
    {
      messages := [];
    }
  }

  class MockSubscription {
    const topicName: string
    var messages: seq<Message>

    constructor (topicName: string)
      ensures this.topicName == topicName && messages == []
    {
      this.topicName := topicName;
      messages := [];
    }

    method MessageInSubscription(m: Message) returns (found: bool)
      ensures found <==> InSubscription(messages, m)
    {
      for i := 0 to |messages|
        invariant forall p | p in messages[..i] :: p.messageId != m.messageId
      {
        if messages[i].messageId == m.messageId {
          return true;
        }
      }
      return false;
    }
  }

  datatype PullError =
    | NoSubscription(name: string)
    | NoTopic(name: string)
    | HandlerFailed(message: Message)

  class MockClient {
    const hubInstanceId: string
    var topicName: string
    var topics: map<string, MockTopic>
    var subscriptions: map<string, MockSubscription>

    /** Different names never share an object. */
    ghost predicate Valid()
      reads this
    {
      && (forall a, b | a in topics && b in topics && a != b :: topics[a] != topics[b])
      && (forall a, b | a in subscriptions && b in subscriptions && a != b :: subscriptions[a] != subscriptions[b])
    }

    /** The log of a topic, empty before its first message. */
    ghost function Log(name: string): seq<Message>
      reads this, topics.Values
    {
      if name in topics then topics[name].messages else []
    }

    constructor (hubInstanceId: string)
      ensures Valid() && topics.Keys == {"ssf-hub-events"} == {topicName} && subscriptions == map[]
      ensures Log(topicName) == [] && this.hubInstanceId == hubInstanceId
      ensures fresh(topics.Values)
    {
      this.hubInstanceId := hubInstanceId;
      topicName := "ssf-hub-events";
      subscriptions := map[];
      topics := map[];
      new;
      var topic := new MockTopic();
      topics := topics[topicName := topic];
    }

    /** The message is stamped with this hub's ID and appended to the current topic; no other log changes. */
    method PublishEvent(e: SecurityEvent, targets: seq<string>, messageId: string, now: int)
      requires Valid()
      modifies this`topics, topics.Values
      ensures Valid() && topics.Keys == old(topics.Keys) + {topicName}
      ensures fresh(topics.Values - old(topics.Values))
      ensures Log(topicName) == old(Log(topicName)) + [ToInternalMessage(e, targets, hubInstanceId, messageId, now)]
      ensures forall name | name != topicName :: Log(name) == old(Log(name))
    {
      var message := ToInternalMessage(e, targets, hubInstanceId, messageId, now);
      if topicName !in topics {
        var topic := new MockTopic();
        topics := topics[topicName := topic];
      }
      topics[topicName].messages := topics[topicName].messages + [message];
    }

    /** An existing subscription is kept; a new one has processed nothing. */
    method CreateHubSubscription(name: string)
      requires Valid()
      modifies this`subscriptions
      ensures Valid() && name in subscriptions
      ensures name in old(subscriptions) ==> subscriptions == old(subscriptions)
      ensures name !in old(subscriptions) ==>
                && subscriptions == old(subscriptions)[name := subscriptions[name]] && fresh(subscriptions[name])
                && subscriptions[name].topicName == topicName && subscriptions[name].messages == []
    {
      if name in subscriptions {
        return;
      }
      var subscription := new MockSubscription(topicName);
      subscriptions := subscriptions[name := subscription];
    }

    method DeleteHubSubscription(name: string)
      requires Valid()
      modifies this`subscriptions
      ensures Valid() && subscriptions == old(subscriptions) - {name}
    {
      subscriptions := subscriptions - {name};
    }

    /** The messages of the topic that the subscription has not processed, up to the limit. */
    method Collect(topic: MockTopic, subscription: MockSubscription, maxMessages: int) returns (batch: seq<Message>)
      ensures batch == Batch(topic.messages, subscription.messages, maxMessages)
    {
      batch := [];
      var log := topic.messages;
      for i := 0 to |log|
        invariant log == topic.messages
        invariant Scan(log, subscription.messages, maxMessages, []) ==
                  Scan(log[i..], subscription.messages, maxMessages, batch)
      {
        assert log[i..][0] == log[i] && log[i..][1..] == log[i + 1..];
        var known := subscription.MessageInSubscription(log[i]);
        if !known {
          batch := batch + [log[i]];
          if |batch| >= maxMessages {
            return;
          }
        }
      }
    }

    /**
     Mark and hand over, one message after the other. A message is marked before its handler runs, so one
     whose handler fails counts as processed, and the rest of the batch is left for a later pull.
     */
    method HandOver(subscription: MockSubscription, batch: seq<Message>, fails: nat -> bool)
      returns (error: Option<PullError>, handled: seq<Message>)
      modifies subscription
      ensures handled == HandedOver(batch, fails)
      ensures subscription.messages == old(subscription.messages) + handled
      ensures error == FailureOf(handled, fails)
    {
      handled := [];
      CallsMean(0, |batch|, fails);
      for i := 0 to |batch|
        invariant handled == batch[..i] && subscription.messages == old(subscription.messages) + handled
        invariant Calls(0, |batch|, fails) == Calls(i, |batch|, fails)
        invariant i > 0 ==> !fails(i - 1)
      {
        subscription.messages := subscription.messages + [batch[i]];
        handled := handled + [batch[i]];
        if fails(i) {
          return Some(HandlerFailed(batch[i])), handled;
        }
      }
      error := None;
    }

    /** One pull, without other activity. */
    method PullInternalMessages(name: string, maxMessages: int, fails: nat -> bool)
      returns (error: Option<PullError>, handled: seq<Message>)
      requires Valid()
      modifies subscriptions.Values
      ensures name !in subscriptions ==> error == Some(NoSubscription(name)) && handled == []
      ensures name in subscriptions && subscriptions[name].topicName !in topics ==>
                error == Some(NoTopic(subscriptions[name].topicName)) && handled == []
      ensures name in subscriptions && subscriptions[name].topicName in topics ==>
                var s := subscriptions[name];
                && handled == HandedOver(Batch(Log(s.topicName), old(s.messages), maxMessages), fails)
                && s.messages == old(s.messages) + handled
                && error == FailureOf(handled, fails)
      ensures forall other | other in subscriptions && (other != name || handled == []) ::
                subscriptions[other].messages == old(subscriptions[other].messages)
    {
      if name !in subscriptions {
        return Some(NoSubscription(name)), [];
      }
      var subscription := subscriptions[name];
      if subscription.topicName !in topics {
        return Some(NoTopic(subscription.topicName)), [];
      }
      var batch := Collect(topics[subscription.topicName], subscription, maxMessages);
      error, handled := HandOver(subscription, batch, fails);
    }
  }

  /** The error a pull returns: the failure of the last handler called, if it failed. */
  function FailureOf(handled: seq<Message>, fails: nat -> bool): Option<PullError> {
    if handled != [] && fails(|handled| - 1) then Some(HandlerFailed(handled[|handled| - 1])) else None
  }

  /** A pull reports an error exactly when one of its handler calls failed, and names that call's message. */
  lemma ErrorNamesTheFailure(batch: seq<Message>, fails: nat -> bool, m: Message)
    ensures FailureOf(HandedOver(batch, fails), fails) == None <==> forall i | 0 <= i < |batch| :: !fails(i)
    ensures FailureOf(HandedOver(batch, fails), fails) == Some(HandlerFailed(m)) <==>
            exists i | 0 <= i < |batch| :: fails(i) && batch[i] == m && forall j | 0 <= j < i :: !fails(j)
  {
    HandedOverIsFront(batch, fails);
    CallsMean(0, |batch|, fails);
    var k := |HandedOver(batch, fails)|;
    if i :| 0 <= i < |batch| && fails(i) && batch[i] == m && forall j | 0 <= j < i :: !fails(j) {
      assert k == i + 1;
    }
  }
}
