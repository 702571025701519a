/**
 Starting and stopping a hub's consumer. Start sets the flag and starts a consumer, Stop clears the flag
 and then closes the channel; a consumer checks the flag, selects on the channel, pulls, and backs off
 after an error, each in a step of its own and interleaved with everyone else's.
 */
module Lifecycle {

  datatype Pc = AtCheck | AtSelect | Decided | Pulling | BackingOff | Exited

  /** `pulls` counts the pulls a consumer has begun; `cancelled` is its context. */
  datatype Consumer = Consumer(pc: Pc, pulls: nat, cancelled: bool)

  datatype Hub = Hub(running: bool, closed: bool, consumers: seq<Consumer>)

  datatype Event =
    | Start(subscribed: bool)
    | ClearRunning
    | CloseChannel
    | Cancel(i: nat)
    | Check(i: nat)
    | Select(i: nat)
    | BeginPull(i: nat)
    | EndPull(i: nat, failed: bool)
    | Timeout(i: nat)
    | Quit(i: nat)

  predicate At(h: Hub, i: nat, pc: Pc) {
    i < |h.consumers| && h.consumers[i].pc == pc
  }

  /** Closing the channel twice would panic; callers must not. */
  predicate Possible(h: Hub, e: Event) {
    match e
    case Start(_) => true
    case ClearRunning => true
    case CloseChannel => !h.closed
    case Cancel(i) => i < |h.consumers|
    case Check(i) => At(h, i, AtCheck)
    case Select(i) => At(h, i, AtSelect)
    case BeginPull(i) => At(h, i, Decided)
    case EndPull(i, _) => At(h, i, Pulling)
    case Timeout(i) => At(h, i, BackingOff)
    case Quit(i) => At(h, i, BackingOff) && (h.closed || h.consumers[i].cancelled)
  }

  function Go(h: Hub, i: nat, pc: Pc): Hub
    requires i < |h.consumers|
  {
    h.(consumers := h.consumers[i := h.consumers[i].(pc := pc)])
  }

  /** A select with a ready channel never takes its default branch. */
  function After(h: Hub, e: Event): Hub
    requires Possible(h, e)
  {
    match e
    case Start(subscribed) =>
      if subscribed then h.(running := true, consumers := h.consumers + [Consumer(AtCheck, 0, false)]) else h
    case ClearRunning => h.(running := false)
    case CloseChannel => h.(closed := true)
    case Cancel(i) => h.(consumers := h.consumers[i := h.consumers[i].(cancelled := true)])
    case Check(i) => Go(h, i, if h.running then AtSelect else Exited)
    case Select(i) => Go(h, i, if h.closed || h.consumers[i].cancelled then Exited else Decided)
    case BeginPull(i) =>
      h.(consumers := h.consumers[i := h.consumers[i].(pc := Pulling, pulls := h.consumers[i].pulls + 1)])
    case EndPull(i, failed) => Go(h, i, if failed then BackingOff else AtCheck)
    case Timeout(i) => Go(h, i, AtCheck)
    case Quit(i) => Go(h, i, Exited)
  }

  predicate Leads(h: Hub, events: seq<Event>, end: Hub)
    decreases |events|
  {
    if events == [] then h == end
    else Possible(h, events[0]) && Leads(After(h, events[0]), events[1..], end)
  }

  /** The pulls a consumer may still begin once the channel is closed. */
  function Allowance(c: Consumer): nat {
    if c.pc == Decided then 1 else 0
  }

  /** How far a consumer is from its exit once the channel is closed. */
  function Distance(c: Consumer): nat {
    match c.pc
    case Decided => 5
    case Pulling => 4
    case BackingOff => 3
    case AtCheck => 2
    case AtSelect => 1
    case Exited => 0
  }

  /** The consumer whose own step this is. */
  function Actor(e: Event): int {
    match e
    case Check(i) => i
    case Select(i) => i
    case BeginPull(i) => i
    case EndPull(i, _) => i
    case Timeout(i) => i
    case Quit(i) => i
    case _ => -1
  }

  /** The steps of consumer `i` among `events`. */
  function StepsOf(events: seq<Event>, i: int): nat {
    if events == [] then 0
    else (if Actor(events[0]) == i then 1 else 0) + StepsOf(events[1..], i)
  }

  lemma ClosedStep(h: Hub, e: Event, i: nat)
    requires h.closed && Possible(h, e) && i < |h.consumers|
    ensures var h' := After(h, e);
            && h'.closed && |h.consumers| <= |h'.consumers|
            && h'.consumers[i].pulls + Allowance(h'.consumers[i]) <= h.consumers[i].pulls + Allowance(h.consumers[i])
            && Distance(h'.consumers[i]) + (if Actor(e) == i then 1 else 0) <= Distance(h.consumers[i])
  {
  }

  /**
     Once Stop has returned, whatever happens next, restarts included: each consumer that exists begins at
     most one more pull, takes at most five more steps, and can reach only its exit.
   */
  lemma {:induction false} StoppedConsumersEnd(h: Hub, events: seq<Event>, end: Hub, i: nat)
    requires h.closed && Leads(h, events, end) && i < |h.consumers|
    ensures end.closed && i < |end.consumers|
    ensures end.consumers[i].pulls <= h.consumers[i].pulls + Allowance(h.consumers[i])
    ensures StepsOf(events, i) + Distance(end.consumers[i]) <= Distance(h.consumers[i])
    decreases |events|
  {
    if events == [] {
    } else {
      ClosedStep(h, events[0], i);
      StoppedConsumersEnd(After(h, events[0]), events[1..], end, i);
    }
  }

  /** A consumer started after Stop has returned never begins a pull. */
  lemma {:induction false} LaterConsumersDoNotPull(h: Hub, events: seq<Event>, end: Hub, i: nat)
    requires h.closed && Leads(h, events, end) && |h.consumers| <= i < |end.consumers|
    ensures end.consumers[i].pulls == 0
    decreases |events|
  {
    if events == [] {
    } else {
      var h' := After(h, events[0]);
      if i < |h'.consumers| {
        StoppedConsumersEnd(h', events[1..], end, i);
      } else {
        LaterConsumersDoNotPull(h', events[1..], end, i);
      }
    }
  }

  function Pulls(cs: seq<Consumer>): nat {
    if cs == [] then 0 else Pulls(cs[..|cs| - 1]) + cs[|cs| - 1].pulls
  }

  /**
     The channel is never made anew: all pulls begun after a Stop, by old and new consumers together, are
     at most one for each consumer there was. A stopped hub receiver cannot be started again.
   */
  lemma StoppedForGood(h: Hub, events: seq<Event>, end: Hub)
    requires h.closed && Leads(h, events, end)
    ensures Pulls(end.consumers) <= Pulls(h.consumers) + |h.consumers|
  {
    ConsumersStay(h, events, end);
    forall i | 0 <= i < |end.consumers|
      ensures end.consumers[i].pulls <= if i < |h.consumers| then h.consumers[i].pulls + 1 else 0
    {
      if i < |h.consumers| {
        StoppedConsumersEnd(h, events, end, i);
      } else {
        LaterConsumersDoNotPull(h, events, end, i);
      }
    }
    PullsBelow(end.consumers, h.consumers);
  }

  lemma {:induction false} ConsumersStay(h: Hub, events: seq<Event>, end: Hub)
    requires Leads(h, events, end)
    ensures |h.consumers| <= |end.consumers|
    decreases |events|
  {
    if events == [] {
    } else {
      ConsumersStay(After(h, events[0]), events[1..], end);
    }
  }

  lemma {:induction false} PullsBelow(after: seq<Consumer>, before: seq<Consumer>)
    requires |before| <= |after|
    requires forall i | 0 <= i < |after| :: after[i].pulls <= if i < |before| then before[i].pulls + 1 else 0
    ensures Pulls(after) <= Pulls(before) + |before|
  {
    if after == [] {
    } else {
      var k := |after| - 1;
      if |before| == |after| {
        PullsBelow(after[..k], before[..k]);
      } else {
        PullsBelow(after[..k], before);
      }
    }
  }

  // What Start and Stop do

  /** The last of the events that set or clear the flag has set it. */
  predicate LastStarts(events: seq<Event>) {
    events != [] &&
    match events[|events| - 1]
    case Start(subscribed) => subscribed || LastStarts(events[..|events| - 1])
    case ClearRunning => false
    case _ => LastStarts(events[..|events| - 1])
  }

  const NEW_HUB := Hub(false, false, [])

  lemma {:induction false} LeadsFront(h: Hub, events: seq<Event>, end: Hub) returns (before: Hub)
    requires Leads(h, events, end) && events != []
    ensures Leads(h, events[..|events| - 1], before)
    ensures Possible(before, events[|events| - 1]) && end == After(before, events[|events| - 1])
    decreases |events|
  {
    if |events| == 1 {
      before := h;
    } else {
      before := LeadsFront(After(h, events[0]), events[1..], end);
      assert events[1..][..|events| - 2] == events[..|events| - 1][1..];
    }
  }

  /** The flag and the channel of a hub receiver tell what has been called on it, and nothing else does. */
  lemma {:induction false} FlagAndChannelTell(events: seq<Event>, end: Hub)
    requires Leads(NEW_HUB, events, end)
    ensures end.running <==> LastStarts(events)
    ensures end.closed <==> CloseChannel in events
    decreases |events|
  {
    if events == [] {
    } else {
      var before := LeadsFront(NEW_HUB, events, end);
      var front, last := events[..|events| - 1], events[|events| - 1];
      FlagAndChannelTell(front, before);
      assert CloseChannel in events <==> CloseChannel in front || last == CloseChannel;
    }
  }

  /** So over whole runs: a consumer started now can come to pull exactly when Stop has never closed the channel. */
  lemma StartsExactlyWhenNeverStopped(events: seq<Event>, end: Hub)
    requires Leads(NEW_HUB, events, end)
    ensures CanPull(After(end, Start(true)), |end.consumers|) <==> CloseChannel !in events
  {
    FlagAndChannelTell(events, end);
    StartsExactlyWhenOpen(end);
  }

  /**
   A consumer that comes round to its check leaves exactly when the flag is down; one that backs off leaves at
   once exactly when the hub is stopped or its context cancelled; and Stop is possible once.
   */
  lemma WhoLeaves(h: Hub, i: nat)
    ensures At(h, i, AtCheck) ==> (After(h, Check(i)).consumers[i].pc == Exited <==> !h.running)
    ensures At(h, i, AtSelect) ==>
              (After(h, Select(i)).consumers[i].pc == Exited <==> h.closed || h.consumers[i].cancelled)
    ensures At(h, i, BackingOff) ==> (Possible(h, Quit(i)) <==> h.closed || h.consumers[i].cancelled)
    ensures At(h, i, BackingOff) && Possible(h, Quit(i)) ==> After(h, Quit(i)).consumers[i].pc == Exited
    ensures Possible(h, ClearRunning) && (Possible(h, CloseChannel) <==> !h.closed)
  {
  }

  // Who can still pull

  /** Some run takes consumer `i` to another pull. */
  ghost predicate CanPull(h: Hub, i: nat)
    requires i < |h.consumers|
  {
    exists events, end: Hub ::
      Leads(h, events, end) && i < |end.consumers| && end.consumers[i].pulls > h.consumers[i].pulls
  }

  /** The consumer has not exited, and nothing stands between it and its next pull that cannot be undone. */
  predicate MayPull(h: Hub, i: nat)
    requires i < |h.consumers|
  {
    var c := h.consumers[i];
    c.pc == Decided || (c.pc != Exited && !h.closed && !c.cancelled)
  }

  lemma {:induction false} BarredForGood(h: Hub, events: seq<Event>, end: Hub, i: nat)
    requires Leads(h, events, end) && i < |h.consumers| && !MayPull(h, i)
    ensures i < |end.consumers| && end.consumers[i].pulls == h.consumers[i].pulls
    decreases |events|
  {
    if events == [] {
    } else {
      BarredForGood(After(h, events[0]), events[1..], end, i);
    }
  }

  lemma Again(h: Hub, e: Event, events: seq<Event>, end: Hub)
    requires Possible(h, e) && Leads(After(h, e), events, end)
    ensures Leads(h, [e] + events, end)
  {
    assert ([e] + events)[1..] == events;
  }

  lemma PullFromDecided(h: Hub, i: nat) returns (events: seq<Event>, end: Hub)
    requires At(h, i, Decided)
    ensures Leads(h, events, end) && i < |end.consumers| && end.consumers[i].pulls == h.consumers[i].pulls + 1
  {
    end := After(h, BeginPull(i));
    events := [BeginPull(i)] + [];
    Again(h, BeginPull(i), [], end);
  }

  lemma PullFromSelect(h: Hub, i: nat) returns (events: seq<Event>, end: Hub)
    requires At(h, i, AtSelect) && !h.closed && !h.consumers[i].cancelled
    ensures Leads(h, events, end) && i < |end.consumers| && end.consumers[i].pulls == h.consumers[i].pulls + 1
  {
    events, end := PullFromDecided(After(h, Select(i)), i);
    Again(h, Select(i), events, end);
    events := [Select(i)] + events;
  }

  lemma PullFromCheck(h: Hub, i: nat) returns (events: seq<Event>, end: Hub)
    requires At(h, i, AtCheck) && !h.closed && !h.consumers[i].cancelled
    ensures Leads(h, events, end) && i < |end.consumers| && end.consumers[i].pulls == h.consumers[i].pulls + 1
  {
    var running := After(h, Start(true));
    events, end := PullFromSelect(After(running, Check(i)), i);
    Again(running, Check(i), events, end);
    Again(h, Start(true), [Check(i)] + events, end);
    events := [Start(true)] + ([Check(i)] + events);
  }

  lemma PullFromLoop(h: Hub, i: nat) returns (events: seq<Event>, end: Hub)
    requires (At(h, i, Pulling) || At(h, i, BackingOff)) && !h.closed && !h.consumers[i].cancelled
    ensures Leads(h, events, end) && i < |end.consumers| && end.consumers[i].pulls == h.consumers[i].pulls + 1
  {
    var e := if At(h, i, Pulling) then EndPull(i, false) else Timeout(i);
    events, end := PullFromCheck(After(h, e), i);
    Again(h, e, events, end);
    events := [e] + events;
  }

  /**
   A consumer can begin another pull, in some run, exactly when it is about to, or has not exited and neither
   the channel is closed nor its context cancelled. The running flag does not decide it: Start sets it again.
   */
  lemma PullsAgainExactlyWhen(h: Hub, i: nat)
    requires i < |h.consumers|
    ensures CanPull(h, i) <==> MayPull(h, i)
  {
    if MayPull(h, i) {
      var events, end;
      match h.consumers[i].pc {
        case Decided => events, end := PullFromDecided(h, i);
        case AtSelect => events, end := PullFromSelect(h, i);
        case AtCheck => events, end := PullFromCheck(h, i);
        case _ => events, end := PullFromLoop(h, i);
      }
      assert Leads(h, events, end);
    } else if events, end: Hub :|
        Leads(h, events, end) && i < |end.consumers| && end.consumers[i].pulls > h.consumers[i].pulls {
      BarredForGood(h, events, end, i);
    }
  }

  /** So a hub receiver can be started, again or for the first time, exactly as long as it was never stopped. */
  lemma StartsExactlyWhenOpen(h: Hub)
    ensures CanPull(After(h, Start(true)), |h.consumers|) <==> !h.closed
  {
    PullsAgainExactlyWhen(After(h, Start(true)), |h.consumers|);
  }

  /** A consumer that has not exited can always take a step of its own. */
  lemma NobodyIsStuck(h: Hub, i: nat)
    requires i < |h.consumers| && h.consumers[i].pc != Exited
    ensures exists e :: Actor(e) == i && Possible(h, e)
  {
    var e := match h.consumers[i].pc
      case AtCheck => Check(i)
      case AtSelect => Select(i)
      case Decided => BeginPull(i)
      case Pulling => EndPull(i, false)
      case _ => Timeout(i);
    assert Actor(e) == i && Possible(h, e);
  }

  /** Nobody has begun to stop the hub or cancelled this consumer. */
  predicate Undisturbed(events: seq<Event>, i: nat) {
    forall e | e in events :: e != ClearRunning && e != CloseChannel && e != Cancel(i)
  }

  /** And until then no consumer leaves, whatever errors its pulls end with. */
  lemma {:induction false} ConsumersKeepGoing(h: Hub, events: seq<Event>, end: Hub, i: nat)
    requires Leads(h, events, end) && Undisturbed(events, i)
    requires h.running && !h.closed && i < |h.consumers|
    requires !h.consumers[i].cancelled && h.consumers[i].pc != Exited
    ensures i < |end.consumers| && end.consumers[i].pc != Exited && end.running && !end.closed
    decreases |events|
  {
    if events == [] {
    } else {
      assert events[0] in events;
      assert forall e | e in events[1..] :: e in events;
      ConsumersKeepGoing(After(h, events[0]), events[1..], end, i);
    }
  }
}
