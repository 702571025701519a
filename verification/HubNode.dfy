/**
 One hub as a state machine: the calls in progress at its broker, its subscription, the handler of its
 consumer, and all its delivery goroutines, each moving by atomic steps in any order. A step is one
 critical section or one counter update of the source. The consumer may pull at any time it is idle:
 when it stops pulling is the subject of Lifecycle.dfy.
 */
module HubNode {
  import opened Sequences
  import opened Models
  import opened ReceiverTable
  import opened Routing
  import opened PubSub

  datatype Config = Config(urlOk: string -> bool, maxRetries: int)

  /** A call of ProcessSecurityEvent that found receivers; `counted` of them have had the event counted. */
  datatype Ingest = Ingest(event: SecurityEvent, targets: seq<string>, counted: nat, published: bool)

  /** Where a delivery goroutine stands: calling the webhook, past the attempt counter, past the verdict counter. */
  datatype Phase = Calling | Answered | Tallied | Waiting | Closed

  /** A delivery of the message at `pos` to one receiver, with the outcomes of its attempts so far. */
  datatype Run = Run(pos: nat, receiver: string, outcomes: seq<bool>, phase: Phase)

  /** The consumer between pulls or marks, after a mark, or handing a message to the targets in `rest`. */
  datatype Stage = Idle | Marked | Distributing(rest: seq<string>)

  /** Counts that went with unregistered receivers, kept for the books; a node also keeps their IDs. */
  datatype Lost = Lost(received: int, delivered: int, failed: int)

  datatype Node = Node(
    reg: Table, ingests: seq<Ingest>,
    sub: seq<Message>, batch: seq<Message>, stage: Stage,
    clock: seq<int>, distributed: seq<Message>,
    received: int, processed: int, failed: int, skipped: int,
    runs: seq<Run>, attempted: int, succeeded: int, failedDeliveries: int,
    lost: Lost, removed: set<string>)

  const NEW_NODE := Node(map[], [], [], [], Idle, [], [], 0, 0, 0, 0, [], 0, 0, 0, Lost(0, 0, 0), {})

  datatype Action =
    | Registering(r: Receiver, now: int)
    | Updating(r: Receiver, now: int)
    | Unregistering(id: string)
    | ChangingStatus(id: string, status: string, now: int)
    | Begin(event: SecurityEvent, targets: seq<string>)
    | CountOne(call: nat, now: int)
    | MarkPublished(call: nat)
    | Pulling(max: int)
    | Mark
    | Handle(now: int)
    | Distribute
    | Finish
    | Answer(run: nat, ok: bool)
    | Tally(run: nat)
    | Reporting(run: nat, error: string, now: int)
    | Wake(run: nat)

  /** The message a handler was last called with. */
  function Current(n: Node): Message
    requires n.sub != []
  {
    n.sub[|n.sub| - 1]
  }

  /** A hub passes on messages that other hubs stamped and that have not expired. */
  predicate Wanted(id: string, m: Message, now: int) {
    m.hubId != id && !Expired(m, now)
  }

  function Last(outcomes: seq<bool>): bool {
    outcomes != [] && outcomes[|outcomes| - 1]
  }

  predicate Enabled(id: string, n: Node, a: Action) {
    match a
    case Registering(r, _) => Received(r) == Delivered(r) == Failed(r) == 0
    case Updating(_, _) => true
    case Unregistering(_) => true
    case ChangingStatus(_, _, _) => true
    case Begin(e, targets) => targets != [] && NoDuplicates(targets) && Selects(n.reg, e, targets)
    case CountOne(call, _) =>
      call < |n.ingests| && n.ingests[call].counted < |n.ingests[call].targets|
    case MarkPublished(call) =>
      call < |n.ingests| && n.ingests[call].counted == |n.ingests[call].targets| && !n.ingests[call].published
    case Pulling(_) => n.stage == Idle && n.batch == []
    case Mark => n.stage == Idle && n.batch != []
    case Handle(_) => n.stage == Marked && n.sub != []
    case Distribute => n.stage.Distributing? && n.stage.rest != [] && n.sub != []
    case Finish => n.stage == Distributing([])
    case Answer(run, _) => run < |n.runs| && n.runs[run].phase == Calling
    case Tally(run) => run < |n.runs| && n.runs[run].phase == Answered
    case Reporting(run, _, _) => run < |n.runs| && n.runs[run].phase == Tallied
    case Wake(run) => run < |n.runs| && n.runs[run].phase == Waiting
  }

  /** The targets are the receivers that selection finds; Begin asks besides that none is listed twice. */
  predicate Selects(t: Table, e: SecurityEvent, targets: seq<string>) {
    && (forall id | id in targets :: id in t && RegistryAccepts(t[id], e))
    && (forall id | id in t :: RegistryAccepts(t[id], e) ==> id in targets)
  }

  function Step(c: Config, id: string, n: Node, a: Action, log: seq<Message>): Node
    requires Enabled(id, n, a)
  {
    match a
    case Registering(r, now) =>
      (match ReceiverTable.Register(c.urlOk, n.reg, r, now) case Ok(t) => n.(reg := t) case Err(_) => n)
    case Updating(r, now) =>
      (match ReceiverTable.Update(c.urlOk, n.reg, r, now) case Ok(t) => n.(reg := t) case Err(_) => n)
    case Unregistering(receiver) =>
      if receiver !in n.reg then n
      else n.(reg := n.reg - {receiver}, lost := Lose(n.lost, n.reg[receiver]), removed := n.removed + {receiver})
    case ChangingStatus(receiver, status, now) => n.(reg := SetStatus(n.reg, receiver, status, now))
    case Begin(e, targets) => n.(ingests := n.ingests + [Ingest(e, targets, 0, false)])
    case CountOne(call, now) =>
      var g := n.ingests[call];
      var target := g.targets[g.counted];
      n.(ingests := n.ingests[call := g.(counted := g.counted + 1)],
         reg := CountReceived(n.reg, target, now),
         lost := n.lost.(received := n.lost.received + if target in n.reg then 0 else 1))
    case MarkPublished(call) => n.(ingests := n.ingests[call := n.ingests[call].(published := true)])
    case Pulling(max) => n.(batch := Batch(log, n.sub, max))
    case Mark => n.(sub := n.sub + [n.batch[0]], batch := n.batch[1..], stage := Marked)
    case Handle(now) =>
      var m := Current(n);
      var met := n.(received := n.received + 1, clock := n.clock + [now]);
      if Wanted(id, m, now) then met.(stage := Distributing(m.targets), distributed := n.distributed + [m])
      else met.(stage := Idle, skipped := n.skipped + 1)
    case Distribute =>
      var target := n.stage.rest[0];
      var on := n.(stage := Distributing(n.stage.rest[1..]));
      if Deliverable(n.reg, target, Current(n).event)
      then on.(runs := n.runs + [NewRun(c, |n.sub| - 1, target)])
      else on
    case Finish => n.(stage := Idle, processed := n.processed + 1)
    case Answer(run, ok) =>
      n.(runs := n.runs[run := n.runs[run].(outcomes := n.runs[run].outcomes + [ok], phase := Answered)],
         attempted := n.attempted + 1)
    case Tally(run) =>
      var ok := Last(n.runs[run].outcomes);
      n.(runs := n.runs[run := n.runs[run].(phase := Tallied)],
         succeeded := n.succeeded + if ok then 1 else 0,
         failedDeliveries := n.failedDeliveries + if ok then 0 else 1)
    case Reporting(run, error, now) =>
      var r := n.runs[run];
      var gone := if r.receiver in n.reg then 0 else 1;
      if Last(r.outcomes) then
        n.(runs := n.runs[run := r.(phase := Closed)],
           reg := CountDelivered(n.reg, r.receiver, now),
           lost := n.lost.(delivered := n.lost.delivered + gone))
      else
        n.(runs := n.runs[run := r.(phase := if |r.outcomes| <= c.maxRetries then Waiting else Closed)],
           reg := CountFailed(n.reg, r.receiver, error, now),
           lost := n.lost.(failed := n.lost.failed + gone))
    case Wake(run) => n.(runs := n.runs[run := n.runs[run].(phase := Calling)])
  }

  /** With a negative number of retries the loop makes no attempt. */
  function NewRun(c: Config, pos: nat, receiver: string): Run {
    Run(pos, receiver, [], if c.maxRetries >= 0 then Calling else Closed)
  }

  function Lose(l: Lost, r: Receiver): Lost {
    Lost(l.received + Received(r), l.delivered + Delivered(r), l.failed + Failed(r))
  }
}
