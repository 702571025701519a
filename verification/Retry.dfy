/** The receiver library's retry loop: calls, waits, and the response bodies it holds open. */
module Retry {
  import opened Wrappers
  import opened Sequences
  import opened Sums
  import opened Backoff

  // Configuration

  datatype RetryConfig = RetryConfig(
    maxRetries: int, initialBackoff: int, maxBackoff: int, multiplier: real, retryable: Option<map<int, bool>>)

  datatype ConfigError = NegativeRetries | InitialTooSmall | MaxTooSmall | MultiplierTooSmall | NoStatuses | BadStatus

  function Validate(c: RetryConfig): Option<ConfigError> {
    if c.maxRetries < 0 then Some(NegativeRetries)
    else if c.initialBackoff <= 0 then Some(InitialTooSmall)
    else if c.maxBackoff < c.initialBackoff then Some(MaxTooSmall)
    else if c.multiplier <= 1.0 then Some(MultiplierTooSmall)
    else if c.retryable.None? then Some(NoStatuses)
    else if exists code | code in c.retryable.value :: code < 100 || code > 599 then Some(BadStatus)
    else None
  }

  /** What can be wrong with a configuration, in the order in which it is reported. */
  ghost function ConfigFaults(c: RetryConfig): seq<Fault<ConfigError>> {
    [(c.maxRetries < 0, NegativeRetries), (c.initialBackoff < 1, InitialTooSmall),
     (c.maxBackoff < c.initialBackoff, MaxTooSmall), (!(c.multiplier > 1.0), MultiplierTooSmall),
     (c.retryable == None, NoStatuses),
     (c.retryable.Some? && !(forall code | code in c.retryable.value :: 100 <= code <= 599), BadStatus)]
  }

  lemma ValidateReportsFirst(c: RetryConfig)
    ensures Validate(c) == First(ConfigFaults(c))
  {
    var s := ConfigFaults(c);
    FirstIsNone(s);
    var k := if s[0].0 then 0 else if s[1].0 then 1 else if s[2].0 then 2 else if s[3].0 then 3
             else if s[4].0 then 4 else 5;
    if s[k].0 {
      FirstIs(s, k);
    }
  }

  /** Looking a status up in a nil map finds nothing. */
  predicate Retryable(c: RetryConfig, status: int) {
    c.retryable.Some? && status in c.retryable.value && c.retryable.value[status]
  }

  class ExponentialBackoff {
    const current: int
    const max: int
    const multiplier: real
    var attemptCount: nat

    constructor (initial: int, max: int, multiplier: real)
      ensures current == initial && this.max == max && this.multiplier == multiplier && attemptCount == 0
    {
      current, this.max, this.multiplier, attemptCount := initial, max, multiplier, 0;
    }

    /** `u` is the random draw. */
    method Next(u: real) returns (delay: int)
      modifies this
      ensures delay == Delay(current, max, multiplier, old(attemptCount), u)
      ensures attemptCount == old(attemptCount) + 1
    {
      var next := Grown(current, multiplier, attemptCount);
      if next > max as real {
        next := max as real;
      }
      assert next == Ceiling(current, max, multiplier, attemptCount);
      delay := Truncate(WithJitter(next, u));
      attemptCount := attemptCount + 1;
    }
  }

  // The loop as a function of what happens around it

  /**
   What one call of the operation gives: an error, an error together with a response whose body is open or
   not, nothing at all, or a response.
   */
  datatype Outcome = Failed | FailedWith(status: int, open: bool) | NilResponse | Got(status: int)

  /**
   The world of one call of Do: the outcome of each attempt, and whether the context is found cancelled
   before it or during the wait that precedes it.
   */
  datatype World = World(op: nat -> Outcome, cancelledBefore: nat -> bool, cancelledWaiting: nat -> bool)

  /** `kept` is the attempt whose response is still held. */
  datatype Ending =
    | Returned(attempt: nat)
    | ReturnedNil(attempt: nat)
    | Cancelled(attempt: nat, kept: Option<nat>)
    | Exhausted(kept: Option<nat>)

  predicate Stops(w: World, attempt: nat) {
    w.cancelledBefore(attempt) || (attempt > 0 && w.cancelledWaiting(attempt))
  }

  function Loop(c: RetryConfig, w: World, attempt: nat, kept: Option<nat>): Ending
    decreases c.maxRetries + 1 - attempt
  {
    if attempt > c.maxRetries then Exhausted(kept)
    else if Stops(w, attempt) then Cancelled(attempt, kept)
    else match w.op(attempt)
      case Failed => Loop(c, w, attempt + 1, kept)
      case FailedWith(_, _) => Loop(c, w, attempt + 1, kept)
      case NilResponse => ReturnedNil(attempt)
      case Got(status) =>
        if Retryable(c, status) then Loop(c, w, attempt + 1, Some(attempt)) else Returned(attempt)
  }

  /** The attempt goes on to another. */
  predicate Retried(c: RetryConfig, o: Outcome) {
    o.Failed? || o.FailedWith? || (o.Got? && Retryable(c, o.status))
  }

  /** The last of the first `n` attempts to give a response without an error. */
  function LastGot(w: World, n: nat): Option<nat> {
    if n == 0 then None
    else if w.op(n - 1).Got? then Some(n - 1)
    else LastGot(w, n - 1)
  }

  /** How many times the operation was called. */
  function Calls(c: RetryConfig, e: Ending): nat {
    match e
    case Returned(k) => k + 1
    case ReturnedNil(k) => k + 1
    case Cancelled(k, _) => k
    case Exhausted(_) => if c.maxRetries < 0 then 0 else c.maxRetries + 1
  }

  /**
   How the loop ends, each ending with everything before it: every attempt but a returning one errored or
   had a retryable status and nothing was cancelled; exhaustion takes all attempts; the response kept is
   the last one obtained.
   */
  ghost predicate EndsWell(c: RetryConfig, w: World, e: Ending) {
    var n := match e case Returned(k) => k case ReturnedNil(k) => k case Cancelled(k, _) => k case _ => Calls(c, e);
    && (forall k: nat | k < n :: Retried(c, w.op(k)) && !Stops(w, k))
    && n <= (if c.maxRetries < 0 then 0 else c.maxRetries + 1)
    && match e
       case Returned(k) => w.op(k).Got? && !Retryable(c, w.op(k).status) && !Stops(w, k) && k <= c.maxRetries
       case ReturnedNil(k) => w.op(k).NilResponse? && !Stops(w, k) && k <= c.maxRetries
       case Cancelled(k, kept) => Stops(w, k) && kept == LastGot(w, k) && k <= c.maxRetries
       case Exhausted(kept) => kept == LastGot(w, n)
  }

  lemma {:induction false} LoopEndsWell(c: RetryConfig, w: World, attempt: nat, kept: Option<nat>)
    requires forall k: nat | k < attempt :: Retried(c, w.op(k)) && !Stops(w, k)
    requires kept == LastGot(w, attempt)
    requires attempt <= if c.maxRetries < 0 then 0 else c.maxRetries + 1
    ensures EndsWell(c, w, Loop(c, w, attempt, kept))
    decreases c.maxRetries + 1 - attempt
  {
    if attempt > c.maxRetries || Stops(w, attempt) || !Retried(c, w.op(attempt)) {
    } else {
      LoopEndsWell(c, w, attempt + 1, if w.op(attempt).Got? then Some(attempt) else kept);
    }
  }

  /** The operation is called at most once more than there are retries, although the error message says otherwise. */
  lemma AttemptsAreBounded(c: RetryConfig, w: World)
    ensures var e := Loop(c, w, 0, None);
            && EndsWell(c, w, e)
            && Calls(c, e) <= (if c.maxRetries < 0 then 0 else c.maxRetries + 1)
            && (e.Exhausted? && c.maxRetries >= 0 ==> Calls(c, e) == c.maxRetries + 1)
  {
    LoopEndsWell(c, w, 0, None);
  }

  // The endings, by the map of statuses

  /** The map says of this status that it is to be retried. */
  ghost predicate SaysRetry(c: RetryConfig, status: int) {
    c.retryable.Some? && (status, true) in c.retryable.value.Items
  }

  /** Attempt `i` is made and leads to another one, for what the operation gave and what the map says of it. */
  ghost predicate GoesOn(c: RetryConfig, w: World, i: nat) {
    && !w.cancelledBefore(i) && (i == 0 || !w.cancelledWaiting(i))
    && (w.op(i).Failed? || w.op(i).FailedWith? || (w.op(i).Got? && SaysRetry(c, w.op(i).status)))
  }

  lemma SaysRetryMeans(c: RetryConfig)
    ensures forall status :: SaysRetry(c, status) <==> Retryable(c, status)
  {
    if c.retryable.Some? {
      var m := c.retryable.value;
      assert forall status :: (status, true) in m.Items <==> status in m && m[status];
    }
  }

  lemma GoesOnMeans(c: RetryConfig, w: World)
    ensures forall i: nat :: GoesOn(c, w, i) <==> Retried(c, w.op(i)) && !Stops(w, i)
  {
    SaysRetryMeans(c);
  }

  /**
   The response returned is that of the first attempt whose status is absent from the map, maps to false, or
   meets a nil map, every earlier attempt having failed or got a status that maps to true.
   */
  lemma ReturnsExactlyWhen(c: RetryConfig, w: World, k: nat)
    ensures Loop(c, w, 0, None) == Returned(k) <==>
            && k <= c.maxRetries && (forall i: nat | i < k :: GoesOn(c, w, i))
            && !w.cancelledBefore(k) && (k == 0 || !w.cancelledWaiting(k))
            && w.op(k).Got? && !SaysRetry(c, w.op(k).status)
  {
    SaysRetryMeans(c);
    LoopEndsWell(c, w, 0, None);
    EndingIs(c, w, k);
  }

  /** And the other endings: no response at all, a context found cancelled, or all attempts used up. */
  lemma OtherwiseEndsExactlyWhen(c: RetryConfig, w: World, k: nat)
    ensures Loop(c, w, 0, None) == ReturnedNil(k) <==>
            && k <= c.maxRetries && (forall i: nat | i < k :: GoesOn(c, w, i))
            && !w.cancelledBefore(k) && (k == 0 || !w.cancelledWaiting(k)) && w.op(k).NilResponse?
    ensures Loop(c, w, 0, None) == Cancelled(k, LastGot(w, k)) <==>
            && k <= c.maxRetries && (forall i: nat | i < k :: GoesOn(c, w, i))
            && (w.cancelledBefore(k) || (k > 0 && w.cancelledWaiting(k)))
    ensures Loop(c, w, 0, None).Exhausted? <==> forall i: nat | i <= c.maxRetries :: GoesOn(c, w, i)
  {
    SaysRetryMeans(c);
    LoopEndsWell(c, w, 0, None);
    EndingIs(c, w, k);
    EndsExhausted(c, w);
  }

  lemma EndingIs(c: RetryConfig, w: World, k: nat)
    ensures k <= c.maxRetries && (forall i: nat | i < k :: GoesOn(c, w, i)) ==>
              Loop(c, w, 0, None) == Loop(c, w, k, LastGot(w, k))
    ensures var e := Loop(c, w, 0, None);
            (e == Returned(k) || e == ReturnedNil(k) || e == Cancelled(k, LastGot(w, k))) ==>
              k <= c.maxRetries && forall i: nat | i < k :: GoesOn(c, w, i)
  {
    GoesOnMeans(c, w);
    LoopEndsWell(c, w, 0, None);
    if k <= c.maxRetries && forall i: nat | i < k :: GoesOn(c, w, i) {
      LoopReaches(c, w, k, 0, None);
    }
  }

  lemma EndsExhausted(c: RetryConfig, w: World)
    ensures Loop(c, w, 0, None).Exhausted? <==> forall i: nat | i <= c.maxRetries :: GoesOn(c, w, i)
  {
    GoesOnMeans(c, w);
    LoopEndsWell(c, w, 0, None);
    var e := Loop(c, w, 0, None);
    if !e.Exhausted? {
      assert e.attempt <= c.maxRetries && !GoesOn(c, w, e.attempt);
    }
  }

  /** No error exactly when the operation's own answer is returned; and what the errors count. */
  lemma ErrorsTell(c: RetryConfig, w: World)
    ensures var e := Loop(c, w, 0, None);
            && (ErrorOf(c, e) == None <==> e.Returned? || e.ReturnedNil?)
            && (e.Cancelled? ==> ErrorOf(c, e) == Some(ContextCancelled(Calls(c, e))))
            && (e.Exhausted? && c.maxRetries >= 0 ==> ErrorOf(c, e) == Some(MaxRetriesExceeded(Calls(c, e) - 1)))
  {
  }

  /** The configuration the library starts with. */
  const DEFAULT_CONFIG := RetryConfig(
    3, 1_000_000_000, 30_000_000_000, 2.0,
    Some(map[408 := true, 429 := true, 500 := true, 502 := true, 503 := true, 504 := true]))

  /** It is valid, and it retries time-outs, rate limits and four kinds of server error, and nothing else. */
  lemma DefaultRetries(status: int)
    ensures Validate(DEFAULT_CONFIG) == None
    ensures SaysRetry(DEFAULT_CONFIG, status) <==> status in {408, 429, 500, 502, 503, 504}
  {
    SaysRetryMeans(DEFAULT_CONFIG);
  }

  /** With it there are at most four calls, and the backoff before jitter is one, two and four seconds. */
  lemma DefaultRetryPace(w: World)
    ensures Calls(DEFAULT_CONFIG, Loop(DEFAULT_CONFIG, w, 0, None)) <= 4
    ensures Loop(DEFAULT_CONFIG, w, 0, None).Exhausted? ==> Calls(DEFAULT_CONFIG, Loop(DEFAULT_CONFIG, w, 0, None)) == 4
    ensures var c := DEFAULT_CONFIG;
            && Ceiling(c.initialBackoff, c.maxBackoff, c.multiplier, 0) == 1_000_000_000.0
            && Ceiling(c.initialBackoff, c.maxBackoff, c.multiplier, 1) == 2_000_000_000.0
            && Ceiling(c.initialBackoff, c.maxBackoff, c.multiplier, 2) == 4_000_000_000.0
            && c.maxBackoff == 30_000_000_000
  {
    AttemptsAreBounded(DEFAULT_CONFIG, w);
    assert Power(2.0, 1) == 2.0 * Power(2.0, 0) && Power(2.0, 2) == 2.0 * Power(2.0, 1);
  }

  /** The loop comes to make this attempt. */
  ghost predicate Reached(c: RetryConfig, w: World, k: nat) {
    k <= c.maxRetries && !Stops(w, k) && forall i: nat | i < k :: Retried(c, w.op(i)) && !Stops(w, i)
  }

  /** The attempts made are exactly those reached. */
  lemma CallsAreReached(c: RetryConfig, w: World, k: nat)
    ensures k < Calls(c, Loop(c, w, 0, None)) <==> Reached(c, w, k)
  {
    var e := Loop(c, w, 0, None);
    LoopEndsWell(c, w, 0, None);
    if Reached(c, w, k) {
      LoopReaches(c, w, k, 0, None);
      LoopGoesOn(c, w, k, LastGot(w, k));
    }
  }

  lemma {:induction false} LoopGoesOn(c: RetryConfig, w: World, attempt: nat, kept: Option<nat>)
    requires attempt <= c.maxRetries + 1
    ensures Calls(c, Loop(c, w, attempt, kept)) >= attempt
    ensures attempt <= c.maxRetries && !Stops(w, attempt) ==> Calls(c, Loop(c, w, attempt, kept)) > attempt
    decreases c.maxRetries + 1 - attempt
  {
    if attempt > c.maxRetries || Stops(w, attempt) || !Retried(c, w.op(attempt)) {
    } else {
      LoopGoesOn(c, w, attempt + 1, if w.op(attempt).Got? then Some(attempt) else kept);
    }
  }

  lemma {:induction false} LoopReaches(c: RetryConfig, w: World, k: nat, attempt: nat, kept: Option<nat>)
    requires attempt <= k <= c.maxRetries && kept == LastGot(w, attempt)
    requires forall i: nat | i < k :: Retried(c, w.op(i)) && !Stops(w, i)
    ensures Loop(c, w, attempt, kept) == Loop(c, w, k, LastGot(w, k))
    decreases k - attempt
  {
    if attempt == k {
    } else {
      LoopReaches(c, w, k, attempt + 1, if w.op(attempt).Got? then Some(attempt) else kept);
    }
  }

  /** The body of attempt `k` is open when the loop ends, and its response is not the one returned. */
  predicate Leaked(c: RetryConfig, w: World, k: nat) {
    var e := Loop(c, w, 0, None);
    k < Calls(c, e) && (e == Cancelled(Calls(c, e), Some(k)) || (w.op(k).FailedWith? && w.op(k).open))
  }

  /** The context is found cancelled at attempt `n`, and `k` is the last attempt before it to give a response. */
  ghost predicate CancelledHolding(c: RetryConfig, w: World, n: nat, k: nat) {
    && k < n <= c.maxRetries && Stops(w, n) && w.op(k).Got?
    && (forall i: nat | i < n :: Retried(c, w.op(i)) && !Stops(w, i))
    && forall i: nat | k < i < n :: !w.op(i).Got?
  }

  /**
   The bodies left open with nobody to close them, exactly: the one held when the context is found cancelled,
   and that of every attempt made that gave an error together with an open response.
   */
  lemma LeaksExactly(c: RetryConfig, w: World, k: nat)
    ensures Leaked(c, w, k) <==>
            || (exists n: nat :: CancelledHolding(c, w, n, k))
            || (Reached(c, w, k) && w.op(k).FailedWith? && w.op(k).open)
  {
    var e := Loop(c, w, 0, None);
    LoopEndsWell(c, w, 0, None);
    CallsAreReached(c, w, k);
    if e.Cancelled? && e.kept == Some(k) {
      LastGotMeans(w, e.attempt);
      assert CancelledHolding(c, w, e.attempt, k);
    }
    if n: nat :| CancelledHolding(c, w, n, k) {
      LoopReaches(c, w, n, 0, None);
      LastGotIs(w, n, k);
    }
  }

  lemma {:induction false} LastGotMeans(w: World, n: nat)
    ensures var k := LastGot(w, n);
            k.Some? ==> k.value < n && w.op(k.value).Got? && forall i: nat | k.value < i < n :: !w.op(i).Got?
  {
    if n == 0 {
    } else {
      LastGotMeans(w, n - 1);
    }
  }

  lemma {:induction false} LastGotIs(w: World, n: nat, k: nat)
    requires k < n && w.op(k).Got? && forall i: nat | k < i < n :: !w.op(i).Got?
    ensures LastGot(w, n) == Some(k)
  {
    if n == k + 1 {
    } else {
      LastGotIs(w, n - 1, k);
    }
  }

  /** When no error ever comes with an open body, only cancellation leaks, and one body at most. */
  lemma LeaksOnCancellationOnly(c: RetryConfig, w: World)
    requires forall k: nat :: w.op(k).FailedWith? ==> !w.op(k).open
    ensures (exists k: nat :: Leaked(c, w, k)) <==>
            Loop(c, w, 0, None).Cancelled? && Loop(c, w, 0, None).kept.Some?
    ensures forall j: nat, k: nat | Leaked(c, w, j) && Leaked(c, w, k) :: j == k
  {
    var e := Loop(c, w, 0, None);
    LoopEndsWell(c, w, 0, None);
    if e.Cancelled? && e.kept.Some? {
      LastGotMeans(w, e.attempt);
      assert Leaked(c, w, e.kept.value);
    }
  }

  /**
   Two inputs that leak, with one retry: a retryable response and then a context found cancelled in the wait;
   and a call that brings an open response together with an error, where both bodies stay open.
   */
  lemma LeakingInputs()
    ensures var c := RetryConfig(1, 1, 1, 2.0, Some(map[503 := true]));
            && Validate(c) == None
            && Leaked(c, World(_ => Got(503), _ => false, k => k == 1), 0)
            && Leaked(c, World(_ => FailedWith(502, true), _ => false, _ => false), 0)
            && Leaked(c, World(_ => FailedWith(502, true), _ => false, _ => false), 1)
  {
    var c := RetryConfig(1, 1, 1, 2.0, Some(map[503 := true]));
    var cancelled := World(_ => Got(503), _ => false, k => k == 1);
    assert Loop(c, cancelled, 0, None) == Loop(c, cancelled, 1, Some(0)) == Cancelled(1, Some(0));
    var failing := World(_ => FailedWith(502, true), _ => false, _ => false);
    assert Loop(c, failing, 1, None) == Loop(c, failing, 2, None) == Exhausted(None);
  }

  // Waits

  /** The waits a loop begins follow the backoff, one for each attempt after the first. */
  ghost predicate WaitsFollow(c: RetryConfig, draws: nat -> real, waits: seq<int>) {
    forall i | 0 <= i < |waits| ::
      waits[i] == Delay(c.initialBackoff, c.maxBackoff, c.multiplier, i, draws(i))
  }

  function Itself(x: int): int { x }

  /** Under a valid configuration, all waits together stay within `maxRetries` times the longest. */
  lemma TotalWaitIsBounded(c: RetryConfig, draws: nat -> real, waits: seq<int>)
    requires Validate(c) == None && (forall i: nat :: IsDraw(draws(i)))
    requires WaitsFollow(c, draws, waits) && |waits| <= c.maxRetries
    ensures 0 <= Sum(waits, Itself) <= c.maxRetries * c.maxBackoff
  {
    forall x | x in waits
      ensures 0 <= Itself(x) <= c.maxBackoff
    {
      var i :| 0 <= i < |waits| && waits[i] == x;
      DelayBelowMax(c.initialBackoff, c.maxBackoff, c.multiplier, i, draws(i));
    }
    SumBounds(waits, Itself, 0, c.maxBackoff);
    Widen(|waits|, c.maxRetries, c.maxBackoff);
  }

  lemma DelayBelowMax(initial: int, max: int, m: real, k: nat, u: real)
    requires m >= 1.0 && 0 <= initial <= max && IsDraw(u)
    ensures 0 <= Delay(initial, max, m, k, u) <= max
  {
    DelayBounds(initial, max, m, k, u);
  }

  lemma Widen(n: nat, m: nat, x: nat)
    requires n <= m
    ensures n * x <= m * x
  {
  }

  // The loop on the heap

  /** A body remembers, for the proof, which attempt it came from. */
  class Body {
    ghost const attempt: nat
    var open: bool

    constructor (open: bool, ghost attempt: nat)
      ensures this.open == open && this.attempt == attempt
    {
      this.attempt := attempt;
      this.open := open;
    }

    method Close()
      modifies this
      ensures !open
    {
      open := false;
    }
  }

  class Response {
    const statusCode: int
    const body: Body

    constructor (statusCode: int, open: bool, ghost attempt: nat)
      ensures this.statusCode == statusCode && body.open == open && body.attempt == attempt && fresh(body)
    {
      this.statusCode := statusCode;
      body := new Body(open, attempt);
    }
  }

  /** The attempt whose response the loop still holds when it ends. */
  function Held(e: Ending): Option<nat> {
    match e
    case Returned(k) => Some(k)
    case ReturnedNil(_) => None
    case Cancelled(_, kept) => kept
    case Exhausted(kept) => kept
  }

  ghost predicate OpenAsHeld(w: World, got: map<nat, Response>, held: Option<nat>, k: nat)
    requires k in got
    reads got[k].body
  {
    && got[k].body.attempt == k
    && match w.op(k)
       case Got(status) => got[k].statusCode == status && (got[k].body.open <==> held == Some(k))
       case FailedWith(status, open) => got[k].statusCode == status && got[k].body.open == open
       case _ => false
  }

  /**
   `got` holds a response with its own body for each attempt that gave one. Of those that came without an
   error only that of `held` is open; those that came with an error are as they came.
   */
  ghost predicate OnlyOpen(w: World, got: map<nat, Response>, held: Option<nat>)
    reads set k | k in got :: got[k].body
  {
    && (forall k {:trigger OpenAsHeld(w, got, held, k)} | k in got :: OpenAsHeld(w, got, held, k))
    && (held.Some? ==> held.value in got && w.op(held.value).Got?)
  }

  /** Exhaustion reports the number of retries, one less than the attempts made. */
  datatype DoError = ContextCancelled(attempts: nat) | MaxRetriesExceeded(reported: int)

  function ErrorOf(c: RetryConfig, e: Ending): Option<DoError> {
    match e
    case Returned(_) => None
    case ReturnedNil(_) => None
    case Cancelled(k, _) => Some(ContextCancelled(k))
    case Exhausted(_) => Some(MaxRetriesExceeded(c.maxRetries))
  }

  /** The response held, or null. */
  ghost function HeldResponse(got: map<nat, Response>, held: Option<nat>): Response? {
    if held.Some? && held.value in got then got[held.value] else null
  }

  /** `got` has the responses of the first `n` attempts. */
  ghost predicate Covers(w: World, got: map<nat, Response>, n: nat) {
    forall k: nat :: k in got <==> k < n && (w.op(k).Got? || w.op(k).FailedWith?)
  }

  /**
   One response obtained: the one held before is closed, then the new one is held. At the time of the call
   at most one body was open, and afterwards only the new one is.
   */
  method Replace(w: World, attempt: nat, lastResp: Response?, ghost got: map<nat, Response>, ghost kept: Option<nat>)
    returns (resp: Response, ghost got': map<nat, Response>)
    requires w.op(attempt).Got? && OnlyOpen(w, got, kept) && Covers(w, got, attempt)
    requires lastResp == HeldResponse(got, kept)
    modifies set k | k in got :: got[k].body
    ensures fresh(resp) && fresh(resp.body) && resp.statusCode == w.op(attempt).status
    ensures got' == got[attempt := resp]
    ensures OnlyOpen(w, got', Some(attempt))
  {
    assert lastResp != null ==> OpenAsHeld(w, got, kept, kept.value);
    resp := new Response(w.op(attempt).status, true, attempt);
    if lastResp != null {
      lastResp.body.Close();
    }
    got' := got[attempt := resp];
    forall k | k in got'
      ensures OpenAsHeld(w, got', Some(attempt), k)
    {
      assert k in got ==> old(OpenAsHeld(w, got, kept, k));
    }
  }

  /** The backoff of this configuration, after the waits so far. */
  ghost predicate Paces(c: RetryConfig, draws: nat -> real, backoff: ExponentialBackoff, waits: seq<int>)
    reads backoff
  {
    && backoff.current == c.initialBackoff && backoff.max == c.maxBackoff && backoff.multiplier == c.multiplier
    && backoff.attemptCount == |waits| && WaitsFollow(c, draws, waits)
  }

  /** The checks and the wait before an attempt. */
  method Await(c: RetryConfig, w: World, draws: nat -> real, backoff: ExponentialBackoff, attempt: nat, waits: seq<int>)
    returns (stopped: bool, waits': seq<int>)
    requires Paces(c, draws, backoff, waits)
    modifies backoff
    ensures stopped == Stops(w, attempt) && Paces(c, draws, backoff, waits')
    ensures |waits'| == |waits| + if attempt == 0 || w.cancelledBefore(attempt) then 0 else 1
  {
    waits' := waits;
    if w.cancelledBefore(attempt) {
      return true, waits';
    }
    stopped := false;
    if attempt > 0 {
      var delay := backoff.Next(draws(backoff.attemptCount));
      waits' := waits' + [delay];
      stopped := w.cancelledWaiting(attempt);
    }
  }

  /** Nothing came back: whatever was held is closed. */
  method Release(w: World, lastResp: Response?, ghost got: map<nat, Response>, ghost kept: Option<nat>)
    requires OnlyOpen(w, got, kept) && lastResp == HeldResponse(got, kept)
    modifies set k | k in got :: got[k].body
    ensures OnlyOpen(w, got, None)
  {
    assert lastResp != null ==> OpenAsHeld(w, got, kept, kept.value);
    if lastResp != null {
      lastResp.body.Close();
    }
    forall k | k in got
      ensures OpenAsHeld(w, got, None, k)
    {
      assert old(OpenAsHeld(w, got, kept, k));
    }
  }

  /** A response that came with an error: the loop looks at the error only and lets go of the response. */
  method Drop(w: World, attempt: nat, ghost got: map<nat, Response>, ghost kept: Option<nat>)
    returns (ghost got': map<nat, Response>)
    requires w.op(attempt).FailedWith? && OnlyOpen(w, got, kept) && Covers(w, got, attempt)
    ensures attempt in got' && fresh(got'[attempt].body) && got' == got[attempt := got'[attempt]]
    ensures OnlyOpen(w, got', kept)
  {
    var resp := new Response(w.op(attempt).status, w.op(attempt).open, attempt);
    got' := got[attempt := resp];
    forall k | k in got'
      ensures OpenAsHeld(w, got', kept, k)
    {
      assert k in got ==> old(OpenAsHeld(w, got, kept, k));
    }
  }

  /** One call of the operation and what becomes of the response held. */
  method Call(c: RetryConfig, w: World, attempt: nat, lastResp: Response?, ghost got: map<nat, Response>,
              ghost kept: Option<nat>)
    returns (done: bool, resp: Response?, ghost got': map<nat, Response>, ghost kept': Option<nat>)
    requires OnlyOpen(w, got, kept) && Covers(w, got, attempt) && lastResp == HeldResponse(got, kept)
    modifies set k | k in got :: got[k].body
    ensures done == !Retried(c, w.op(attempt))
    ensures kept' == match w.op(attempt) case NilResponse => None case Got(_) => Some(attempt) case _ => kept
    ensures OnlyOpen(w, got', kept') && Covers(w, got', attempt + 1) && resp == HeldResponse(got', kept')
    ensures forall k | k in got' :: (k in got && got'[k] == got[k]) || fresh(got'[k].body)
  {
    resp, got', kept' := lastResp, got, kept;
    match w.op(attempt)
    case Failed =>
      done := false;
    case FailedWith(status, open) =>
      got' := Drop(w, attempt, got, kept);
      done := false;
    case NilResponse =>
      Release(w, lastResp, got, kept);
      done, resp, kept' := true, null, None;
    case Got(status) =>
      resp, got' := Replace(w, attempt, lastResp, got, kept);
      done, kept' := !Retryable(c, status), Some(attempt);
  }

  /** The response a loop returns. */
  ghost function ReturnedBy(e: Ending, got: map<nat, Response>): Response? {
    if e.Cancelled? then null else HeldResponse(got, Held(e))
  }

  /** One wait between two calls, and one more when it is in a wait that the context is found cancelled. */
  function WaitsBegun(w: World, calls: nat, e: Ending): nat {
    if calls == 0 then 0
    else calls - 1 + if e.Cancelled? && !w.cancelledBefore(calls) then 1 else 0
  }

  /**
   The `j`-th wait is begun exactly when there is an attempt to wait for, everything before it went on, and the
   context was not found cancelled just before.
   */
  lemma WaitsAreBegunExactlyWhen(c: RetryConfig, w: World, j: nat)
    ensures var e := Loop(c, w, 0, None);
            j < WaitsBegun(w, Calls(c, e), e) <==>
              j + 1 <= c.maxRetries && (forall i: nat | i <= j :: GoesOn(c, w, i)) && !w.cancelledBefore(j + 1)
  {
    var e := Loop(c, w, 0, None);
    var n := Calls(c, e);
    GoesOnMeans(c, w);
    LoopEndsWell(c, w, 0, None);
    var gone := if e.Exhausted? then n else e.attempt;
    assert forall i: nat | i < gone :: GoesOn(c, w, i);
    assert !e.Exhausted? ==> !GoesOn(c, w, gone);
    if j + 1 < gone {
      assert GoesOn(c, w, j + 1);
    } else if j >= gone && !e.Exhausted? {
      assert !forall i: nat | i <= j :: GoesOn(c, w, i);
    }
  }

  lemma LeftOpen(c: RetryConfig, w: World, got: map<nat, Response>, k: nat)
    requires var e := Loop(c, w, 0, None);
             k in got && Covers(w, got, Calls(c, e)) && OnlyOpen(w, got, Held(e)) && got[k] != ReturnedBy(e, got)
    ensures got[k].body.open <==> Leaked(c, w, k)
  {
    assert OpenAsHeld(w, got, Held(Loop(c, w, 0, None)), k);
  }

  /**
   The loop ends as `Loop` says. What it returns is the response held at the end; on cancellation it returns
   null all the same. Of all other responses obtained, the bodies left open are those `Leaked` tells.
   */
  method Do(c: RetryConfig, w: World, draws: nat -> real)
    returns (
      resp: Response?, error: Option<DoError>, waits: seq<int>, ghost ending: Ending, ghost got: map<nat, Response>)
    ensures ending == Loop(c, w, 0, None) && error == ErrorOf(c, ending)
    ensures Covers(w, got, Calls(c, ending)) && OnlyOpen(w, got, Held(ending))
    ensures resp == ReturnedBy(ending, got)
    ensures ending.Returned? ==>
              resp != null && w.op(ending.attempt) == Got(resp.statusCode) && resp.body.open
    ensures forall k | k in got && got[k] != resp :: got[k].body.open <==> Leaked(c, w, k)
    ensures WaitsFollow(c, draws, waits) && |waits| == WaitsBegun(w, Calls(c, ending), ending)
    ensures |waits| <= (if c.maxRetries < 0 then 0 else c.maxRetries)
  {
    var backoff := new ExponentialBackoff(c.initialBackoff, c.maxBackoff, c.multiplier);
    ghost var kept: Option<nat> := None;
    resp, waits, got, ending := null, [], map[], Loop(c, w, 0, None);
    error := Some(MaxRetriesExceeded(c.maxRetries));
    var attempt: nat := 0;
    while attempt <= c.maxRetries
      invariant attempt <= if c.maxRetries < 0 then 0 else c.maxRetries + 1
      invariant ending == Loop(c, w, attempt, kept)
      invariant Covers(w, got, attempt) && OnlyOpen(w, got, kept) && resp == HeldResponse(got, kept)
      invariant forall k | k in got :: fresh(got[k].body)
      invariant error == Some(MaxRetriesExceeded(c.maxRetries))
      invariant fresh(backoff) && Paces(c, draws, backoff, waits) && |waits| == if attempt == 0 then 0 else attempt - 1
      decreases c.maxRetries + 1 - attempt
    {
      var stopped;
      stopped, waits := Await(c, w, draws, backoff, attempt, waits);
      if stopped {
        resp, error := null, Some(ContextCancelled(attempt));
        break;
      }
      var done;
      done, resp, got, kept := Call(c, w, attempt, resp, got, kept);
      if done {
        error := None;
        break;
      }
      attempt := attempt + 1;
    }
    if ending.Returned? {
      assert OpenAsHeld(w, got, Held(ending), ending.attempt);
    }
    forall k | k in got && got[k] != resp
      ensures got[k].body.open <==> Leaked(c, w, k)
    {
      LeftOpen(c, w, got, k);
    }
  }
}
