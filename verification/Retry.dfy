/** Bounded retry with one start identity (src/retry.ts, src/runtime.ts:1317-1399). */
module Retry {
  import opened Options

  /** Times are milliseconds; a policy satisfies `validatePolicy` (src/retry.ts:261-276). */
  datatype Policy = Policy(
    maximumAttempts: nat,
    maximumElapsed: real,
    initialDelay: real,
    multiplier: real,
    maximumDelay: real,
    jitter: real,
    maximumRetryAfter: real)

  predicate Validated(p: Policy) {
    && p.maximumAttempts >= 1 && p.maximumElapsed >= 0.0 && p.initialDelay >= 0.0 && p.multiplier >= 1.0
    && p.maximumDelay >= 0.0 && 0.0 <= p.jitter <= 1.0 && p.maximumRetryAfter >= 0.0
  }

  function Power(base: real, n: nat): real { if n == 0 then 1.0 else base * Power(base, n - 1) }

  function Min(a: real, b: real): real { if a <= b then a else b }

  function Max(a: real, b: real): real { if a >= b then a else b }

  /** The least whole number that is not below. */
  function Ceiling(x: real): (r: real)
    ensures x <= r < x + 1.0
  {
    -((-x).Floor as real)
  }

  lemma {:induction false} CeilingMonotone(x: real, y: real)
    requires x <= y
    ensures Ceiling(x) <= Ceiling(y)
  {
    assert (-y).Floor <= (-x).Floor;
  }

  function Exponential(p: Policy, failed: nat): real
    requires failed >= 1
  {
    Min(p.maximumDelay, p.initialDelay * Power(p.multiplier, failed - 1))
  }

  function CappedHint(p: Policy, hint: Option<real>): real {
    if hint.None? then 0.0 else Min(p.maximumRetryAfter, Max(0.0, hint.value))
  }

  /** A wait moved by a share of its jitter. */
  function Shifted(wait: real, shift: real, jitter: real): real { wait * (1.0 + shift * jitter) }

  function Part(wait: real, jitter: real): real { jitter * wait }

  /** The exponential delay spread around itself by the jitter. */
  function Spread(p: Policy, failed: nat, random: real): real
    requires failed >= 1
  {
    Shifted(Exponential(p, failed), random * 2.0 - 1.0, p.jitter)
  }

  function Clipped(p: Policy, spread: real, hint: Option<real>): real {
    Ceiling(Max(Max(0.0, Min(p.maximumDelay, spread)), CappedHint(p, hint)))
  }

  /** `retryDelay` (src/retry.ts:228-259); none when the random source is out of range. */
  function RetryDelay(p: Policy, failed: nat, random: real, hint: Option<real>): (r: Option<real>)
    requires failed >= 1
    ensures r.None? <==> random < 0.0 || 1.0 <= random
  {
    if !(0.0 <= random < 1.0) then None else Some(Clipped(p, Spread(p, failed, random), hint))
  }

  lemma {:induction false} ClippedBounds(p: Policy, spread: real, hint: Option<real>)
    requires Validated(p)
    ensures 0.0 <= CappedHint(p, hint) <= Clipped(p, spread, hint) <= Ceiling(Max(p.maximumDelay, p.maximumRetryAfter))
  {
    var clipped := Max(Max(0.0, Min(p.maximumDelay, spread)), CappedHint(p, hint));
    CeilingMonotone(clipped, Max(p.maximumDelay, p.maximumRetryAfter));
  }

  /** A delay is at least the capped hint and at most the ceiling of the larger cap. */
  lemma {:induction false} DelayBounds(p: Policy, failed: nat, random: real, hint: Option<real>)
    requires Validated(p) && failed >= 1 && RetryDelay(p, failed, random, hint).Some?
    ensures 0.0 <= CappedHint(p, hint) <= RetryDelay(p, failed, random, hint).value
    ensures RetryDelay(p, failed, random, hint).value <= Ceiling(Max(p.maximumDelay, p.maximumRetryAfter))
  {
    ClippedBounds(p, Spread(p, failed, random), hint);
  }

  /** A delay respects a server's hint as far as the policy lets it. */
  lemma {:induction false} HintIsHonoured(p: Policy, failed: nat, random: real, hint: real)
    requires Validated(p) && failed >= 1 && RetryDelay(p, failed, random, Some(hint)).Some?
    ensures var delay := RetryDelay(p, failed, random, Some(hint)).value;
            if hint <= p.maximumRetryAfter then delay >= hint else delay >= p.maximumRetryAfter
  {
    DelayBounds(p, failed, random, Some(hint));
  }

  lemma {:induction false} NotNegative(x: real, y: real)
    requires x >= 0.0 && y >= 0.0
    ensures x * y >= 0.0
  {}

  lemma {:induction false} Scaled(m: real, x: real)
    requires m >= 1.0 && x >= 0.0
    ensures m * x >= x
  {
    NotNegative(m - 1.0, x);
    assert (m - 1.0) * x == m * x - x;
  }

  /** The uncapped wait, whose factors the proofs about it keep apart. */
  function Uncapped(p: Policy, failed: nat): real
    requires failed >= 1
  {
    p.initialDelay * Power(p.multiplier, failed - 1)
  }

  lemma {:induction false} UncappedMultiplies(p: Policy, failed: nat)
    requires failed >= 1
    ensures Uncapped(p, failed + 1) == p.multiplier * Uncapped(p, failed) && Uncapped(p, 1) == p.initialDelay
  {
    var i, m, q := p.initialDelay, p.multiplier, Power(p.multiplier, failed - 1);
    assert Power(m, failed) == m * q && Power(m, 0) == 1.0;
    assert i * (m * q) == (i * m) * q == (m * i) * q == m * (i * q);
  }

  lemma {:induction false} UncappedIsPositive(p: Policy, failed: nat)
    requires Validated(p) && failed >= 1
    ensures Uncapped(p, failed) >= 0.0 && Exponential(p, failed) == Min(p.maximumDelay, Uncapped(p, failed))
  {
    PowerAtLeastOne(p.multiplier, failed - 1);
    NotNegative(p.initialDelay, Power(p.multiplier, failed - 1));
  }

  lemma {:induction false} MinScaled(cap: real, m: real, now: real)
    requires m >= 1.0 && cap >= 0.0 && now >= 0.0
    ensures Min(cap, m * now) == Min(cap, m * Min(cap, now))
  {
    Scaled(m, now);
    Scaled(m, cap);
  }

  /** The exponential wait starts at the initial delay and is multiplied each time, up to the maximum. */
  lemma {:induction false} WaitsMultiply(p: Policy, failed: nat)
    requires Validated(p) && failed >= 1
    ensures Exponential(p, 1) == Min(p.maximumDelay, p.initialDelay)
    ensures Exponential(p, failed + 1) == Min(p.maximumDelay, p.multiplier * Exponential(p, failed))
  {
    UncappedMultiplies(p, failed);
    UncappedIsPositive(p, 1);
    UncappedIsPositive(p, failed);
    UncappedIsPositive(p, failed + 1);
    MinScaled(p.maximumDelay, p.multiplier, Uncapped(p, failed));
  }

  lemma {:induction false} CeilingIsWhole(x: real)
    ensures Whole(Ceiling(x))
  {
    var k: int := -((-x).Floor);
    assert Ceiling(x) == k as real;
  }

  ghost predicate Whole(x: real) { exists k: int {:trigger k as real} :: x == k as real }

  lemma {:induction false} NoHint(p: Policy, failed: nat, random: real)
    requires failed >= 1 && 0.0 <= random < 1.0
    ensures RetryDelay(p, failed, random, None) ==
            Some(Ceiling(Max(0.0, Min(p.maximumDelay, Spread(p, failed, random)))))
  {}

  /** How far the jitter moves a wait to either side. */
  function Side(p: Policy, failed: nat): real
    requires failed >= 1
  {
    Part(Exponential(p, failed), p.jitter)
  }

  lemma {:induction false} SpreadIsWithin(p: Policy, failed: nat, random: real)
    requires Validated(p) && failed >= 1 && 0.0 <= random < 1.0
    ensures var wait, spread := Exponential(p, failed), Spread(p, failed, random);
            && 0.0 <= wait - Side(p, failed) <= spread <= wait + Side(p, failed)
            && (random == 0.5 || p.jitter == 0.0 ==> spread == wait)
  {
    WaitIsWithin(p, failed);
    ShiftBounds(Exponential(p, failed), random * 2.0 - 1.0, p.jitter);
  }

  /**
   * Without a hint the delay is a whole number, at most one above the exponential wait spread by the jitter to
   * either side and kept within the maximum; without jitter it is the wait rounded up.
   */
  lemma {:induction false} DelayIsSpread(p: Policy, failed: nat, random: real)
    requires Validated(p) && failed >= 1 && 0.0 <= random < 1.0
    ensures var wait, delay := Exponential(p, failed), RetryDelay(p, failed, random, None);
            && delay.Some? && Whole(delay.value)
            && wait - Side(p, failed) <= delay.value < Min(p.maximumDelay, wait + Side(p, failed)) + 1.0
            && (random == 0.5 || p.jitter == 0.0 ==> wait <= delay.value < wait + 1.0)
  {
    var wait := Exponential(p, failed);
    WaitIsWithin(p, failed);
    SpreadIsWithin(p, failed, random);
    NoHint(p, failed, random);
    CeilingIsWhole(Max(0.0, Min(p.maximumDelay, Spread(p, failed, random))));
    Rounded(wait, Side(p, failed), p.maximumDelay, Spread(p, failed, random));
  }

  lemma {:induction false} Rounded(wait: real, side: real, cap: real, spread: real)
    requires 0.0 <= wait <= cap && 0.0 <= wait - side <= spread <= wait + side
    ensures var delay := Ceiling(Max(0.0, Min(cap, spread)));
            && wait - side <= delay < Min(cap, wait + side) + 1.0
            && (spread == wait ==> wait <= delay < wait + 1.0)
  {}

  lemma {:induction false} WaitIsWithin(p: Policy, failed: nat)
    requires Validated(p) && failed >= 1
    ensures 0.0 <= Exponential(p, failed) <= p.maximumDelay
  {
    UncappedIsPositive(p, failed);
  }

  lemma {:induction false} ShiftBounds(wait: real, shift: real, jitter: real)
    requires wait >= 0.0 && -1.0 <= shift <= 1.0 && 0.0 <= jitter <= 1.0
    ensures var side, shifted := Part(wait, jitter), Shifted(wait, shift, jitter);
            && 0.0 <= wait - side <= shifted <= wait + side
            && (shift == 0.0 || jitter == 0.0 ==> shifted == wait)
  {
    var f := shift * jitter;
    NotNegative(shift + 1.0, jitter);
    assert (shift + 1.0) * jitter == f + jitter;
    NotNegative(1.0 - shift, jitter);
    assert (1.0 - shift) * jitter == jitter - f;
    NotNegative(wait, f + jitter);
    assert wait * (f + jitter) == wait * f + wait * jitter;
    NotNegative(wait, jitter - f);
    assert wait * (jitter - f) == wait * jitter - wait * f;
    NotNegative(wait, 1.0 - jitter);
    assert wait * (1.0 - jitter) == wait - wait * jitter;
    assert wait * (1.0 + f) == wait + wait * f;
  }

  lemma {:induction false} PowerAtLeastOne(base: real, n: nat)
    requires base >= 1.0
    ensures Power(base, n) >= 1.0
  {
    if n > 0 {
      PowerAtLeastOne(base, n - 1);
      assert base * Power(base, n - 1) >= base * 1.0;
    }
  }

  /** Before jitter and hints, waits never get shorter. */
  lemma {:induction false} BackoffNeverShrinks(p: Policy, failed: nat)
    requires Validated(p) && failed >= 1
    ensures Exponential(p, failed) <= Exponential(p, failed + 1)
  {
    var now := Power(p.multiplier, failed - 1);
    PowerAtLeastOne(p.multiplier, failed - 1);
    assert Power(p.multiplier, failed) == p.multiplier * now >= now;
    assert p.initialDelay * Power(p.multiplier, failed) >= p.initialDelay * now;
  }

  function Sum(delays: seq<real>): real {
    if delays == [] then 0.0 else Sum(delays[..|delays| - 1]) + delays[|delays| - 1]
  }

  // ---------------------------------------------------------------- starting a turn

  /** What a start sends: the turn's fixed identities and the request as it was prepared. */
  datatype Input = Input(turn: nat, mutation: nat, idempotencyKey: nat, request: nat)

  /** A start is accepted when the transport returns a handle that matches its identities. */
  datatype Call = Start(input: Input, accepted: bool) | Resume(handle: nat)

  datatype Attempt = Succeeded | Failed(retryable: bool, hint: Option<real>) | Stopped

  predicate Settles(call: Call) { call.Resume? || call.accepted }

  /** Every start carries the same input, and none follows an accepted start or a resume. */
  ghost predicate OneIdentity(calls: seq<Call>, turn: nat, mutation: nat, key: nat) {
    && (forall i :: 0 <= i < |calls| && calls[i].Start? ==>
          calls[i].input.turn == turn && calls[i].input.mutation == mutation && calls[i].input.idempotencyKey == key)
    && (forall i, j :: 0 <= i < j < |calls| && calls[i].Start? && calls[j].Start? ==> calls[i].input == calls[j].input)
    && (forall i, j :: 0 <= i < j < |calls| && Settles(calls[i]) ==> calls[j].Resume?)
  }

  lemma {:induction false} OneMoreCall(calls: seq<Call>, turn: nat, mutation: nat, key: nat, call: Call)
    requires OneIdentity(calls, turn, mutation, key)
    requires call.Start? ==>
               && call.input.turn == turn && call.input.mutation == mutation && call.input.idempotencyKey == key
               && forall i :: 0 <= i < |calls| ==> calls[i].Start? && !Settles(calls[i]) && calls[i].input == call.input
    ensures OneIdentity(calls + [call], turn, mutation, key)
  {}

  class PersistedTurn {
    const turn: nat
    const mutation: nat
    const idempotencyKey: nat
    var transportTurn: Option<nat>
    var prepared: Option<Input>
    ghost var calls: seq<Call>

    ghost predicate Valid() reads this {
      && OneIdentity(calls, turn, mutation, idempotencyKey)
      && (forall i :: 0 <= i < |calls| && Settles(calls[i]) ==> transportTurn.Some?)
      && (forall i :: 0 <= i < |calls| && calls[i].Start? ==> prepared == Some(calls[i].input))
      && (prepared.Some? ==> prepared.value == Input(turn, mutation, idempotencyKey, prepared.value.request))
    }

    constructor (turn: nat, mutation: nat, key: nat, handle: Option<nat>)
      ensures Valid() && calls == [] && transportTurn == handle
    {
      this.turn, this.mutation, idempotencyKey := turn, mutation, key;
      transportTurn, prepared, calls := handle, None, [];
    }

    /** Events of any runtime may name a handle, which replaces the known one (src/runtime.ts:2728-2738). */
    method CatchUp()
      requires Valid()
      modifies this`transportTurn
      ensures Valid()
      ensures old(transportTurn).Some? ==> transportTurn.Some?
    {
      var named: Option<nat> := *;
      if named.Some? { transportTurn := named; }
    }

    /**
     * One attempt of `startPersistedTurn` (src/runtime.ts:1327-1398), whatever the transport answers. Events
     * are caught up while the request is prepared and while the response is observed; an abort signal may
     * stop the attempt before it calls.
     */
    method Try() returns (outcome: Attempt)
      requires Valid()
      modifies this
      ensures Valid()
      ensures calls == old(calls) || exists call :: calls == old(calls) + [call]
      ensures outcome.Stopped? <==> calls == old(calls)
      ensures old(transportTurn).Some? ==>
                transportTurn.Some? && calls == old(calls) + [Resume(old(transportTurn).value)]
    {
      var accepted: bool, matches: bool, stopped: bool := *, *, *;
      if transportTurn.Some? {
        OneMoreCall(calls, turn, mutation, idempotencyKey, Resume(transportTurn.value));
        calls := calls + [Resume(transportTurn.value)];
        CatchUp();
        outcome := Answer();
        return;
      }
      if prepared.None? {
        var request: nat := *;
        prepared := Some(Input(turn, mutation, idempotencyKey, request));
        CatchUp();
      }
      if stopped { return Stopped; }
      var handle: nat := *;
      OneMoreCall(calls, turn, mutation, idempotencyKey, Start(prepared.value, accepted && matches));
      calls := calls + [Start(prepared.value, accepted && matches)];
      if accepted && matches { transportTurn := Some(handle); }
      CatchUp();
      if accepted && !matches { return Succeeded; }
      outcome := Answer();
    }
  }

  /** What the transport's answer and the observation come to. */
  method Answer() returns (outcome: Attempt)
    ensures !outcome.Stopped?
  {
    var ok: bool, retryable: bool, hint: Option<real> := *, *, *;
    outcome := if ok then Succeeded else Failed(retryable, hint);
  }

  datatype Result = Done | NonRetryable | MaximumAttempts | MaximumElapsed | Aborted | BadRandom

  /** A delay that the policy may choose after so many failures. */
  ghost predicate DelayAfter(p: Policy, failed: nat, hint: Option<real>, delay: real)
    requires failed >= 1
  {
    exists random: real {:trigger RetryDelay(p, failed, random, hint)} ::
      RetryDelay(p, failed, random, hint) == Some(delay)
  }

  /** Between two attempts stands a retryable failure and a delay of the policy for it. */
  ghost predicate Waited(p: Policy, outcomes: seq<Attempt>, delays: seq<real>) {
    && |delays| <= |outcomes|
    && forall i :: 0 <= i < |delays| ==>
         outcomes[i].Failed? && outcomes[i].retryable && DelayAfter(p, i + 1, outcomes[i].hint, delays[i])
  }

  /** The next delay would not fit into the elapsed time. */
  ghost predicate NoTimeLeft(p: Policy, failed: nat, hint: Option<real>, elapsed: real)
    requires failed >= 1
  {
    || elapsed >= p.maximumElapsed
    || exists delay :: DelayAfter(p, failed, hint, delay) && elapsed + delay > p.maximumElapsed
  }

  /** The reason why the last attempt was the last. */
  ghost predicate Explains(p: Policy, result: Result, outcomes: seq<Attempt>, elapsed: real) {
    var attempts := |outcomes|;
    && (result == Done ==> attempts > 0 && outcomes[attempts - 1].Succeeded?)
    && (result == NonRetryable ==>
          attempts > 0 && outcomes[attempts - 1].Failed? && !outcomes[attempts - 1].retryable)
    && (result == MaximumAttempts ==>
          && attempts == p.maximumAttempts > 0
          && outcomes[attempts - 1].Failed? && outcomes[attempts - 1].retryable)
    && (result == MaximumElapsed ==>
          && attempts > 0 && outcomes[attempts - 1].Failed? && outcomes[attempts - 1].retryable
          && NoTimeLeft(p, attempts, outcomes[attempts - 1].hint, elapsed))
  }

  ghost predicate Bounded(p: Policy, delays: seq<real>) {
    forall i :: 0 <= i < |delays| ==> 0.0 <= delays[i] <= Ceiling(Max(p.maximumDelay, p.maximumRetryAfter))
  }

  /** Attempts, delays and elapsed time are within the policy. */
  ghost predicate Within(p: Policy, attempts: nat, delays: seq<real>, outcomes: seq<Attempt>, elapsed: real) {
    && |outcomes| == attempts <= p.maximumAttempts && Waited(p, outcomes, delays) && Bounded(p, delays)
    && 0.0 <= Sum(delays) <= p.maximumElapsed && Sum(delays) <= elapsed
  }

  lemma {:induction false} OneMoreOutcome(
    p: Policy, attempts: nat, delays: seq<real>, outcomes: seq<Attempt>, elapsed: real, outcome: Attempt, passed: real)
    requires Within(p, attempts, delays, outcomes, elapsed) && attempts < p.maximumAttempts && Sum(delays) <= passed
    ensures Within(p, attempts + 1, delays, outcomes + [outcome], passed)
  {}

  lemma {:induction false} OneMoreDelay(
    p: Policy, attempts: nat, delays: seq<real>, outcomes: seq<Attempt>, elapsed: real, delay: real)
    requires Within(p, attempts, delays, outcomes, elapsed) && attempts == |delays| + 1
    requires var last := outcomes[|delays|];
             last.Failed? && last.retryable && DelayAfter(p, attempts, last.hint, delay)
    requires 0.0 <= delay <= Ceiling(Max(p.maximumDelay, p.maximumRetryAfter)) && elapsed + delay <= p.maximumElapsed
    ensures Within(p, attempts, delays + [delay], outcomes, elapsed + delay)
    ensures Sum(delays + [delay]) == Sum(delays) + delay
  {
    assert (delays + [delay])[..|delays|] == delays;
  }

  /** Events are caught up and an attempt is made. */
  method Attempted(t: PersistedTurn) returns (outcome: Attempt)
    requires t.Valid()
    modifies t
    ensures t.Valid() && |t.calls| == |old(t.calls)| + if outcome.Stopped? then 0 else 1
  {
    t.CatchUp();
    outcome := t.Try();
  }

  /**
   * `executeWithRetry` (src/retry.ts:134-226) around the attempts of one turn. The clock is monotone and
   * sleeping advances it by at least the delay; attempts and delays stay within the policy however the
   * transport, the clock, the random source and the abort signal behave.
   */
  method ExecuteWithRetry(t: PersistedTurn, p: Policy)
    returns (result: Result, attempts: nat, delays: seq<real>, ghost outcomes: seq<Attempt>, ghost elapsed: real)
    requires t.Valid() && t.calls == [] && Validated(p)
    modifies t
    ensures t.Valid() && |t.calls| <= attempts && (result != Aborted ==> |t.calls| == attempts)
    ensures Within(p, attempts, delays, outcomes, elapsed) && Explains(p, result, outcomes, elapsed)
    ensures result != Aborted && result != BadRandom ==> attempts == |delays| + 1
  {
    var startedAt: real := *;
    var clock := startedAt;
    attempts, delays, outcomes, elapsed := 0, [], [], 0.0;
    var end: Option<Result> := None;
    while end.None?
      invariant t.Valid() && |t.calls| <= attempts && (end != Some(Aborted) ==> |t.calls| == attempts)
      invariant Within(p, attempts, delays, outcomes, elapsed) && startedAt + Sum(delays) <= clock
      invariant end.None? ==> attempts == |delays| < p.maximumAttempts
      invariant end.Some? ==> Explains(p, end.value, outcomes, elapsed)
      invariant end.Some? && end != Some(Aborted) && end != Some(BadRandom) ==> attempts == |delays| + 1
      decreases p.maximumAttempts - attempts, end.None?
    {
      var aborted: bool := *;
      if aborted {
        end := Some(Aborted);
      } else {
        var outcome := Attempted(t);
        end, attempts, delays, clock, outcomes, elapsed :=
          Concluded(p, startedAt, clock, attempts, delays, outcome, outcomes, elapsed);
      }
    }
    result := end.value;
  }

  /** What an attempt leads to: the end, or a delay and a later reading of the clock. */
  method Concluded(
    p: Policy, startedAt: real, clock: real, attempts: nat, delays: seq<real>, outcome: Attempt,
    ghost outcomes: seq<Attempt>, ghost elapsed: real)
    returns (end: Option<Result>, tried: nat, waits: seq<real>, now: real, ghost all: seq<Attempt>, ghost passed: real)
    requires Validated(p) && attempts == |delays| < p.maximumAttempts
    requires Within(p, attempts, delays, outcomes, elapsed) && startedAt + Sum(delays) <= clock
    ensures tried == attempts + 1 && all == outcomes + [outcome]
    ensures Within(p, tried, waits, all, passed) && startedAt + Sum(waits) <= now
    ensures end.None? ==> tried == |waits| < p.maximumAttempts
    ensures outcome.Stopped? ==> end == Some(Aborted)
    ensures end.Some? ==> Explains(p, end.value, all, passed)
    ensures end.Some? && end != Some(Aborted) && end != Some(BadRandom) ==> tried == |waits| + 1
  {
    now := Later(clock);
    var time := Since(startedAt, now);
    OneMoreOutcome(p, attempts, delays, outcomes, elapsed, outcome, time);
    tried, waits, all, passed := attempts + 1, delays, outcomes + [outcome], time;
    if outcome.Stopped? { end := Some(Aborted); return; }
    var delay;
    end, delay := Decide(p, tried, outcome, time);
    if end.Some? {
      EndIsExplained(p, end.value, outcomes, outcome, time);
      return;
    }
    OneMoreDelay(p, tried, delays, all, passed, delay);
    waits, passed := delays + [delay], passed + delay;
    var aborted: bool := *;
    if aborted { end := Some(Aborted); }
    now := Later(now + delay);
  }

  method Since(startedAt: real, clock: real) returns (passed: real)
    requires startedAt <= clock
    ensures passed == clock - startedAt
  {
    passed := Max(0.0, clock - startedAt);
  }

  /** Why an attempt is the last one, if it is. */
  ghost predicate Ends(p: Policy, result: Result, attempt: nat, outcome: Attempt, passed: real)
    requires attempt >= 1
  {
    && result != Aborted
    && (result == Done <==> outcome.Succeeded?)
    && (result == NonRetryable <==> outcome.Failed? && !outcome.retryable)
    && (result == MaximumAttempts <==> outcome.Failed? && outcome.retryable && attempt == p.maximumAttempts)
    && (result == MaximumElapsed ==>
          && outcome.Failed? && outcome.retryable && attempt < p.maximumAttempts
          && NoTimeLeft(p, attempt, outcome.hint, passed))
  }

  lemma {:induction false} EndIsExplained(
    p: Policy, result: Result, outcomes: seq<Attempt>, outcome: Attempt, passed: real)
    requires Validated(p) && Ends(p, result, |outcomes| + 1, outcome, passed)
    ensures Explains(p, result, outcomes + [outcome], passed)
  {}

  /** After an attempt: the result if it was the last, or the delay before the next. */
  method Decide(p: Policy, attempt: nat, outcome: Attempt, passed: real) returns (end: Option<Result>, delay: real)
    requires Validated(p) && 1 <= attempt <= p.maximumAttempts && !outcome.Stopped?
    ensures end.None? ==>
              && outcome.Failed? && outcome.retryable && attempt < p.maximumAttempts
              && DelayAfter(p, attempt, outcome.hint, delay) && passed + delay <= p.maximumElapsed
              && 0.0 <= delay <= Ceiling(Max(p.maximumDelay, p.maximumRetryAfter))
    ensures end.Some? ==> Ends(p, end.value, attempt, outcome, passed)
  {
    end, delay := None, 0.0;
    if outcome.Succeeded? { return Some(Done), delay; }
    if !outcome.retryable { return Some(NonRetryable), delay; }
    if attempt >= p.maximumAttempts { return Some(MaximumAttempts), delay; }
    var random: real := *;
    var next := RetryDelay(p, attempt, random, outcome.hint);
    if next.None? { return Some(BadRandom), delay; }
    delay := next.value;
    DelayBounds(p, attempt, random, outcome.hint);
    assert DelayAfter(p, attempt, outcome.hint, delay);
    if passed >= p.maximumElapsed || delay > p.maximumElapsed - passed { return Some(MaximumElapsed), delay; }
  }

  /** A later reading of a monotone clock. */
  method Later(clock: real) returns (now: real)
    ensures now >= clock
  {
    var passed: real := *;
    now := if passed >= 0.0 then clock + passed else clock;
  }
}
