/** Retrying model calls: which errors are worth it, how long to wait, and how often to call.

    Durations are nanoseconds in signed 64-bit integers; the exponential step is a left shift that wraps.
 */
module Retry {
  import opened Bytes

  const TWO63 := 0x8000_0000_0000_0000
  const TWO64 := 0x1_0000_0000_0000_0000
  const MILLISECOND := 1_000_000

  // ---- errors ----

  /** What an error is or wraps. */
  datatype Tag =
    | Canceled | DeadlineExceeded
    | CloudNotAllowed | AuthFailed | ModelNotFound | CapabilityUnsupported
    | RateLimited | ProviderUnavailable
    | NetError | Eof | UnexpectedEof | OpError | SyscallError

  /** A failed call; retryAfter is the server's hint, zero without one. */
  datatype CallError = CallError(tags: set<Tag>, retryAfter: int)

  predicate IsRetryable(e: CallError) {
    if Canceled in e.tags || DeadlineExceeded in e.tags then false
    else if CloudNotAllowed in e.tags || AuthFailed in e.tags then false
    else if ModelNotFound in e.tags || CapabilityUnsupported in e.tags then false
    else if RateLimited in e.tags || ProviderUnavailable in e.tags then true
    else if NetError in e.tags then true
    else if Eof in e.tags || UnexpectedEof in e.tags then true
    else OpError in e.tags || SyscallError in e.tags
  }

  const PERMANENT: set<Tag> := {Canceled, DeadlineExceeded, CloudNotAllowed, AuthFailed, ModelNotFound,
      CapabilityUnsupported}
  const TRANSIENT: set<Tag> := {RateLimited, ProviderUnavailable, NetError, Eof, UnexpectedEof, OpError, SyscallError}

  /** Retryable means transient in some respect and permanent in none, however errors are wrapped. */
  lemma RetryableExactly(e: CallError)
    ensures IsRetryable(e) <==> e.tags * PERMANENT == {} && e.tags * TRANSIENT != {}
  {
    forall t | t in PERMANENT ensures t in e.tags <==> t in e.tags * PERMANENT {}
    forall t | t in TRANSIENT ensures t in e.tags <==> t in e.tags * TRANSIENT {}
    if e.tags * TRANSIENT != {} {
      var t :| t in e.tags * TRANSIENT;
    }
    if e.tags * PERMANENT != {} {
      var t :| t in e.tags * PERMANENT;
    }
  }

  // ---- backoff ----

  function Pow2(n: nat): (r: nat)
    ensures r > 0
  {
    if n == 0 then 1 else 2 * Pow2(n - 1)
  }

  /** Two's-complement 64-bit value of an integer. */
  function Signed(x: int): int { (x + TWO63) % TWO64 - TWO63 }

  /** base << k in 64 bits; for k of 64 and more nothing is left of it. */
  function Shift(base: int, k: nat): int { Signed(base * Pow2(k)) }

  function Clamp(d: int, max: int): int { if d > max || d <= 0 then max else d }

  function Min(a: int, b: int): int { if a < b then a else b }

  /** The delay before an attempt; `random` is the draw of the library's generator. */
  function Backoff(base: int, max: int, attempt: nat, random: nat): int
    requires attempt >= 1 && max > 0
  {
    var d := Clamp(Shift(base, attempt - 1), max);
    d / 2 + random % (d / 4 + 1)
  }

  lemma {:induction false} Pow2Sum(a: nat, b: nat)
    ensures Pow2(a + b) == Pow2(a) * Pow2(b)
  {
    if a > 0 {
      Pow2Sum(a - 1, b);
      assert Pow2(a + b) == 2 * Pow2(a - 1 + b) && Pow2(a) == 2 * Pow2(a - 1);
      hide Pow2;
      Reassociate(2, Pow2(a - 1), Pow2(b));
    }
  }

  lemma Pow2Twice(k: nat, p: nat)
    requires Pow2(k) == p
    ensures Pow2(2 * k) == p * p
  {
    Pow2Sum(k, k);
  }

  lemma Pow2Of64()
    ensures Pow2(64) == TWO64
  {
    assert Pow2(1) == 2 * Pow2(0) == 2;
    hide Pow2;
    Pow2Twice(1, 2);
    Pow2Twice(2, 4);
    Pow2Twice(4, 0x10);
    Pow2Twice(8, 0x100);
    Pow2Twice(16, 0x1_0000);
    Pow2Twice(32, 0x1_0000_0000);
  }

  lemma SignedQuotient(x: int) returns (q: int)
    ensures Signed(x) == x - q * TWO64 && -TWO63 <= Signed(x) < TWO63
    ensures -TWO63 <= x < TWO63 ==> q == 0
  {
    q := (x + TWO63) / TWO64;
  }

  /** A shifted value, overflowed or not, is a multiple of the power it was shifted by. */
  lemma ShiftMultiple(base: int, k: nat) returns (m: int)
    ensures k <= 64 ==> Shift(base, k) == m * Pow2(k)
    ensures k > 64 ==> Shift(base, k) == 0
  {
    var q := SignedQuotient(base * Pow2(k));
    Pow2Of64();
    if k <= 64 {
      Pow2Sum(64 - k, k);
      m := base - q * Pow2(64 - k);
      Distribute(base, q, Pow2(64 - k), Pow2(k));
    } else {
      Pow2Sum(k - 64, 64);
      var n := base * Pow2(k - 64) - q;
      Distribute2(base, Pow2(k - 64), q);
      assert Shift(base, k) == n * TWO64;
      OnlyZeroFits(n);
      m := 0;
    }
  }

  lemma Distribute(base: int, q: int, a: int, p: int)
    ensures base * p - q * (a * p) == (base - q * a) * p
  {
  }

  lemma Distribute2(base: int, p: int, q: int)
    ensures base * (p * TWO64) - q * TWO64 == (base * p - q) * TWO64
  {
  }

  lemma OnlyZeroFits(n: int)
    requires -TWO63 <= n * TWO64 < TWO63
    ensures n == 0
  {
  }

  lemma Cancel(base: int, a: int, b: int)
    requires base > 0 && base * a < base * b
    ensures a < b
  {
    assert a >= b ==> base * a >= base * b;
  }

  /** A value that is clamped anyway, as long as it is not a small positive one. */
  lemma ClampedAnyway(w: int, max: int)
    requires w <= 0 || w >= max
    ensures Clamp(w, max) == max
  {
  }

  lemma Least(a: int, b: int)
    requires a > 0 && b > 0
    ensures b <= a * b
  {
  }

  /** Where base and maximum have a product of less than 63 bits, the clamped shift is the exact exponential delay,
      even on attempts where the shift overflows. */
  lemma ClampIsExact(base: int, max: int, k: nat)
    requires base > 0 && max > 0 && base * max < TWO63
    ensures Clamp(Shift(base, k), max) == Min(base * Pow2(k), max)
  {
    var p, x, w := Pow2(k), base * Pow2(k), Shift(base, k);
    var q := SignedQuotient(x);
    Positive(base, p);
    Least(base, max);
    if x < TWO63 {
      assert w == x;
    } else {
      if w > 0 {
        Cancel(base, max, p);
        var m := ShiftMultiple(base, k);
        hide Pow2, Shift;
        AtLeastOne(m, p);
      }
      hide Pow2, Shift, Clamp;
      ClampedAnyway(w, max);
    }
  }

  /** A shift of a shift. */
  lemma ShiftTwice(o: int, v: nat, k: nat)
    ensures Shift(o * Pow2(v), k) == Shift(o, v + k) && o * Pow2(v) * Pow2(k) == o * Pow2(v + k)
  {
    Pow2Sum(v, k);
    hide Pow2;
    Reassociate(o, Pow2(v), Pow2(k));
  }

  lemma Reassociate(a: int, b: int, c: int)
    ensures a * b * c == a * (b * c)
  {
  }

  lemma JitterBounds(d: int, random: nat)
    requires d > 0
    ensures d / 2 <= d / 2 + random % (d / 4 + 1) <= d / 2 + d / 4
  {
  }

  /** For positive settings the clamped shift is the exact exponential delay if the product of the maximum and the
      base without its factors of two fits in 63 bits. */
  lemma BackoffIsExact(o: int, v: nat, max: int, attempt: nat, random: nat)
    requires o > 0 && max > 0 && o * max < TWO63 && attempt >= 1
    ensures var base := o * Pow2(v);
            var d := Min(base * Pow2(attempt - 1), max);
            && Clamp(Shift(base, attempt - 1), max) == d
            && d / 2 <= Backoff(base, max, attempt, random) <= d / 2 + d / 4
  {
    ClampIsExact(o, max, v + attempt - 1);
    ShiftTwice(o, v, attempt - 1);
    Positive(o, Pow2(v + attempt - 1));
    hide Pow2, Shift, Clamp;
    JitterBounds(Min(o * Pow2(v + attempt - 1), max), random);
  }

  lemma Positive(a: int, b: int)
    requires a > 0 && b > 0
    ensures a * b > 0
  {
  }

  lemma AtLeastOne(m: int, p: int)
    requires p > 0 && m * p > 0
    ensures m * p >= p
  {
    assert m <= 0 ==> m * p <= 0;
  }

  /** For any positive settings the clamp is right exactly when the shift did not overflow,
      or overflowed to something that is clamped anyway. */
  lemma ClampIsRightExactly(base: int, max: int, k: nat)
    requires base > 0 && 0 < max < TWO63
    ensures Clamp(Shift(base, k), max) == Min(base * Pow2(k), max)
       <==> base * Pow2(k) < TWO63 || Shift(base, k) <= 0 || Shift(base, k) >= max
  {
    Positive(base, Pow2(k));
    var q := SignedQuotient(base * Pow2(k));
  }

  // ---- for all attempts, from the settings alone ----

  /** The last t + 1 bits of a base without factors of two. */
  function Low(o: nat, t: nat): nat { o % Pow2(t + 1) }

  /** Bit t is zero, higher bits are lost, and what the lower ones leave at the top of the word is below the maximum. */
  predicate Undercuts(o: nat, max: int, t: nat)
    requires t <= 63
  {
    o >= Pow2(t) && Low(o, t) < Pow2(t) && Low(o, t) * Pow2(63 - t) < max
  }

  lemma SplitPower(t: nat)
    requires t <= 63
    ensures Pow2(t + 1) * Pow2(63 - t) == TWO64 && Pow2(t) * Pow2(63 - t) == TWO63 && Pow2(t + 1) == 2 * Pow2(t)
  {
    Pow2Of64();
    assert Pow2(64) == 2 * Pow2(63);
    assert Pow2(t + 1) == 2 * Pow2(t);
    hide Pow2;
    Pow2Sum(t + 1, 63 - t);
    Pow2Sum(t, 63 - t);
  }

  lemma Regroup(q: int, a: int, low: int, p: int)
    ensures (q * a + low) * p == q * (a * p) + low * p
  {
  }

  lemma Monotone(a: nat, b: nat, p: nat)
    requires p > 0
    ensures a < b <==> a * p < b * p
  {
    if a < b { assert (b - a) * p > 0; } else { assert (a - b) * p >= 0; }
  }

  /** Dropping whole turns of the word does not change the signed value. */
  lemma SignedTurns(q: int, y: int)
    requires 0 <= y < TWO64
    ensures Signed(q * TWO64 + y) == if y < TWO63 then y else y - TWO64
  {
    var r := if y < TWO63 then y else y - TWO64;
    var n := if y < TWO63 then q else q + 1;
    assert q * TWO64 + y + TWO63 == n * TWO64 + (r + TWO63);
    TurnsDropped(n, r + TWO63);
  }

  lemma TurnsDropped(n: int, z: int)
    requires 0 <= z < TWO64
    ensures (n * TWO64 + z) % TWO64 == z
  {
  }

  /** The shifted value in terms of the bits that stay. */
  lemma ShiftedBits(o: nat, t: nat)
    requires t <= 63
    ensures Shift(o, 63 - t) == if Low(o, t) < Pow2(t) then Low(o, t) * Pow2(63 - t)
            else Low(o, t) * Pow2(63 - t) - TWO64
  {
    var a, p, low := Pow2(t + 1), Pow2(63 - t), Low(o, t);
    var q := LowSplits(o, t);
    SplitPower(t);
    Regroup(q, a, low, p);
    assert o * p == q * TWO64 + low * p;
    Monotone(low, a, p);
    Monotone(low, Pow2(t), p);
    hide Pow2, Low, Signed;
    SignedTurns(q, low * p);
  }

  lemma LowSplits(o: nat, t: nat) returns (q: nat)
    ensures o == q * Pow2(t + 1) + Low(o, t) && Low(o, t) < Pow2(t + 1)
  {
    hide Pow2;
    q := Quotient(o, Pow2(t + 1), Low(o, t));
  }

  lemma Quotient(o: nat, a: nat, rest: nat) returns (q: nat)
    requires a > 0 && rest == o % a
    ensures o == q * a + rest && rest < a
  {
    q := o / a;
  }

  lemma OddLow(o: nat, t: nat)
    requires o % 2 == 1
    ensures Low(o, t) % 2 == 1
  {
    var h := Pow2(t);
    assert Pow2(t + 1) == 2 * h;
    hide Low, Pow2;
    var q := LowSplits(o, t);
    EvenPart(q, h, Low(o, t));
  }

  lemma EvenPart(q: int, h: int, low: int)
    ensures (q * (2 * h) + low) % 2 == low % 2
  {
    assert q * (2 * h) == 2 * (q * h);
  }

  /** One attempt goes wrong exactly if its place in the word undercuts. */
  lemma ClampIsRightAt(o: nat, max: int, t: nat)
    requires o % 2 == 1 && 0 < max < TWO63 && t <= 63
    ensures Clamp(Shift(o, 63 - t), max) == Min(o * Pow2(63 - t), max) <==> !Undercuts(o, max, t)
  {
    ClampIsRightExactly(o, max, 63 - t);
    ShiftedBits(o, t);
    SplitPower(t);
    OddLow(o, t);
    var p, low := Pow2(63 - t), Low(o, t);
    var q := LowSplits(o, t);
    hide Pow2, Low, Shift, Clamp;
    Monotone(o, Pow2(t), p);
    Positive(low, p);
    Monotone(low, 2 * Pow2(t), p);
  }

  /** From attempt 64 on nothing is left, and the clamp is right. */
  lemma ClampIsRightLate(o: nat, max: int, k: nat)
    requires o > 0 && 0 < max < TWO63 && k >= 64
    ensures Clamp(Shift(o, k), max) == Min(o * Pow2(k), max)
  {
    var m := ShiftMultiple(o, k);
    Pow2Of64();
    var q := SignedQuotient(o * Pow2(k));
    if k == 64 { OnlyZeroFits(m); }
    ClampIsRightExactly(o, max, k);
  }

  /** The clamped shift is the exponential delay. */
  predicate RightAt(base: int, max: int, k: nat) { Clamp(Shift(base, k), max) == Min(base * Pow2(k), max) }

  /** It is so on every attempt. */
  ghost predicate AlwaysRight(base: int, max: int) { forall k: nat :: RightAt(base, max, k) }

  /** The delays are right on all attempts exactly if the bits of the base without its v factors of two undercut at no
      place that a shift brings to the top. */
  lemma ClampIsAlwaysRightExactly(o: nat, v: nat, max: int)
    requires o % 2 == 1 && 0 < max < TWO63
    ensures AlwaysRight(o * Pow2(v), max) <==> forall t: nat :: t <= 63 - v ==> !Undercuts(o, max, t)
  {
    hide Pow2, RightAt, Undercuts;
    var base := o * Pow2(v);
    if forall t: nat :: t <= 63 - v ==> !Undercuts(o, max, t) {
      forall k: nat ensures RightAt(base, max, k) { RightAtExactly(o, v, max, k); }
    }
    if AlwaysRight(base, max) {
      forall t: nat | t <= 63 - v ensures !Undercuts(o, max, t) {
        RightAtExactly(o, v, max, 63 - v - t);
        assert RightAt(base, max, 63 - v - t);
      }
    }
  }

  lemma RightAtExactly(o: nat, v: nat, max: int, k: nat)
    requires o % 2 == 1 && 0 < max < TWO63
    ensures RightAt(o * Pow2(v), max, k) <==> (v + k <= 63 ==> !Undercuts(o, max, 63 - v - k))
  {
    hide Pow2, Shift, Clamp, Undercuts;
    ShiftTwice(o, v, k);
    if v + k <= 63 { ClampIsRightAt(o, max, 63 - v - k); } else { ClampIsRightLate(o, max, v + k); }
  }

  /** The maximum that commands set. */
  const MAX_DELAY := 8000 * MILLISECOND

  /** With it every base of whole milliseconds up to 73 seconds gives the exact delays. */
  lemma MillisecondsAreExact(ms: int, attempt: nat, random: nat)
    requires 0 < ms <= 73786 && attempt >= 1
    ensures var d := Min(ms * MILLISECOND * Pow2(attempt - 1), MAX_DELAY);
            d / 2 <= Backoff(ms * MILLISECOND, MAX_DELAY, attempt, random) <= d / 2 + d / 4
  {
    assert Pow2(2) == 2 * Pow2(1) == 4;
    hide Pow2;
    Pow2Sum(2, 2);
    Pow2Sum(2, 4);
    BackoffIsExact(ms * 15625, 6, MAX_DELAY, attempt, random);
  }

  /** Beyond that the condition can fail: a base of 4611686018428 milliseconds overflows, on the third attempt, to
      a delay below three milliseconds in place of eight seconds. */
  lemma OverflowCanUndercut()
    ensures var base := 4_611_686_018_428 * MILLISECOND;
            && base < TWO63 && Min(base * Pow2(2), MAX_DELAY) == MAX_DELAY
            && Clamp(Shift(base, 2), MAX_DELAY) == 2_448_384 &&
                forall random :: Backoff(base, MAX_DELAY, 3, random) < 3 * MILLISECOND
  {
    assert Pow2(2) == 2 * Pow2(1) == 4;
  }

  // ---- the retry loop ----

  datatype Config = Config(maxRetries: int, baseDelay: int, maxDelay: int)

  function Normal(cfg: Config): (r: Config)
    ensures r.baseDelay > 0 && r.maxDelay > 0 && r.maxRetries == cfg.maxRetries
  {
    cfg.(baseDelay := if cfg.baseDelay <= 0 then 500 * MILLISECOND else cfg.baseDelay,
         maxDelay := if cfg.maxDelay <= 0 then 8000 * MILLISECOND else cfg.maxDelay)
  }

  /** The outside world: the outcome of each call, whether cancellation wins the wait before it, and the random
      draws. */
  datatype Oracle = Oracle(call: nat -> Option<CallError>, cancelled: nat -> bool, random: nat -> nat)

  datatype Event = Waited(attempt: nat, delay: int, hinted: bool) | Called(attempt: nat)
  datatype Final = Succeeded | CancelledWaiting | Permanent(err: CallError) | Exhausted(err: CallError)
  datatype Trace = Trace(events: seq<Event>, final: Final)

  function Wait(cfg: Config, o: Oracle, attempt: nat, last: CallError): Event
    requires attempt >= 1
  {
    var c := Normal(cfg);
    if last.retryAfter > 0 then Waited(attempt, last.retryAfter, true)
    else Waited(attempt, Backoff(c.baseDelay, c.maxDelay, attempt, o.random(attempt)), false)
  }

  /** The rest of the loop from an attempt on, after the error of the attempt before. */
  function AttemptsFrom(cfg: Config, o: Oracle, attempt: nat, last: CallError): Trace
    requires 1 <= attempt <= cfg.maxRetries + 1
    decreases cfg.maxRetries + 1 - attempt
  {
    if attempt > cfg.maxRetries then Trace([], Exhausted(last))
    else
      var wait := Wait(cfg, o, attempt, last);
      if o.cancelled(attempt) then Trace([wait], CancelledWaiting)
      else
        var rest := AfterCall(cfg, o, attempt);
        rest.(events := [wait, Called(attempt)] + rest.events)
  }

  /** What follows the call of an attempt. */
  function AfterCall(cfg: Config, o: Oracle, attempt: nat): Trace
    requires attempt <= cfg.maxRetries
    decreases cfg.maxRetries + 1 - attempt, 0
  {
    var outcome := o.call(attempt);
    if outcome.None? then Trace([], Succeeded)
    else if !IsRetryable(outcome.value) then Trace([], Permanent(outcome.value))
    else AttemptsFrom(cfg, o, attempt + 1, outcome.value)
  }

  function WithRetry(cfg: Config, o: Oracle): Trace {
    if cfg.maxRetries <= 0 then
      Trace([Called(0)], if o.call(0).None? then Succeeded else Permanent(o.call(0).value))
    else
      var rest := AfterCall(cfg, o, 0);
      rest.(events := [Called(0)] + rest.events)
  }

  method RunWithRetry(cfg: Config, o: Oracle) returns (final: Final, ghost events: seq<Event>)
    ensures Trace(events, final) == WithRetry(cfg, o)
  {
    hide IsRetryable, Backoff;
    if cfg.maxRetries <= 0 {
      var outcome := o.call(0);
      return if outcome.None? then Succeeded else Permanent(outcome.value), [Called(0)];
    }
    events := [];
    var last := CallError({}, 0);
    ghost var whole := WithRetry(cfg, o);
    for attempt := 0 to cfg.maxRetries + 1
      invariant attempt == 0 ==> events == []
      invariant attempt > 0 ==> var rest := AttemptsFrom(cfg, o, attempt, last);
                                rest.final == whole.final && events + rest.events == whole.events
    {
      if attempt > 0 {
        var wait := Wait(cfg, o, attempt, last);
        events := events + [wait];
        if o.cancelled(attempt) { return CancelledWaiting, events; }
      }
      events := events + [Called(attempt)];
      assert events + AfterCall(cfg, o, attempt).events == whole.events &&
             AfterCall(cfg, o, attempt).final == whole.final;
      var outcome := o.call(attempt);
      if outcome.None? { return Succeeded, events; }
      if !IsRetryable(outcome.value) { return Permanent(outcome.value), events; }
      last := outcome.value;
    }
    final := Exhausted(last);
  }

  // ---- what the loop guarantees ----

  function Calls(events: seq<Event>): nat {
    if events == [] then 0 else (if events[0].Called? then 1 else 0) + Calls(events[1..])
  }

  /** Time spent in waits that no server asked for. */
  function OwnWaiting(events: seq<Event>): int {
    if events == [] then 0
    else (if events[0].Waited? && !events[0].hinted then events[0].delay else 0) + OwnWaiting(events[1..])
  }

  lemma {:induction false} AttemptsBounded(cfg: Config, o: Oracle, attempt: nat, last: CallError)
    requires 1 <= attempt <= cfg.maxRetries + 1
    ensures var t := AttemptsFrom(cfg, o, attempt, last);
            && Calls(t.events) <= cfg.maxRetries + 1 - attempt
            && 4 * OwnWaiting(t.events) <= (cfg.maxRetries + 1 - attempt) * (3 * Normal(cfg).maxDelay)
            && (forall i :: 0 <= i < |t.events| - 1 && t.events[i].Called? ==>
                  var outcome := o.call(t.events[i].attempt);
                  outcome.Some? && IsRetryable(outcome.value))
    decreases cfg.maxRetries + 1 - attempt
  {
    hide IsRetryable, Backoff;
    if attempt <= cfg.maxRetries {
      var t, wait, max := AttemptsFrom(cfg, o, attempt, last), Wait(cfg, o, attempt, last), Normal(cfg).maxDelay;
      WaitBounded(cfg, o, attempt, last);
      OneStep(cfg.maxRetries - attempt, 3 * max);
      if o.cancelled(attempt) {
        EventFirst(wait, []);
        NotNegative(cfg.maxRetries - attempt, 3 * max);
      } else {
        var rest := AfterCall(cfg, o, attempt);
        EventFirst(Called(attempt), rest.events);
        EventFirst(wait, [Called(attempt)] + rest.events);
        assert t.events == [wait] + ([Called(attempt)] + rest.events);
        if o.call(attempt).Some? && IsRetryable(o.call(attempt).value) {
          AttemptsBounded(cfg, o, attempt + 1, o.call(attempt).value);
        } else {
          NotNegative(cfg.maxRetries - attempt, 3 * max);
        }
        forall i | 0 <= i < |t.events| - 1 && t.events[i].Called?
          ensures o.call(t.events[i].attempt).Some? && IsRetryable(o.call(t.events[i].attempt).value)
        {
          if i >= 2 { assert t.events[i] == rest.events[i - 2]; }
        }
      }
    }
  }

  lemma EventFirst(e: Event, events: seq<Event>)
    ensures Calls([e] + events) == (if e.Called? then 1 else 0) + Calls(events)
    ensures OwnWaiting([e] + events) == (if e.Waited? && !e.hinted then e.delay else 0) + OwnWaiting(events)
  {
    assert ([e] + events)[1..] == events;
  }

  lemma OneStep(n: int, m: int)
    ensures (n + 1) * m == n * m + m
  {
  }

  lemma NotNegative(n: int, m: int)
    requires n >= 0 && m >= 0
    ensures n * m >= 0
  {
  }

  lemma WaitBounded(cfg: Config, o: Oracle, attempt: nat, last: CallError)
    requires attempt >= 1
    ensures var wait := Wait(cfg, o, attempt, last);
            !wait.hinted ==> 0 <= 4 * wait.delay <= 3 * Normal(cfg).maxDelay
  {
  }

  /** At most maxRetries + 1 calls; a success or a permanent error ends the run at once; and the waits the
      server did not ask for add up to at most three quarters of the maximum delay each. */
  lemma RetryIsBounded(cfg: Config, o: Oracle)
    requires cfg.maxRetries >= 0
    ensures var t := WithRetry(cfg, o);
            && 1 <= Calls(t.events) <= cfg.maxRetries + 1
            && 4 * OwnWaiting(t.events) <= cfg.maxRetries * (3 * Normal(cfg).maxDelay)
            && (forall i :: 0 <= i < |t.events| - 1 && t.events[i].Called? ==>
                  var outcome := o.call(t.events[i].attempt);
                  outcome.Some? && IsRetryable(outcome.value))
            && (t.final.Succeeded? || t.final.Permanent? ==> t.events[|t.events| - 1].Called?)
  {
    hide IsRetryable, Wait;
    var t := WithRetry(cfg, o);
    NotNegative(cfg.maxRetries, 3 * Normal(cfg).maxDelay);
    if cfg.maxRetries == 0 {
      assert t.events[1..] == [];
    } else {
      var rest := AfterCall(cfg, o, 0);
      assert t.events[1..] == rest.events;
      if o.call(0).Some? && IsRetryable(o.call(0).value) {
        AttemptsBounded(cfg, o, 1, o.call(0).value);
        EndsWithCall(cfg, o, 1, o.call(0).value);
      }
      forall i | 0 <= i < |t.events| - 1 && t.events[i].Called?
        ensures o.call(t.events[i].attempt).Some? && IsRetryable(o.call(t.events[i].attempt).value)
      {
        if i >= 1 { assert t.events[i] == rest.events[i - 1]; }
      }
    }
  }

  lemma {:induction false} EndsWithCall(cfg: Config, o: Oracle, attempt: nat, last: CallError)
    requires 1 <= attempt <= cfg.maxRetries + 1
    ensures var t := AttemptsFrom(cfg, o, attempt, last);
            t.final.Succeeded? || t.final.Permanent? ==> t.events != [] && t.events[|t.events| - 1].Called?
    decreases cfg.maxRetries + 1 - attempt
  {
    hide IsRetryable, Wait;
    if attempt <= cfg.maxRetries && !o.cancelled(attempt) && o.call(attempt).Some? &&
        IsRetryable(o.call(attempt).value) {
      EndsWithCall(cfg, o, attempt + 1, o.call(attempt).value);
    }
  }
}
