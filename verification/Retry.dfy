/**
 * The SDK's retry middleware and its exponential backoff.
 *
 * The middleware is a loop without an upper bound in its header. The server, the request body source and
 * the length of each round trip are arbitrary functions of the attempt; the caller's context ends at one
 * instant or never, and every attempt of a request sees that same instant.
 */
module Retry {
  import opened Wrappers

  const DEFAULT_BASE_DELAY := 200_000_000        // 200 ms, in nanoseconds
  const TWO_62 := 0x4000_0000_0000_0000
  const TWO_63 := 0x8000_0000_0000_0000
  const TWO_64 := 0x1_0000_0000_0000_0000

  datatype Policy = Policy(
    maxRetries: int, baseDelay: int, maxDelay: int, statuses: Option<seq<int>>, respectRetryAfter: bool)
  {
    function Base(): int {
      if baseDelay <= 0 then DEFAULT_BASE_DELAY else baseDelay
    }

    function Statuses(): seq<int> {
      match statuses
      case None => [429, 500, 502, 503, 504]
      case Some(xs) => xs
    }
  }

  // ---------------------------------------------------------------- backoff

  /** Two's-complement int64 arithmetic. */
  function Wrap64(x: int): (r: int)
    ensures -TWO_63 <= r < TWO_63
    ensures -TWO_63 <= x < TWO_63 ==> r == x
  {
    (x + TWO_63) % TWO_64 - TWO_63
  }

  /** base * 2^n, in unbounded integers. */
  function Doubled(base: int, n: nat): int {
    if n == 0 then base else 2 * Doubled(base, n - 1)
  }

  function Pow2(n: nat): (r: nat)
    ensures r >= 1
  {
    if n == 0 then 1 else 2 * Pow2(n - 1)
  }

  lemma {:induction false} DoubledIsShift(base: int, n: nat)
    ensures Doubled(base, n) == base * Pow2(n)
  {
    if n > 0 {
      DoubledIsShift(base, n - 1);
      assert 2 * (base * Pow2(n - 1)) == base * (2 * Pow2(n - 1));
    }
  }

  /** The doubling loop from a delay `d`, with `n` doublings to go. */
  function Climb(maxDelay: int, d: int, n: nat): int
    decreases n
  {
    if n == 0 then (if maxDelay > 0 && d > maxDelay then maxDelay else d)
    else
      var next := Wrap64(d * 2);
      if maxDelay > 0 && next >= maxDelay then maxDelay else Climb(maxDelay, next, n - 1)
  }

  method Backoff(p: Policy, attempt: int) returns (delay: int)
    ensures delay == Climb(p.maxDelay, if p.baseDelay <= 0 then 200_000_000 else p.baseDelay, Max(0, attempt))
  {
    var base := p.baseDelay;
    if base <= 0 {
      base := DEFAULT_BASE_DELAY;
    }
    var d := base;
    var i := 0;
    while i < attempt
      invariant 0 <= i <= Max(0, attempt)
      invariant Climb(p.maxDelay, p.Base(), Max(0, attempt)) == Climb(p.maxDelay, d, Max(0, attempt) - i)
    {
      d := Wrap64(d * 2);
      if p.maxDelay > 0 && d >= p.maxDelay {
        return p.maxDelay;
      }
      i := i + 1;
    }
    if p.maxDelay > 0 && d > p.maxDelay {
      return p.maxDelay;
    }
    return d;
  }

  lemma {:induction false} DoubledGrows(base: int, m: nat, n: nat)
    requires 0 < base && m <= n
    ensures 0 < Doubled(base, m) <= Doubled(base, n)
  {
    if n > 0 {
      if m < n {
        DoubledGrows(base, m, n - 1);
      } else {
        DoubledGrows(base, m - 1, n - 1);
      }
    }
  }

  lemma {:induction false} DoubledTwice(base: int, n: nat)
    ensures Doubled(2 * base, n) == Doubled(base, n + 1)
  {
    if n > 0 { DoubledTwice(base, n - 1); }
  }

  /** A delay of half the int64 range or more, short of the cap, is doubled into the sign bit. */
  ghost predicate Overflows(maxDelay: int, base: int) {
    base >= TWO_62 || exists k: nat :: TWO_62 <= Doubled(base, k) < maxDelay
  }

  /** The delay the documentation promises. */
  function Promised(maxDelay: int, base: int, n: nat): int {
    Min(Doubled(base, n), maxDelay)
  }

  lemma {:induction false} SafeClimb(maxDelay: int, d: int, n: nat)
    requires 0 < maxDelay && 0 < d && !Overflows(maxDelay, d)
    ensures Climb(maxDelay, d, n) == Promised(maxDelay, d, n)
    decreases n
  {
    if n > 0 {
      DoubledTwice(d, n - 1);
      if 2 * d >= maxDelay {
        DoubledGrows(2 * d, 0, n - 1);
      } else {
        assert Doubled(d, 1) == 2 * d;
        forall k: nat ensures !(TWO_62 <= Doubled(2 * d, k) < maxDelay) {
          DoubledTwice(d, k);
        }
        SafeClimb(maxDelay, 2 * d, n - 1);
      }
    }
  }

  /** The doubling after a delay in the upper half of the range comes out negative. */
  lemma {:induction false} ClimbOverflows(maxDelay: int, d: int, k: nat)
    requires 0 < maxDelay && 0 < d && TWO_62 <= Doubled(d, k) < TWO_63
    requires k > 0 ==> Doubled(d, k) < maxDelay
    ensures Climb(maxDelay, d, k + 1) < 0
    decreases k
  {
    if k == 0 {
      WrapShift(2 * d - TWO_64, 1);
      assert Climb(maxDelay, 2 * d - TWO_64, 0) < 0;
    } else {
      DoubledTwice(d, k - 1);
      DoubledGrows(2 * d, 0, k - 1);
      ClimbOverflows(maxDelay, 2 * d, k - 1);
    }
  }

  /**
   * BACKOFF EXACTNESS, for every capped policy: the int64 loop returns min(base * 2^attempt, MaxDelay) for
   * every attempt if and only if no doubling of the base reaches 2^62 while still below the cap.
   */
  lemma CappedBackoffExactly(maxDelay: int, base: int)
    requires 0 < maxDelay < TWO_63 && 0 < base < TWO_63
    ensures (forall n: nat :: Climb(maxDelay, base, n) == Promised(maxDelay, base, n)) <==> !Overflows(maxDelay, base)
  {
    if Overflows(maxDelay, base) {
      var k: nat :| (k == 0 && base >= TWO_62) || TWO_62 <= Doubled(base, k) < maxDelay;
      assert k == 0 ==> Doubled(base, k) == base;
      ClimbOverflows(maxDelay, base, k);
      DoubledGrows(base, 0, k + 1);
      assert Climb(maxDelay, base, k + 1) != Promised(maxDelay, base, k + 1);
    } else {
      forall n: nat ensures Climb(maxDelay, base, n) == Promised(maxDelay, base, n) {
        SafeClimb(maxDelay, base, n);
      }
    }
  }

  /** In particular under any cap of at most 2^62, about 146 years, with a base below it. */
  lemma CappedBackoffIsExact(maxDelay: int, base: int, n: nat)
    requires 0 < maxDelay <= TWO_62 && 0 < base < TWO_62
    ensures Climb(maxDelay, base, n) == Promised(maxDelay, base, n)
  {
    SafeClimb(maxDelay, base, n);
  }

  lemma BackoffIsMonotone(p: Policy, m: nat, n: nat)
    requires 0 < p.maxDelay <= TWO_62 && p.Base() < TWO_62 && m <= n
    ensures 0 < Climb(p.maxDelay, p.Base(), m) <= Climb(p.maxDelay, p.Base(), n) <= p.maxDelay
  {
    CappedBackoffIsExact(p.maxDelay, p.Base(), m);
    CappedBackoffIsExact(p.maxDelay, p.Base(), n);
    DoubledGrows(p.Base(), 0, m);
    DoubledGrows(p.Base(), m, n);
  }

  /** Doubling after wrapping is wrapping after doubling. */
  lemma WrapDoubles(x: int)
    ensures Wrap64(2 * Wrap64(x)) == Wrap64(2 * x)
  {
    var q := (x + TWO_63) / TWO_64;
    assert Wrap64(x) == x - q * TWO_64;
    WrapShift(2 * x, -2 * q);
  }

  lemma WrapShift(x: int, k: int)
    ensures Wrap64(x + k * TWO_64) == Wrap64(x)
  {
    var y := x + TWO_63;
    ModShift(y, k, TWO_64);
    assert x + k * TWO_64 + TWO_63 == y + k * TWO_64;
  }

  lemma ModShift(y: int, k: int, m: int)
    requires m > 0
    ensures (y + k * m) % m == y % m
  {
    var a, b := (y + k * m) / m, y / m;
    assert y + k * m == a * m + (y + k * m) % m;
    assert y == b * m + y % m;
    assert (a - b - k) * m == y % m - (y + k * m) % m;
    ZeroMultiple(a - b - k, m, y % m - (y + k * m) % m);
  }

  lemma ZeroMultiple(t: int, m: int, r: int)
    requires -m < r < m && t * m == r
    ensures r == 0
  {
    assert t >= 1 ==> t * m >= m;
    assert t <= -1 ==> t * m <= -m;
  }

  /** Without a cap the delay is the doubled base cut to 64 bits: exact only while that fits. */
  lemma {:induction false} UncappedBackoff(maxDelay: int, base: int, n: nat)
    requires maxDelay <= 0 && 0 < base < TWO_63
    ensures Climb(maxDelay, base, n) == Wrap64(Doubled(base, n))
    ensures Climb(maxDelay, base, n) == Doubled(base, n) <==> Doubled(base, n) < TWO_63
  {
    ClimbWraps(maxDelay, base, n);
    DoubledGrows(base, 0, n);
  }

  lemma {:induction false} ClimbWraps(maxDelay: int, x: int, n: nat)
    requires maxDelay <= 0
    ensures Climb(maxDelay, Wrap64(x), n) == Wrap64(Doubled(x, n))
    decreases n
  {
    if n > 0 {
      WrapDoubles(x);
      DoubledTwice(x, n - 1);
      ClimbWraps(maxDelay, 2 * x, n - 1);
    }
  }

  // ---------------------------------------------------------------- the loop

  /** What one round trip brings back. `ctxError`: the error wraps a cancellation or a deadline. */
  datatype Reply = NetError(ctxError: bool) | Response(status: int, retryAfter: Option<int>) | NoReply

  /**
   * `trip`: from an attempt's start to its wait. `cancel`: when the caller's context ends. `pick`: whether
   * select takes the timer in wait `k`, should it find both ready.
   */
  datatype World = World(
    body: nat -> bool, reply: nat -> Reply, trip: nat -> nat, cancel: Option<int>, pick: nat -> bool)

  datatype Final = BodyError | Returned(reply: Reply) | Cancelled

  const IDEMPOTENT: set<string> := {"GET", "HEAD", "OPTIONS", "PUT", "DELETE"}

  predicate RetryableForMethod(m: string, status: int) {
    m in IDEMPOTENT || status == 429 || status == 503
  }

  predicate Retryable(p: Policy, m: string, r: Reply) {
    match r
    case NetError(ctxError) => !ctxError && m in IDEMPOTENT
    case Response(status, _) => status in p.Statuses() && RetryableForMethod(m, status)
    case NoReply => false
  }

  function Delay(p: Policy, k: nat, r: Reply): int {
    var backoff := Climb(p.maxDelay, p.Base(), k);
    if p.respectRetryAfter && r.Response? && r.retryAfter.Some? then Max(backoff, r.retryAfter.value) else backoff
  }

  /** When attempt `k` is sent, if it is; time starts with the first one. */
  function Start(p: Policy, w: World, k: nat): int
    decreases k, 0
  {
    if k == 0 then 0 else Fires(p, w, k - 1)
  }

  /** When wait `k` begins, with its timer armed and the select reached. */
  function Armed(p: Policy, w: World, k: nat): int
    decreases k, 1
  {
    Start(p, w, k) + w.trip(k)
  }

  /** When its timer fires: at once for a delay that is not positive. */
  function Fires(p: Policy, w: World, k: nat): int
    decreases k, 2
  {
    Armed(p, w, k) + Max(0, Delay(p, k, w.reply(k)))
  }

  /** select takes whichever is ready first, and either one of two that are ready together. */
  predicate TimerWins(p: Policy, w: World, k: nat) {
    w.cancel.None? ||
    var done := Max(w.cancel.value, Armed(p, w, k));
    Fires(p, w, k) < done || (Fires(p, w, k) == done && w.pick(k))
  }

  /** Attempt `k` ends in a wait. */
  predicate Wants(p: Policy, m: string, w: World, k: nat) {
    w.body(k) && Retryable(p, m, w.reply(k)) && k < p.maxRetries
  }

  /** Attempt `k` is followed by another one. */
  predicate Continues(p: Policy, m: string, w: World, k: nat) {
    Wants(p, m, w, k) && TimerWins(p, w, k)
  }

  function FinalOf(p: Policy, m: string, w: World, k: nat): Final {
    if !w.body(k) then BodyError
    else if !Retryable(p, m, w.reply(k)) || k >= p.maxRetries then Returned(w.reply(k))
    else Cancelled
  }

  method RetryableStatus(p: Policy, status: int) returns (b: bool)
    ensures p.statuses.Some? ==> (b <==> status in p.statuses.value)
    ensures p.statuses.None? ==> (b <==> status in [429, 500, 502, 503, 504])
  {
    var statuses := p.Statuses();
    for i := 0 to |statuses|
      invariant status !in statuses[..i]
    {
      if statuses[i] == status { return true; }
    }
    return false;
  }

  /**
   * HOW LONG A WAIT IS: the backoff, or a longer Retry-After of the response when the policy respects it.
   */
  lemma WaitExactly(p: Policy, k: nat, r: Reply)
    ensures var backoff, wait := Climb(p.maxDelay, p.Base(), k), Delay(p, k, r);
      && (r.Response? && r.retryAfter.Some? && p.respectRetryAfter && r.retryAfter.value > backoff ==>
            wait == r.retryAfter.value)
      && (!(r.Response? && r.retryAfter.Some? && p.respectRetryAfter && r.retryAfter.value > backoff) ==>
            wait == backoff)
  {
  }

  /**
   * The middleware. It stops at the FIRST attempt that does not continue, returns what that attempt
   * brought, and has waited exactly the policy's delay after each earlier one, against one clock.
   */
  method RetryMiddleware(p: Policy, m: string, w: World) returns (last: nat, final: Final, waits: seq<int>)
    ensures !Continues(p, m, w, last)
    ensures forall k :: 0 <= k < last ==> Continues(p, m, w, k)
    ensures final == FinalOf(p, m, w, last)
    ensures |waits| == if final.Cancelled? then last + 1 else last
    ensures forall k :: 0 <= k < |waits| ==> waits[k] == Delay(p, k, w.reply(k))
    ensures last <= Max(0, p.maxRetries)
    ensures final.BodyError? <==> !w.body(last)
    ensures final.Returned? ==> final.reply == w.reply(last)
  {
    var attempt := 0;
    var now := 0;
    waits := [];
    while true
      invariant attempt >= 0 && |waits| == attempt && attempt <= Max(0, p.maxRetries)
      invariant now == Start(p, w, attempt)
      invariant forall k :: 0 <= k < attempt ==> Continues(p, m, w, k)
      invariant forall k :: 0 <= k < |waits| ==> waits[k] == Delay(p, k, w.reply(k))
      decreases Max(0, p.maxRetries) - attempt
    {
      if !w.body(attempt) {
        return attempt, BodyError, waits;
      }
      var r := w.reply(attempt);
      now := now + w.trip(attempt);
      assert now == Armed(p, w, attempt);
      var retryable := false;
      match r {
        case NetError(ctxError) =>
          if ctxError {
            return attempt, Returned(r), waits;
          }
          retryable := m in IDEMPOTENT;
        case Response(status, _) =>
          var listed := RetryableStatus(p, status);
          if listed {
            retryable := RetryableForMethod(m, status);
          }
        case NoReply =>
      }
      if !retryable || attempt >= p.maxRetries {
        return attempt, Returned(r), waits;
      }
      var delay := Backoff(p, attempt);
      if r.Response? && p.respectRetryAfter && r.retryAfter.Some? && r.retryAfter.value > delay {
        delay := r.retryAfter.value;
      }
      assert delay == Delay(p, attempt, r);
      waits := waits + [delay];
      var fires := now + Max(0, delay);
      assert fires == Fires(p, w, attempt);
      if w.cancel.Some? {
        var done := Max(w.cancel.value, now);
        if done < fires || (done == fires && !w.pick(attempt)) {
          return attempt, Cancelled, waits;
        }
      }
      assert Start(p, w, attempt + 1) == Fires(p, w, attempt);
      now := fires;
      attempt := attempt + 1;
    }
  }

  // ---------------------------------------------------------------- traces

  /** The loop ends at attempt `last`: everything before it continues and it does not. */
  ghost predicate EndsAt(p: Policy, m: string, w: World, last: nat) {
    !Continues(p, m, w, last) && forall k :: 0 <= k < last ==> Continues(p, m, w, k)
  }

  /** A request is sent at most max(0, MaxRetries) + 1 times, whatever the server does, and the end is unique. */
  lemma AttemptsBounded(p: Policy, m: string, w: World, last: nat, other: nat)
    requires EndsAt(p, m, w, last) && EndsAt(p, m, w, other)
    ensures last + 1 <= Max(0, p.maxRetries) + 1 && last == other
  {
    assert last > 0 ==> Continues(p, m, w, last - 1);
    assert last < other ==> Continues(p, m, w, last);
    assert other < last ==> Continues(p, m, w, other);
  }

  /**
   * WHAT IS EVER RE-SENT: never anything after a cancellation or deadline error; after another network
   * error only an idempotent method; after a response only a listed status, and for a method outside the
   * idempotent set only 429 or 503, whatever the policy lists.
   */
  lemma ResentOnlyWhenSafe(p: Policy, m: string, w: World, last: nat, k: nat)
    requires EndsAt(p, m, w, last) && k < last
    ensures match w.reply(k)
            case NetError(ctxError) => !ctxError && m in IDEMPOTENT
            case Response(status, _) =>
              status in p.Statuses() && (m !in IDEMPOTENT ==> status == 429 || status == 503)
            case NoReply => false
  {
    assert Continues(p, m, w, k);
  }

  /**
   * WHAT IS RE-SENT, exactly, while the context outlives the wait: with retries left and a body to send,
   * a network error that is not the context's own under an idempotent method, and a listed status, under
   * another method only 429 or 503.
   */
  lemma RetriedExactly(p: Policy, m: string, w: World, last: nat, k: nat)
    requires EndsAt(p, m, w, last) && k <= last
    requires w.cancel.None? || w.cancel.value > Fires(p, w, k)
    ensures k < last <==>
      && w.body(k) && k < p.maxRetries
      && match w.reply(k)
         case NetError(ctxError) => !ctxError && m in {"GET", "HEAD", "OPTIONS", "PUT", "DELETE"}
         case Response(status, _) =>
           && (if p.statuses.Some? then status in p.statuses.value else status in [429, 500, 502, 503, 504])
           && (m in {"GET", "HEAD", "OPTIONS", "PUT", "DELETE"} || status == 429 || status == 503)
         case NoReply => false
  {
    assert k < last ==> Continues(p, m, w, k);
  }

  /** The clock after `k` attempts and the waits that followed them. */
  function Spent(w: World, waits: seq<int>, k: nat): int
    requires k <= |waits|
  {
    if k == 0 then 0 else Spent(w, waits, k - 1) + w.trip(k - 1) + Max(0, waits[k - 1])
  }

  lemma {:induction false} SpentIsStart(p: Policy, w: World, waits: seq<int>, k: nat)
    requires k <= |waits| && forall j :: 0 <= j < |waits| ==> waits[j] == Delay(p, j, w.reply(j))
    ensures Spent(w, waits, k) == Start(p, w, k)
  {
    if k > 0 {
      SpentIsStart(p, w, waits, k - 1);
      assert Start(p, w, k) == Fires(p, w, k - 1);
    }
  }

  lemma {:induction false} NextStart(p: Policy, w: World, k: nat)
    ensures Start(p, w, k + 1) == Fires(p, w, k) && Armed(p, w, k) == Start(p, w, k) + w.trip(k)
  {
  }

  lemma {:induction false} WaitMeetsContext(p: Policy, m: string, w: World, k: nat, start: int, fires: int)
    requires w.cancel.Some? && Wants(p, m, w, k)
    requires start == Start(p, w, k) && fires == Fires(p, w, k)
    ensures Continues(p, m, w, k) ==> fires <= Max(w.cancel.value, start + w.trip(k))
    ensures !Continues(p, m, w, k) ==> w.cancel.value <= fires
  {
  }

  /**
   * ONE CLOCK: it runs through the trips and the waits made. A request ends cancelled only if its context
   * ended by the end of its last wait, and an earlier wait ends by then or by its own beginning.
   */
  lemma {:induction false} OneClock(p: Policy, m: string, w: World, last: nat, waits: seq<int>, k: nat)
    requires EndsAt(p, m, w, last) && w.cancel.Some? && k <= last
    requires k < |waits| && forall j :: 0 <= j < |waits| ==> waits[j] == Delay(p, j, w.reply(j))
    ensures k == last && FinalOf(p, m, w, last).Cancelled? ==> w.cancel.value <= Spent(w, waits, k + 1)
    ensures k < last ==> Spent(w, waits, k + 1) <= Max(w.cancel.value, Spent(w, waits, k) + w.trip(k))
  {
    SpentIsStart(p, w, waits, k);
    SpentIsStart(p, w, waits, k + 1);
    NextStart(p, w, k);
    assert k < last ==> Continues(p, m, w, k);
    if Wants(p, m, w, k) {
      WaitMeetsContext(p, m, w, k, Spent(w, waits, k), Spent(w, waits, k + 1));
    }
  }

  // ---------------------------------------------------------------- after cancellation

  ghost predicate PositiveDelays(p: Policy) {
    forall k: nat :: k < p.maxRetries ==> Climb(p.maxDelay, p.Base(), k) > 0
  }

  lemma {:induction false} StartsGrow(p: Policy, w: World, j: nat, k: nat)
    requires j <= k
    ensures Start(p, w, j) <= Start(p, w, k)
    decreases k
  {
    if j < k {
      StartsGrow(p, w, j, k - 1);
      assert Start(p, w, k) == Fires(p, w, k - 1);
    }
  }

  /** With positive delays a wait that starts with the context done is not followed by anything. */
  lemma DoneWaitEnds(p: Policy, m: string, w: World, k: nat)
    requires PositiveDelays(p) && w.cancel.Some? && w.cancel.value <= Armed(p, w, k)
    ensures !Continues(p, m, w, k)
  {
  }

  /**
   * A RE-SEND AFTER CANCELLATION, exactly, for every world: with positive delays, wait `k` of a context
   * that ends by its firing instant is followed by another attempt if and only if the context ends AT that
   * instant and select takes the timer. That attempt is then the last one.
   */
  lemma ResendAfterCancellationExactly(p: Policy, m: string, w: World, last: nat, k: nat)
    requires EndsAt(p, m, w, last) && PositiveDelays(p) && k <= last
    requires w.cancel.Some? && w.cancel.value <= Fires(p, w, k)
    ensures k < last <==> Wants(p, m, w, k) && w.cancel.value == Fires(p, w, k) && w.pick(k)
    ensures k < last ==> last == k + 1
  {
    assert k < last ==> Continues(p, m, w, k);
    if k < last {
      assert Start(p, w, k + 1) == Fires(p, w, k);
      DoneWaitEnds(p, m, w, k + 1);
    }
  }

  /** So nothing is sent later than the cancellation, and at that very instant at most the last attempt. */
  lemma NothingSentAfterCancellation(p: Policy, m: string, w: World, last: nat, j: nat)
    requires EndsAt(p, m, w, last) && PositiveDelays(p) && w.cancel.Some?
    requires 0 < j <= last && w.cancel.value <= Start(p, w, j)
    ensures Start(p, w, j) == w.cancel.value && j == last
  {
    ResendAfterCancellationExactly(p, m, w, last, j - 1);
  }

  /** A context already done when a wait begins stops the request there, in every world. */
  ghost predicate DoneContextStops(p: Policy, m: string) {
    forall w: World, last: nat, k: nat ::
      EndsAt(p, m, w, last) && k <= last && w.cancel.Some? && w.cancel.value <= Armed(p, w, k) ==> k == last
  }

  /** The transport fails an attempt whose context is already done. */
  ghost predicate HonoursContext(p: Policy, w: World) {
    forall k: nat :: w.cancel.Some? && w.cancel.value <= Start(p, w, k) ==> w.reply(k) == NetError(true)
  }

  /**
   * Behind a transport that honours the context the cancellation always ends the request, under EVERY
   * policy: the first attempt sent at or after it is the last.
   */
  lemma HonouredCancellationEnds(p: Policy, m: string, w: World, last: nat, j: nat)
    requires EndsAt(p, m, w, last) && HonoursContext(p, w) && j <= last
    requires w.cancel.Some? && w.cancel.value <= Start(p, w, j)
    ensures j == last
  {
    assert w.reply(j) == NetError(true);
    assert j < last ==> Continues(p, m, w, j);
  }

  ghost predicate CanRetry(p: Policy, m: string) {
    exists r :: Retryable(p, m, r)
  }

  /** The loop has an end after any attempt it may still continue from. */
  lemma {:induction false} EndAfter(p: Policy, m: string, w: World, k: nat) returns (last: nat)
    requires forall j :: 0 <= j < k ==> Continues(p, m, w, j)
    ensures EndsAt(p, m, w, last) && k <= last
    decreases Max(0, p.maxRetries) - k
  {
    if Continues(p, m, w, k) {
      last := EndAfter(p, m, w, k + 1);
    } else {
      last := k;
    }
  }

  /** Everything retryable, one tick per trip, and select always taking the timer. */
  function Eager(r: Reply, cancel: Option<int>): World {
    World(_ => true, _ => r, _ => 1, cancel, _ => true)
  }

  lemma {:induction false} ClockIgnoresCancel(p: Policy, r: Reply, c: Option<int>, d: Option<int>, k: nat)
    ensures Start(p, Eager(r, c), k) == Start(p, Eager(r, d), k)
    ensures Armed(p, Eager(r, c), k) == Armed(p, Eager(r, d), k)
    ensures Fires(p, Eager(r, c), k) == Fires(p, Eager(r, d), k)
  {
    if k > 0 { ClockIgnoresCancel(p, r, c, d, k - 1); }
  }

  /** A wait with no positive delay can outlive the cancellation. */
  lemma OutlivesCancellation(p: Policy, m: string, k: nat)
    requires CanRetry(p, m) && k < p.maxRetries && Climb(p.maxDelay, p.Base(), k) <= 0
    ensures !DoneContextStops(p, m)
  {
    var r0 :| Retryable(p, m, r0);
    var r := if r0.Response? then Response(r0.status, None) else r0;
    var c := Armed(p, Eager(r, None), k);
    var w := Eager(r, Some(c));
    ClockIgnoresCancel(p, r, Some(c), None, k);
    forall j | 0 <= j < k ensures Continues(p, m, w, j) {
      StartsGrow(p, w, j + 1, k);
    }
    assert Continues(p, m, w, k);
    var last := EndAfter(p, m, w, k + 1);
    assert EndsAt(p, m, w, last) && k <= last && w.cancel.value <= Armed(p, w, k) && k != last;
  }

  /**
   * The exact condition on a policy: a context already done when a wait begins stops the request, whatever
   * the server answers and select picks, if and only if no backoff it can come to wait for is <= 0.
   */
  lemma DoneContextExactly(p: Policy, m: string)
    ensures DoneContextStops(p, m) <==> (CanRetry(p, m) ==> PositiveDelays(p))
  {
    if CanRetry(p, m) && !PositiveDelays(p) {
      var k: nat :| k < p.maxRetries && Climb(p.maxDelay, p.Base(), k) <= 0;
      OutlivesCancellation(p, m, k);
    } else {
      forall w: World, last: nat, k: nat
        | EndsAt(p, m, w, last) && k <= last && w.cancel.Some? && w.cancel.value <= Armed(p, w, k)
        ensures k == last
      {
        if CanRetry(p, m) {
          DoneWaitEnds(p, m, w, k);
        } else {
          assert !Retryable(p, m, w.reply(k));
        }
        assert k < last ==> Continues(p, m, w, k);
      }
    }
  }

  lemma {:induction false} PowerSum(a: nat, b: nat)
    ensures Pow2(a + b) == Pow2(a) * Pow2(b)
  {
    if a > 0 { PowerSum(a - 1, b); }
  }

  lemma Pow16()
    ensures Pow2(16) == 0x1_0000
  {
    assert Pow2(4) == 16;
    PowerSum(4, 4);
    PowerSum(8, 8);
  }

  lemma Pow64()
    ensures Pow2(64) == TWO_64
  {
    Pow16();
    PowerSum(16, 16);
    PowerSum(32, 32);
  }

  /** After 64 doublings nothing of an uncapped delay is left. */
  lemma UncappedVanishes(maxDelay: int, base: int)
    requires maxDelay <= 0 && 0 < base < TWO_63
    ensures Climb(maxDelay, base, 64) == 0
  {
    UncappedBackoff(maxDelay, base, 64);
    assert Doubled(base, 64) == base * TWO_64 by {
      DoubledIsShift(base, 64);
      Pow64();
    }
    WrapShift(0, base);
    assert Wrap64(0 + base * TWO_64) == 0;
  }

  /**
   * And in the policy's own terms, for every number of retries: exactly the capped policies whose doubling
   * never overflows.
   */
  lemma CancellationStopsExactly(p: Policy, m: string)
    requires p.maxDelay < TWO_63 && p.Base() < TWO_63 && CanRetry(p, m)
    ensures (forall n: int :: DoneContextStops(p.(maxRetries := n), m))
            <==> p.maxDelay > 0 && !Overflows(p.maxDelay, p.Base())
  {
    var r :| Retryable(p, m, r);
    forall n: int ensures CanRetry(p.(maxRetries := n), m) {
      assert Retryable(p.(maxRetries := n), m, r);
    }
    if p.maxDelay > 0 && !Overflows(p.maxDelay, p.Base()) {
      forall n: int ensures DoneContextStops(p.(maxRetries := n), m) {
        forall k: nat ensures Climb(p.maxDelay, p.Base(), k) > 0 {
          SafeClimb(p.maxDelay, p.Base(), k);
          DoubledGrows(p.Base(), 0, k);
        }
        DoneContextExactly(p.(maxRetries := n), m);
      }
    } else {
      var k := SomeBackoffVanishes(p.maxDelay, p.Base());
      var q := p.(maxRetries := k + 1);
      OutlivesCancellation(q, m, k);
    }
  }

  lemma SomeBackoffVanishes(maxDelay: int, base: int) returns (k: nat)
    requires maxDelay < TWO_63 && 0 < base < TWO_63
    requires maxDelay <= 0 || Overflows(maxDelay, base)
    ensures Climb(maxDelay, base, k) <= 0
  {
    if maxDelay <= 0 {
      UncappedVanishes(maxDelay, base);
      k := 64;
    } else {
      var n: nat :| (n == 0 && base >= TWO_62) || TWO_62 <= Doubled(base, n) < maxDelay;
      ClimbOverflows(maxDelay, base, n);
      k := n + 1;
    }
  }

  /** The default policy, cancelled at the very instant the first timer fires: one more request goes out. */
  lemma ResendAtTheFiringInstant()
    ensures var p := Policy(3, 200_000_000, 5_000_000_000, None, true);
      var w := World(_ => true, _ => Response(503, None), _ => 0, Some(200_000_000), _ => true);
      EndsAt(p, "POST", w, 1) && Start(p, w, 1) == w.cancel.value
  {
    var p := Policy(3, 200_000_000, 5_000_000_000, None, true);
    var w := World(_ => true, _ => Response(503, None), _ => 0, Some(200_000_000), _ => true);
    assert Start(p, w, 0) == 0 && Fires(p, w, 0) == 200_000_000;
    assert Continues(p, "POST", w, 0);
    SafeClimbPositive(p.maxDelay, p.Base(), 1);
    assert Start(p, w, 1) == Fires(p, w, 0);
  }

  lemma SafeClimbPositive(maxDelay: int, base: int, n: nat)
    requires 0 < maxDelay <= TWO_62 && 0 < base < TWO_62
    ensures Climb(maxDelay, base, n) > 0
  {
    CappedBackoffIsExact(maxDelay, base, n);
    DoubledGrows(base, 0, n);
  }

  lemma {:induction false} OverflownStaysSpent(maxDelay: int, d: int, n: nat)
    requires maxDelay > 0 && (d == 0 || d == -TWO_63)
    ensures Climb(maxDelay, d, n) <= 0
    decreases n
  {
    if n > 0 {
      WrapShift(0, -1);
      OverflownStaysSpent(maxDelay, 0, n - 1);
    }
  }

  /**
   * A policy that overflows, cancelled before its second wait, behind a transport that answers all the
   * same: all its retries are still sent, however many there are.
   */
  lemma OverflowOutlivesCancellation(n: nat)
    requires n >= 1
    ensures var p := Policy(n, TWO_62, TWO_63 - 1, None, false);
      var w := Eager(Response(503, None), Some(TWO_62 + 2));
      EndsAt(p, "GET", w, n) && w.cancel.value <= Armed(p, w, 1)
  {
    var p := Policy(n, TWO_62, TWO_63 - 1, None, false);
    var w := Eager(Response(503, None), Some(TWO_62 + 2));
    assert Start(p, w, 0) == 0 && Armed(p, w, 0) == 1 && Fires(p, w, 0) == TWO_62 + 1;
    assert Start(p, w, 1) == TWO_62 + 1 && Armed(p, w, 1) == TWO_62 + 2;
    forall k | 0 <= k < n ensures Continues(p, "GET", w, k) {
      if k > 0 {
        WrapShift(2 * TWO_62 - TWO_64, 1);
        OverflownStaysSpent(p.maxDelay, -TWO_63, k - 1);
        StartsGrow(p, w, 1, k);
      }
    }
  }
}
