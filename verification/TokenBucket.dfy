/**
 The per-user UDP limiter: a bucket of at most 120 tokens that gains 60 a second,
 refilled lazily when a datagram asks for a token. Clock readings are in nanoseconds;
 the time since the last refill is cut down to whole milliseconds.
 */
module TokenBucket {

  const MAX_TOKENS: int := 120
  const REFILL_PER_SECOND: int := 60
  const NANOS: int := 1_000_000_000   // in a second
  const MILLI: int := 1_000_000       // nanoseconds in a millisecond

  datatype Bucket = Bucket(tokens: int, lastRefill: int)

  function Refill(elapsed: int): int {
    elapsed / MILLI * REFILL_PER_SECOND / 1000
  }

  /** One request at time `now`: the bucket afterwards, and whether it was admitted. */
  function Check(b: Bucket, now: int): (Bucket, bool) {
    var refill := Refill(now - b.lastRefill);
    var full := if b.tokens + refill < MAX_TOKENS then b.tokens + refill else MAX_TOKENS;
    var r := if refill > 0 then Bucket(full, now) else b;
    if r.tokens > 0 then (r.(tokens := r.tokens - 1), true) else (r, false)
  }

  /** The bucket, and the number of admitted requests, after requests at the given times. */
  function Run(b: Bucket, times: seq<int>): (Bucket, nat)
    decreases |times|
  {
    if times == [] then (b, 0)
    else
      var (b1, n) := Run(b, times[..|times| - 1]);
      var (b2, ok) := Check(b1, times[|times| - 1]);
      (b2, if ok then n + 1 else n)
  }

  predicate NonDecreasing(times: seq<int>) {
    forall i, j | 0 <= i < j < |times| :: times[i] <= times[j]
  }

  predicate Sane(b: Bucket, now: int) {
    0 <= b.tokens <= MAX_TOKENS && b.lastRefill <= now
  }

  class UdpBucket {
    var udpTokens: int
    var lastUdpTokenRefill: int

    function Model(): Bucket
      reads this
    {
      Bucket(udpTokens, lastUdpTokenRefill)
    }

    constructor (now: int)
      ensures Model() == Bucket(MAX_TOKENS, now)
    {
      udpTokens := MAX_TOKENS;
      lastUdpTokenRefill := now;
    }

    method CheckUdpRateLimit(now: int) returns (ok: bool)
      requires lastUdpTokenRefill <= now
      modifies this
      ensures (Model(), ok) == Check(old(Model()), now)
    {
      var elapsed := (now - lastUdpTokenRefill) / MILLI;
      var refill := elapsed * REFILL_PER_SECOND / 1000;
      if refill > 0 {
        udpTokens := if udpTokens + refill < MAX_TOKENS then udpTokens + refill else MAX_TOKENS;
        lastUdpTokenRefill := now;
      }
      if udpTokens > 0 {
        udpTokens := udpTokens - 1;
        return true;
      }
      return false;
    }
  }

  /**
   Tokens never leave 0..120, and every token admitted or left over was there at
   the start, or was earned since the base time from which refills are counted.
   */
  ghost predicate Accounted(b: Bucket, admitted: nat, start: int, base: int, now: int) {
    && Sane(b, now)
    && NANOS * (admitted + b.tokens) <= NANOS * start + REFILL_PER_SECOND * (b.lastRefill - base)
  }

  lemma CheckAccounted(b: Bucket, admitted: nat, start: int, base: int, before: int, now: int)
    requires Accounted(b, admitted, start, base, before) && before <= now
    ensures var (b', ok) := Check(b, now); Accounted(b', if ok then admitted + 1 else admitted, start, base, now)
  {
    RefillIsEarned(now - b.lastRefill);
  }

  /** A refill gives no more than the rate times the time, and gives something from 17 whole milliseconds on. */
  lemma RefillIsEarned(elapsed: int)
    requires 0 <= elapsed
    ensures 0 <= NANOS * Refill(elapsed) <= REFILL_PER_SECOND * elapsed
    ensures Refill(elapsed) > 0 <==> elapsed >= 17 * MILLI
  {
    var ms := elapsed / MILLI;
    assert MILLI * ms <= elapsed < MILLI * (ms + 1);
    assert 1000 * Refill(elapsed) <= 60 * ms < 1000 * (Refill(elapsed) + 1);
  }

  /**
   The account of a run: refills count from the first request if it refilled the
   bucket, and otherwise from the refill before it, with the tokens there were.
   */
  lemma {:induction false} RunAccounted(b: Bucket, times: seq<int>) returns (start: int, base: int)
    requires times != [] && NonDecreasing(times) && Sane(b, times[0])
    ensures if times[0] - b.lastRefill >= 17 * MILLI then start == MAX_TOKENS && base == times[0]
            else start == b.tokens && base == b.lastRefill
    ensures var (b', n) := Run(b, times); Accounted(b', n, start, base, times[|times| - 1])
    decreases |times|
  {
    var init := times[..|times| - 1];
    var last := times[|times| - 1];
    if init == [] {
      var e := last - b.lastRefill;
      RefillIsEarned(e);
      assert Run(b, init) == (b, 0);
      start, base := if e >= 17 * MILLI then MAX_TOKENS else b.tokens, if e >= 17 * MILLI then last else b.lastRefill;
      if e < 17 * MILLI {
        CheckAccounted(b, 0, start, base, last, last);
      }
    } else {
      start, base := RunAccounted(b, init);
      var (b1, n) := Run(b, init);
      CheckAccounted(b1, n, start, base, init[|init| - 1], last);
    }
  }

  /**
   Whatever the bucket held before, requests spanning D nanoseconds are admitted at most
   (121_019_999_940 + 60 * D) / 1_000_000_000 times: 60 a second, and 121.02 at once.
   */
  lemma AdmissionBound(b: Bucket, times: seq<int>)
    requires times != [] && NonDecreasing(times) && Sane(b, times[0])
    ensures var (b', n) := Run(b, times);
            var d := times[|times| - 1] - times[0];
            && n <= (121_019_999_940 + 60 * d) / NANOS
            && 0 <= b'.tokens <= MAX_TOKENS
  {
    var start, base := RunAccounted(b, times);
    var (b', n) := Run(b, times);
    var d := times[|times| - 1] - times[0];
    assert NANOS * n <= 121_019_999_940 + 60 * d;
  }

  /**
   The account since a given moment, whoever looks at the bucket and when: nothing was
   admitted yet if the last refill is 17 ms older than the moment, and otherwise refills
   count from just short of 17 ms before it.
   */
  ghost predicate Within(b: Bucket, admitted: nat, since: int, now: int) {
    && Sane(b, now)
    && if b.lastRefill <= since - 17 * MILLI then admitted == 0
       else Accounted(b, admitted, MAX_TOKENS, since - 17 * MILLI + 1, now)
  }

  lemma SaneWithin(b: Bucket, since: int)
    requires Sane(b, since)
    ensures Within(b, 0, since, since)
  {
  }

  lemma CheckWithin(b: Bucket, admitted: nat, since: int, now: int)
    requires Within(b, admitted, since, now) && since <= now
    ensures var (b', ok) := Check(b, now); Within(b', if ok then admitted + 1 else admitted, since, now)
  {
    RefillIsEarned(now - b.lastRefill);
    if b.lastRefill > since - 17 * MILLI {
      CheckAccounted(b, admitted, MAX_TOKENS, since - 17 * MILLI + 1, now, now);
    }
  }

  lemma WithinLess(b: Bucket, admitted: nat, fewer: nat, since: int, now: int)
    requires Within(b, admitted, since, now) && fewer <= admitted
    ensures Within(b, fewer, since, now)
  {
  }

  lemma WithinLater(b: Bucket, admitted: nat, since: int, now: int, later: int)
    requires Within(b, admitted, since, now) && now <= later
    ensures Within(b, admitted, since, later)
  {
  }

  lemma WithinBound(b: Bucket, admitted: nat, since: int, now: int)
    requires Within(b, admitted, since, now) && since <= now
    ensures admitted <= (121_019_999_940 + 60 * (now - since)) / NANOS
  {
    assert NANOS * admitted <= 121_019_999_940 + 60 * (now - since);
  }

  /** k requests at one time, of a bucket that this time does not refill. */
  lemma {:induction false} SpendAll(b: Bucket, now: int, k: nat)
    requires k <= b.tokens && 0 <= now - b.lastRefill < 17 * MILLI
    ensures Run(b, seq(k, i => now)) == (b.(tokens := b.tokens - k), k)
  {
    RefillIsEarned(now - b.lastRefill);
    if k > 0 {
      SpendAll(b, now, k - 1);
      assert seq(k, i => now)[..k - 1] == seq(k - 1, i => now);
    }
  }

  lemma RunAfter(b: Bucket, times: seq<int>, now: int)
    ensures var (b1, n) := Run(b, times);
            var (b2, ok) := Check(b1, now);
            Run(b, times + [now]) == (b2, if ok then n + 1 else n)
  {
    assert (times + [now])[..|times|] == times;
  }

  // ------------------------------------------------ what a sender can count on

  /** Tokens are not lost: every sender with enough of them at the start gets all its requests through. */
  lemma {:induction false} SavedTokensAdmit(b: Bucket, times: seq<int>)
    requires NonDecreasing(times) && (times != [] ==> Sane(b, times[0])) && |times| <= b.tokens
    ensures var (b', n) := Run(b, times);
            && n == |times| && b'.tokens >= b.tokens - |times|
            && (times != [] ==> Sane(b', times[|times| - 1]))
    decreases |times|
  {
    if times != [] {
      var init := times[..|times| - 1];
      var last := times[|times| - 1];
      SavedTokensAdmit(b, init);
      var b1 := Run(b, init).0;
      RefillIsEarned(last - b1.lastRefill);
    }
  }

  /** The tokens that can be spent at one moment, in whole milliseconds since the last refill. */
  function Available(b: Bucket, now: int): int {
    var ms := (now - b.lastRefill) / 1_000_000;
    if ms < 17 then b.tokens
    else if b.tokens + 60 * ms / 1000 < 120 then b.tokens + 60 * ms / 1000
    else 120
  }

  lemma CheckSpends(b: Bucket, now: int)
    requires Sane(b, now)
    ensures var (b', ok) := Check(b, now);
            && (ok <==> Available(b, now) > 0)
            && Sane(b', now) && b'.tokens == Available(b', now)
            && Available(b', now) == if ok then Available(b, now) - 1 else Available(b, now)
  {
    RefillIsEarned(now - b.lastRefill);
  }

  /**
   Of k requests at one moment exactly as many are admitted as tokens are available: those
   that were there, and from 17 ms after the last refill on those earned since, up to 120.
   */
  lemma {:induction false} BurstExactly(b: Bucket, now: int, k: nat)
    requires Sane(b, now)
    ensures var (b', n) := Run(b, seq(k, i => now));
            && n == (if k <= Available(b, now) then k else Available(b, now))
            && Sane(b', now) && Available(b', now) == Available(b, now) - n
  {
    RefillIsEarned(now - b.lastRefill);
    if k > 0 {
      BurstExactly(b, now, k - 1);
      assert seq(k, i => now)[..k - 1] == seq(k - 1, i => now);
      CheckSpends(Run(b, seq(k - 1, i => now)).0, now);
    }
  }

  /** The bound is met: 121 requests within one nanosecond can all be admitted. */
  lemma AdmissionBoundIsTight()
    ensures var times := seq(120, i => 16_999_999) + [17_000_000];
            && NonDecreasing(times)
            && Run(Bucket(MAX_TOKENS, 0), times).1 == 121 == (121_019_999_940 + 60 * 1) / NANOS
  {
    SpendAll(Bucket(MAX_TOKENS, 0), 16_999_999, 120);
    RunAfter(Bucket(MAX_TOKENS, 0), seq(120, i => 16_999_999), 17_000_000);
    assert Check(Bucket(0, 0), 17_000_000) == (Bucket(0, 17_000_000), true);
  }

  /** A full bucket emptied at once, and three requests 50 ms after its last refill. */
  function Burst(b: Bucket, now: int): seq<int> {
    seq(MAX_TOKENS, i => now) + [b.lastRefill + 50 * MILLI] + [b.lastRefill + 50 * MILLI] + [b.lastRefill + 50 * MILLI]
  }

  lemma BurstInOrder(b: Bucket, now: int)
    requires now - b.lastRefill < 17 * MILLI
    ensures NonDecreasing(Burst(b, now))
  {
  }

  /** An empty bucket looked at three times, 50 ms after its last refill. */
  lemma ThreeLate(start: int)
    ensures var later := start + 50 * MILLI;
            && Check(Bucket(0, start), later) == (Bucket(2, later), true)
            && Check(Bucket(2, later), later) == (Bucket(1, later), true)
            && Check(Bucket(1, later), later) == (Bucket(0, later), true)
  {
    assert Refill(50 * MILLI) == 3 && Refill(0) == 0;
  }

  lemma BurstAdmitted(b: Bucket, now: int)
    requires b.tokens == MAX_TOKENS && 0 <= now - b.lastRefill < 17 * MILLI
    ensures NonDecreasing(Burst(b, now)) && Run(b, Burst(b, now)).1 == 123
  {
    var later := b.lastRefill + 50 * MILLI;
    var first := seq(MAX_TOKENS, i => now);
    BurstInOrder(b, now);
    ThreeLate(b.lastRefill);
    SpendAll(b, now, MAX_TOKENS);
    RunAfter(b, first, later);
    RunAfter(b, first + [later], later);
    RunAfter(b, first + [later] + [later], later);
  }

  /**
   A bound of 121 + 60 * D, D in seconds, would allow for one token of delay. It holds for all
   requests that start at a given time, unless the bucket is full and its last refill is more
   than 16.666666 ms but less than 17 ms ago: then 123 requests can get through in 33 ms.
   */
  lemma SimpleBoundExactly(b: Bucket, now: int)
    requires Sane(b, now)
    ensures (forall times | times != [] && NonDecreasing(times) && times[0] == now ::
               NANOS * Run(b, times).1 <= 121 * NANOS + 60 * (times[|times| - 1] - times[0]))
            <==> !(b.tokens == MAX_TOKENS && 16_666_666 < now - b.lastRefill < 17_000_000)
  {
    if b.tokens == MAX_TOKENS && 16_666_666 < now - b.lastRefill < 17_000_000 {
      BurstAdmitted(b, now);
      var times := Burst(b, now);
      assert times[0] == now && times[|times| - 1] == b.lastRefill + 50 * MILLI;
      assert NANOS * Run(b, times).1 > 121 * NANOS + 60 * (times[|times| - 1] - times[0]);
    } else {
      forall times | times != [] && NonDecreasing(times) && times[0] == now
        ensures NANOS * Run(b, times).1 <= 121 * NANOS + 60 * (times[|times| - 1] - times[0])
      {
        var start, base := RunAccounted(b, times);
      }
    }
  }

  /** A sender that waits at least 17 ms after its previous request, admitted or not, is admitted. */
  lemma PacedSenderAdmitted(b: Bucket, previous: int, now: int)
    requires Sane(b, previous) && previous + 17 * MILLI <= now
    ensures Check(Check(b, previous).0, now).1
  {
    var b1 := Check(b, previous).0;
    assert 0 <= b1.tokens && b1.lastRefill <= previous;
    RefillIsEarned(previous - b.lastRefill);
    RefillIsEarned(now - b1.lastRefill);
  }

  /** 17 ms is exact: an emptied bucket refuses every request before 17 ms have passed. */
  lemma ShorterWaitCanBeRefused(wait: int)
    requires 0 <= wait
    ensures Check(Bucket(0, 0), wait).1 <==> 17 * MILLI <= wait
  {
    RefillIsEarned(wait);
  }
}
