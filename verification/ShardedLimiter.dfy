/**
 The server-wide UDP limiter: one counter and one window second per shard, every
 thread counting in its own shard, all shards added up for each decision.
 */
module ShardedLimiter {

  datatype Limiter = Limiter(counts: seq<nat>, windows: seq<int>)

  predicate Shaped(l: Limiter) {
    |l.counts| == |l.windows|
  }

  function Fresh(shards: nat): Limiter {
    Limiter(seq(shards, i => 0), seq(shards, i => 0))
  }

  function Sum(counts: seq<nat>): nat {
    if counts == [] then 0 else Sum(counts[..|counts| - 1]) + counts[|counts| - 1]
  }

  /** One call at clock second `now` from a thread whose shard is `idx`. */
  function Call(l: Limiter, now: int, idx: nat, limit: nat): (r: (Limiter, bool))
    requires Shaped(l) && (l.counts != [] ==> idx < |l.counts|)
    ensures Shaped(r.0) && |r.0.counts| == |l.counts|
  {
    if l.counts == [] then (l, true)
    else
      var before := if l.windows[idx] == now then l.counts[idx] else 0;
      var l' := Limiter(l.counts[idx := before + 1], l.windows[idx := now]);
      (l', Sum(l'.counts) <= limit)
  }

  class UdpRateLimiterShard {
    const counts: array<nat>
    const windowSecs: array<int>

    ghost predicate Valid()
      reads this
    {
      counts.Length == windowSecs.Length && counts as object != windowSecs
    }

    ghost function Model(): Limiter
      reads this, counts, windowSecs
    {
      Limiter(counts[..], windowSecs[..])
    }

    constructor (shards: nat)
      ensures Valid() && fresh(counts) && fresh(windowSecs)
      ensures Model() == Fresh(shards)
    {
      counts := new nat[shards](i => 0);
      windowSecs := new int[shards](i => 0);
    }

    /** All shards added up, in a loop over them. */
    method Total() returns (total: nat)
      requires Valid()
      ensures total == Sum(counts[..])
    {
      total := 0;
      var i := 0;
      while i < counts.Length
        invariant 0 <= i <= counts.Length && total == Sum(counts[..i])
      {
        assert counts[..i + 1][..i] == counts[..i];
        total := total + counts[i];
        i := i + 1;
      }
      assert counts[..counts.Length] == counts[..];
    }

    /** `slot` is the hash of the calling thread's id. */
    method ShardedUdpRateLimit(now: int, slot: nat, limitPerSec: nat) returns (ok: bool)
      requires Valid()
      modifies counts, windowSecs
      ensures var n := counts.Length;
              (Model(), ok) == Call(old(Model()), now, if n == 0 then 0 else slot % n, limitPerSec)
    {
      ghost var m := Model();
      var shards := counts.Length;
      if shards == 0 {
        return true;
      }
      var idx := slot % shards;
      var oldSec := windowSecs[idx];
      if now != oldSec {
        windowSecs[idx] := now;
        counts[idx] := 0;
      }
      counts[idx] := counts[idx] + 1;
      var total := Total();
      ok := total <= limitPerSec;
      ghost var m' := Call(m, now, idx, limitPerSec).0;
      assert counts[..] == m'.counts;
      assert windowSecs[..] == m'.windows;
    }
  }

  // ------------------------------------------------------------------- runs

  datatype Request = Request(now: int, idx: nat)

  predicate WellTimed(shards: nat, reqs: seq<Request>) {
    && (forall k | 0 <= k < |reqs| :: reqs[k].idx < shards)
    && (forall i, j | 0 <= i < j < |reqs| :: reqs[i].now <= reqs[j].now)
  }

  /** The limiter after the requests, and the answer to each of them. */
  function Run(shards: nat, reqs: seq<Request>, limit: nat): (r: (Limiter, seq<bool>))
    requires forall k | 0 <= k < |reqs| :: reqs[k].idx < shards
    ensures Shaped(r.0) && |r.0.counts| == shards && |r.1| == |reqs|
    decreases |reqs|
  {
    if reqs == [] then (Fresh(shards), [])
    else
      var last := reqs[|reqs| - 1];
      var (l, oks) := Run(shards, reqs[..|reqs| - 1], limit);
      var (l', ok) := Call(l, last.now, last.idx, limit);
      (l', oks + [ok])
  }

  /** How many requests were made in second t. */
  function Made(reqs: seq<Request>, t: int): nat {
    if reqs == [] then 0
    else Made(reqs[..|reqs| - 1], t) + if reqs[|reqs| - 1].now == t then 1 else 0
  }

  /** How many requests of second t were admitted. */
  function Admitted(reqs: seq<Request>, oks: seq<bool>, t: int): nat
    requires |reqs| == |oks|
    decreases |reqs|
  {
    if reqs == [] then 0
    else
      var n := |reqs| - 1;
      Admitted(reqs[..n], oks[..n], t) + if reqs[n].now == t && oks[n] then 1 else 0
  }

  /** One call more. */
  lemma RunAfter(shards: nat, calls: seq<Request>, r: Request, limit: nat, second: int)
    requires WellTimed(shards, calls) && r.idx < shards
    requires forall k | 0 <= k < |calls| :: calls[k].now <= r.now
    ensures WellTimed(shards, calls + [r])
    ensures var (l, oks) := Run(shards, calls, limit);
            var (l', ok) := Call(l, r.now, r.idx, limit);
            && Run(shards, calls + [r], limit) == (l', oks + [ok])
            && Admitted(calls + [r], oks + [ok], second)
               == Admitted(calls, oks, second) + if ok && r.now == second then 1 else 0
  {
    assert (calls + [r])[..|calls|] == calls;
    var oks := Run(shards, calls, limit).1;
    var ok := Run(shards, calls + [r], limit).1[|calls|];
    assert (oks + [ok])[..|calls|] == oks;
  }

  function Init(l: Limiter): Limiter
    requires Shaped(l) && l.counts != []
  {
    Limiter(l.counts[..|l.counts| - 1], l.windows[..|l.counts| - 1])
  }

  /** The sum of the counts whose window is second t. */
  function Current(l: Limiter, t: int): nat
    requires Shaped(l)
    decreases |l.counts|
  {
    if l.counts == [] then 0
    else
      var n := |l.counts| - 1;
      Current(Init(l), t) + if l.windows[n] == t then l.counts[n] else 0
  }

  /** The sum of the counts left over from other seconds. */
  function Stale(l: Limiter, t: int): nat
    requires Shaped(l)
    decreases |l.counts|
  {
    if l.counts == [] then 0
    else
      var n := |l.counts| - 1;
      Stale(Init(l), t) + if l.windows[n] == t then 0 else l.counts[n]
  }

  lemma {:induction false} SumSplit(l: Limiter, t: int)
    requires Shaped(l)
    ensures Sum(l.counts) == Current(l, t) + Stale(l, t)
    decreases |l.counts|
  {
    if l.counts != [] {
      SumSplit(Init(l), t);
    }
  }

  function CountAt(l: Limiter, i: nat, t: int): nat
    requires Shaped(l) && i < |l.counts|
  {
    if l.windows[i] == t then l.counts[i] else 0
  }

  lemma {:induction false} CurrentUpdate(l: Limiter, t: int, i: nat, v: nat, w: int)
    requires Shaped(l) && i < |l.counts|
    ensures var l' := Limiter(l.counts[i := v], l.windows[i := w]);
            Current(l', t) == Current(l, t) - CountAt(l, i, t) + CountAt(l', i, t)
    decreases |l.counts|
  {
    var n := |l.counts| - 1;
    var l' := Limiter(l.counts[i := v], l.windows[i := w]);
    if i < n {
      CurrentUpdate(Init(l), t, i, v, w);
      assert Init(l') == Limiter(Init(l).counts[i := v], Init(l).windows[i := w]);
    } else {
      assert Init(l') == Init(l);
    }
  }

  /** One call adds one to the current second's counts, whichever shard it used. */
  lemma CallCounts(l: Limiter, now: int, idx: nat, limit: nat)
    requires Shaped(l) && idx < |l.counts|
    ensures Current(Call(l, now, idx, limit).0, now) == Current(l, now) + 1
  {
    var before := if l.windows[idx] == now then l.counts[idx] else 0;
    CurrentUpdate(l, now, idx, before + 1, now);
  }

  lemma {:induction false} NoneCurrent(l: Limiter, t: int)
    requires Shaped(l)
    requires forall i | 0 <= i < |l.counts| :: l.windows[i] == t ==> l.counts[i] == 0
    ensures Current(l, t) == 0
    decreases |l.counts|
  {
    if l.counts != [] {
      NoneCurrent(Init(l), t);
    }
  }

  lemma {:induction false} NoneMade(reqs: seq<Request>, t: int)
    requires forall k | 0 <= k < |reqs| :: reqs[k].now < t
    ensures Made(reqs, t) == 0
  {
    if reqs != [] {
      NoneMade(reqs[..|reqs| - 1], t);
    }
  }

  /** A window that has counted anything is not later than the last request. */
  ghost predicate NoFuture(l: Limiter, now: int) {
    Shaped(l) && forall i | 0 <= i < |l.counts| :: l.counts[i] != 0 ==> l.windows[i] <= now
  }

  /** In the current second the shards together have counted exactly the requests made. */
  lemma {:induction false} CurrentIsMade(shards: nat, reqs: seq<Request>, limit: nat, t: int)
    requires WellTimed(shards, reqs)
    requires forall k | 0 <= k < |reqs| :: reqs[k].now <= t
    ensures var l := Run(shards, reqs, limit).0; NoFuture(l, t) && Current(l, t) == Made(reqs, t)
    decreases |reqs|
  {
    if reqs == [] {
      NoneCurrent(Fresh(shards), t);
    } else {
      var init, last := reqs[..|reqs| - 1], reqs[|reqs| - 1];
      var l := Run(shards, init, limit).0;
      CurrentIsMade(shards, init, limit, last.now);
      if last.now == t {
        CallCounts(l, t, last.idx, limit);
      } else {
        NoneMade(reqs, t);
        NoneCurrent(Run(shards, reqs, limit).0, t);
      }
    }
  }

  /**
   For every run with a clock that does not go back, every choice of shards and
   at least one shard, each second admits at most `limit` requests.
   */
  lemma {:induction false} NeverOverAdmits(shards: nat, reqs: seq<Request>, limit: nat, t: int)
    requires WellTimed(shards, reqs) && shards > 0
    ensures Admitted(reqs, Run(shards, reqs, limit).1, t) <= limit
    ensures Admitted(reqs, Run(shards, reqs, limit).1, t) <= Made(reqs, t)
    decreases |reqs|
  {
    if reqs != [] {
      var n := |reqs| - 1;
      var init, last := reqs[..n], reqs[n];
      var (l, oks) := Run(shards, init, limit);
      var (l', all) := Run(shards, reqs, limit);
      NeverOverAdmits(shards, init, limit, t);
      assert all[..n] == oks;
      if last.now == t && all[n] {
        CurrentIsMade(shards, reqs, limit, t);
        SumSplit(l', t);
      }
    }
  }

  /**
   The exact rule: a request is admitted if and only if the requests made this
   second, itself included, plus the counts other shards still hold from earlier
   seconds, stay within the limit. The second term is what makes the limiter
   refuse more than it must.
   */
  lemma AdmittedExactly(shards: nat, reqs: seq<Request>, limit: nat)
    requires WellTimed(shards, reqs) && reqs != []
    ensures var now := reqs[|reqs| - 1].now;
            var (l, oks) := Run(shards, reqs, limit);
            oks[|reqs| - 1] <==> Made(reqs, now) + Stale(l, now) <= limit
  {
    var now := reqs[|reqs| - 1].now;
    CurrentIsMade(shards, reqs, limit, now);
    SumSplit(Run(shards, reqs, limit).0, now);
  }

  /**
   A shard that has counted `limit` requests and is not used again blocks every
   other shard, in that second and in every later one.
   */
  lemma {:induction false} IdleShardBlocksOthers(
      shards: nat, first: seq<Request>, later: seq<Request>, limit: nat, idle: nat)
    requires WellTimed(shards, first + later) && idle < shards
    requires forall k | 0 <= k < |first| :: first[k].idx < shards
    requires Run(shards, first, limit).0.counts[idle] >= limit
    requires forall k | 0 <= k < |later| :: later[k].idx != idle
    ensures var (l, oks) := Run(shards, first + later, limit);
            && l.counts[idle] >= limit
            && forall k | |first| <= k < |oks| :: !oks[k]
    decreases |later|
  {
    if later == [] {
      assert first + later == first;
    } else {
      var n := |later| - 1;
      assert (first + later)[..|first + later| - 1] == first + later[..n];
      assert later[n] == (first + later)[|first| + n];
      forall k | 0 <= k < |first + later[..n]|
        ensures (first + later[..n])[k] == (first + later)[k]
      {
      }
      IdleShardBlocksOthers(shards, first, later[..n], limit, idle);
      var l := Run(shards, first + later, limit).0;
      SumAtLeast(l.counts, idle, later[n].idx);
    }
  }

  /**
   An input for it, for every limit: one shard uses the limit up in one second, and the
   first request through the other shard, any number of seconds later, is refused.
   */
  lemma IdleShardInput(limit: nat, second: int, later: int)
    requires second < later
    ensures var reqs := seq(limit, i => Request(second, 0)) + [Request(later, 1)];
            && WellTimed(2, reqs)
            && Run(2, reqs, limit).1 == seq(limit, i => true) + [false]
            && Made(reqs, later) == 1
  {
    var first := seq(limit, i => Request(second, 0));
    var last := Request(later, 1);
    FillShard(limit, limit, second);
    RunAfter(2, first, last, limit, later);
    SumAtLeast(Call(Run(2, first, limit).0, later, 1, limit).0.counts, 0, 1);
    assert (first + [last])[..limit] == first;
    NothingLater(limit, second, later);
  }

  lemma {:induction false} NothingLater(k: nat, second: int, later: int)
    requires second < later
    ensures Made(seq(k, i => Request(second, 0)), later) == 0
  {
    if k > 0 {
      NothingLater(k - 1, second, later);
      assert seq(k, i => Request(second, 0))[..k - 1] == seq(k - 1, i => Request(second, 0));
    }
  }

  lemma {:induction false} FillShard(k: nat, limit: nat, second: int)
    requires k <= limit
    ensures Run(2, seq(k, i => Request(second, 0)), limit)
            == (Limiter([k, 0], [if k == 0 then 0 else second, 0]), seq(k, i => true))
  {
    var reqs := seq(k, i => Request(second, 0));
    if k > 0 {
      FillShard(k - 1, limit, second);
      assert reqs[..k - 1] == seq(k - 1, i => Request(second, 0));
      assert seq(k, i => true) == seq(k - 1, i => true) + [true];
      SumOfTwo(k, 0);
      var l := Run(2, reqs[..k - 1], limit).0;
      assert Call(l, second, 0, limit).0 == Limiter([k, 0], [second, 0]);
    } else {
      assert reqs == [] && seq(k, i => true) == [];
      assert Fresh(2).counts == [0, 0] && Fresh(2).windows == [0, 0];
    }
  }

  lemma SumOfTwo(a: nat, b: nat)
    ensures Sum([a, b]) == a + b
  {
    assert [a, b][..1] == [a] && [a][..0] == [];
    assert Sum([]) == 0 && Sum([a]) == a;
  }

  lemma {:induction false} SumAtLeast(s: seq<nat>, i: nat, j: nat)
    requires i < |s| && j < |s| && i != j
    ensures Sum(s) >= s[i] + s[j]
  {
    var n := |s| - 1;
    if i < n && j < n {
      SumAtLeast(s[..n], i, j);
    } else {
      SumAtLeastOne(s[..n], if i < n then i else j);
    }
  }

  lemma {:induction false} SumAtLeastOne(s: seq<nat>, i: nat)
    requires i < |s|
    ensures Sum(s) >= s[i]
  {
    if i < |s| - 1 {
      SumAtLeastOne(s[..|s| - 1], i);
    }
  }
}
