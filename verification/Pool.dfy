/**
 The session pool: a queue of reusable indices and a guard set against double
 release. The constructor fills only the queue, so the guard knows an index only
 after that index has been handed out and given back.
 */
module Pools {
  import opened Wrappers
  import opened Sessions

  datatype Pool = Pool(size: nat, max: nat, queue: seq<nat>, guard: set<nat>)

  function Init(size: nat, max: nat): Pool {
    Pool(size, max, seq(size, i => i), {})
  }

  /** Take the oldest reusable index, or grow, or fail at the maximum. */
  function Acquire(p: Pool): (Pool, Option<nat>) {
    if p.queue != [] then
      (p.(queue := p.queue[1..], guard := p.guard - {p.queue[0]}), Some(p.queue[0]))
    else if p.size >= p.max then (p, None)
    else (p.(size := p.size + 1), Some(p.size))
  }

  /** Give an index back; refused when it is not of this pool or the guard set has it. */
  function Release(p: Pool, i: nat): (Pool, bool) {
    if i >= p.size || i in p.guard then (p, false)
    else (p.(queue := p.queue + [i], guard := p.guard + {i}), true)
  }

  class SessionPool {
    var pool: seq<Session>
    var reusableIndices: seq<nat>
    var availableIndexSet: set<nat>
    const maxSize: nat

    /** Every session knows its place, and the queue names only places that exist. */
    ghost predicate Valid()
      reads this
    {
      && (forall i | 0 <= i < |pool| :: pool[i].index == i)
      && (forall k | 0 <= k < |reusableIndices| :: reusableIndices[k] < |pool|)
    }

    ghost function Model(): Pool
      reads this
    {
      Pool(|pool|, maxSize, reusableIndices, availableIndexSet)
    }

    /** Because places differ, the sessions do. */
    lemma PlacesDistinct()
      requires Valid()
      ensures forall i, j | 0 <= i < |pool| && 0 <= j < |pool| && pool[i] == pool[j] :: i == j
    {
    }

    constructor (poolSize: nat, maxSize: nat, now: int)
      ensures Valid() && Model() == Init(poolSize, maxSize)
      ensures forall i | 0 <= i < |pool| :: fresh(pool[i]) && pool[i].Value() == NewSess(now)
    {
      this.maxSize := maxSize;
      pool, reusableIndices, availableIndexSet := [], [], {};
      new;
      var i := 0;
      while i < poolSize
        invariant i == |pool| <= poolSize && availableIndexSet == {}
        invariant reusableIndices == seq(i, k => k)
        invariant forall k | 0 <= k < i :: fresh(pool[k]) && pool[k].index == k && pool[k].Value() == NewSess(now)
      {
        var s := new Session(i, now);
        pool := pool + [s];
        reusableIndices := reusableIndices + [i];
        i := i + 1;
      }
    }

    method AcquireSession(id: int, now: int) returns (sess: Session?)
      requires Valid()
      modifies this, pool
      ensures Valid()
      ensures var (p, r) := Acquire(old(Model()));
              && Model() == p
              && (r.None? <==> sess == null)
              && (sess != null ==> r.value < |pool| && sess == pool[r.value])
      ensures old(pool) <= pool && |pool| <= |old(pool)| + 1
      ensures |pool| > |old(pool)| ==> sess == pool[|old(pool)|] && fresh(sess)
      ensures sess != null ==>
              var i := Acquire(old(Model())).1.value;
              sess.Value() ==
              (if i < |old(pool)| then old(pool[i].Value()) else NewSess(now)).HandedOut(id, now)
      ensures forall j | 0 <= j < |old(pool)| && old(pool[j]) != sess :: pool[j].Value() == old(pool[j].Value())
    {
      PlacesDistinct();
      var idx;
      if |reusableIndices| == 0 {
        if |pool| >= maxSize {
          return null;
        }
        idx := |pool|;
        var newSession := new Session(idx, now);
        pool := pool + [newSession];
      } else {
        idx := reusableIndices[0];
        reusableIndices := reusableIndices[1..];
        availableIndexSet := availableIndexSet - {idx};
      }
      sess := pool[idx];
      sess.Reset(id, now);
      sess.SetActive(true);
      sess.Cleanup();
    }

    /** The place of a session in the pool, searched from the front. */
    method Find(s: Session) returns (idx: nat)
      ensures idx <= |pool|
      ensures idx < |pool| ==> pool[idx] == s
      ensures idx == |pool| ==> s !in pool
    {
      idx := 0;
      while idx < |pool| && pool[idx] != s
        invariant idx <= |pool| && s !in pool[..idx]
      {
        idx := idx + 1;
      }
    }

    method ReleaseSession(s: Session) returns (ok: bool)
      requires Valid()
      modifies this, s
      ensures Valid() && pool == old(pool)
      ensures s in pool ==> (Model(), ok) == Release(old(Model()), s.index)
      ensures s !in pool ==> !ok && Model() == old(Model())
      ensures s.Value() == if ok then old(s.Value()).Cleanup().(life := Released) else old(s.Value())
    {
      var idx := Find(s);
      if idx == |pool| {
        return false;
      }
      if idx in availableIndexSet {
        return false;
      }
      s.Cleanup();
      s.MarkReleased();
      s.SetActive(false);
      reusableIndices := reusableIndices + [idx];
      availableIndexSet := availableIndexSet + {idx};
      return true;
    }
  }

  // ------------------------------------------------------------- free list

  predicate Distinct(s: seq<nat>) {
    forall i, j | 0 <= i < j < |s| :: s[i] != s[j]
  }

  /**
   `ever` is the set of indices handed out at least once. An index that is in the
   queue is free; an index handed out before that is not in the queue is in use.
   */
  ghost predicate FreeListInv(p: Pool, ever: set<nat>) {
    && Distinct(p.queue)
    && (forall i | i in p.queue :: i < p.size)
    && (forall i | i in ever :: i < p.size)
    && (forall i | 0 <= i < p.size && i !in ever :: i in p.queue)
    && (forall i :: i in p.guard <==> i in p.queue && i in ever)
  }

  datatype PoolOp = Take | Give(i: nat)

  function Apply(p: Pool, ever: set<nat>, op: PoolOp): (Pool, set<nat>) {
    match op
    case Take =>
      var (p', r) := Acquire(p);
      (p', if r.Some? then ever + {r.value} else ever)
    case Give(i) => (Release(p, i).0, ever)
  }

  function RunPool(size: nat, max: nat, ops: seq<PoolOp>): (Pool, set<nat>) {
    if ops == [] then (Init(size, max), {})
    else
      var (p, ever) := RunPool(size, max, ops[..|ops| - 1]);
      Apply(p, ever, ops[|ops| - 1])
  }

  /** Every index given back is foreign to the pool or was handed out before. */
  ghost predicate Proper(size: nat, max: nat, ops: seq<PoolOp>) {
    forall k | 0 <= k < |ops| && ops[k].Give? ::
      var (p, ever) := RunPool(size, max, ops[..k]); ops[k].i >= p.size || ops[k].i in ever
  }

  lemma TakeKeepsFreeList(p: Pool, ever: set<nat>)
    requires FreeListInv(p, ever)
    ensures var (p', ever') := Apply(p, ever, Take); FreeListInv(p', ever')
    ensures var r := Acquire(p).1;
            && (r.None? <==> p.queue == [] && p.size >= p.max)
            && (r.Some? ==> r.value !in ever || r.value in p.queue)
            && (r.Some? ==> r.value !in Acquire(p).0.queue)
  {
    var (p', r) := Acquire(p);
    if p.queue != [] {
      assert p.queue == [r.value] + p'.queue;
      assert r.value in p.queue;
      forall i | i in p'.queue
        ensures i in p.queue && i != r.value
      {
        var k :| 0 <= k < |p'.queue| && p'.queue[k] == i;
        assert p.queue[k + 1] == i;
      }
    }
  }

  /**
   Giving back an index of the pool keeps the free list sound exactly when the
   index was handed out before: the guard set does not know the indices that the
   constructor queued, so giving one of those back would queue it twice.
   */
  lemma GiveKeepsFreeListExactly(p: Pool, ever: set<nat>, i: nat)
    requires FreeListInv(p, ever) && i < p.size
    ensures FreeListInv(Release(p, i).0, ever) <==> i in ever
  {
    var p' := Release(p, i).0;
    if i in ever {
      if i !in p.guard {
        assert p'.queue == p.queue + [i];
        forall j | j in p'.queue ensures j == i || j in p.queue {
        }
        assert i in p'.queue;
        forall j | j in p.queue ensures j in p'.queue {
        }
      }
    } else {
      var k :| 0 <= k < |p.queue| && p.queue[k] == i;
      assert p'.queue[k] == i && p'.queue[|p.queue|] == i;
    }
  }

  /** A second release of the same index, with nothing in between, changes nothing. */
  lemma DoubleReleaseIsNoOp(p: Pool, ever: set<nat>, i: nat)
    requires FreeListInv(p, ever) && i in ever
    ensures i in p.queue ==> Release(p, i) == (p, false)
    ensures i !in p.queue ==>
            Release(p, i).1 && Release(p, i).0.queue == p.queue + [i]
            && Release(Release(p, i).0, i) == (Release(p, i).0, false)
  {
  }

  lemma FreshFreeList(size: nat, max: nat)
    ensures FreeListInv(Init(size, max), {})
  {
    var q := Init(size, max).queue;
    forall i | 0 <= i < size ensures i in q {
      assert q[i] == i;
    }
  }

  /**
   Over every run in which only indices handed out before are given back, the
   queue has no duplicates, the guard set is exactly the queued indices that were
   ever handed out, and the pool stays within its maximum if it starts within it.
   */
  lemma {:induction false} FreeListOverRuns(size: nat, max: nat, ops: seq<PoolOp>)
    requires Proper(size, max, ops)
    ensures var (p, ever) := RunPool(size, max, ops);
            FreeListInv(p, ever) && p.max == max && (size <= max ==> p.size <= max)
    decreases |ops|
  {
    if ops == [] {
      FreshFreeList(size, max);
    } else {
      var n := |ops| - 1;
      forall k | 0 <= k < n
        ensures ops[..n][..k] == ops[..k]
      {
      }
      FreeListOverRuns(size, max, ops[..n]);
      var (p, ever) := RunPool(size, max, ops[..n]);
      match ops[n]
      case Take => TakeKeepsFreeList(p, ever);
      case Give(i) =>
        assert i >= p.size || i in ever;
        if i < p.size {
          GiveKeepsFreeListExactly(p, ever, i);
        }
    }
  }

  /** The indices that entered the queue: those queued at the start, then those given back, in order. */
  function Entered(size: nat, max: nat, ops: seq<PoolOp>): seq<nat> {
    if ops == [] then seq(size, i => i)
    else
      var prefix, op := ops[..|ops| - 1], ops[|ops| - 1];
      var p := RunPool(size, max, prefix).0;
      Entered(size, max, prefix) + if op.Give? && Release(p, op.i).1 then [op.i] else []
  }

  /** The indices handed out while some were queued, in order. */
  function Reused(size: nat, max: nat, ops: seq<PoolOp>): seq<nat> {
    if ops == [] then []
    else
      var prefix, op := ops[..|ops| - 1], ops[|ops| - 1];
      var p := RunPool(size, max, prefix).0;
      var r := Acquire(p).1;
      Reused(size, max, prefix) + if op.Take? && p.queue != [] && r.Some? then [r.value] else []
  }

  /**
   First in, first out: over all runs the indices reused are the indices that entered the
   queue, in the same order, and the queue is what of them is left; so it is always the one
   free the longest that is handed out next.
   */
  lemma {:induction false} ReuseInOrder(size: nat, max: nat, ops: seq<PoolOp>)
    ensures Entered(size, max, ops) == Reused(size, max, ops) + RunPool(size, max, ops).0.queue
    decreases |ops|
  {
    if ops != [] {
      var prefix, op := ops[..|ops| - 1], ops[|ops| - 1];
      ReuseInOrder(size, max, prefix);
      var p := RunPool(size, max, prefix).0;
      match op
      case Give(i) =>
      case Take =>
        if p.queue != [] {
          assert p.queue == [p.queue[0]] + p.queue[1..];
        }
    }
  }
}
