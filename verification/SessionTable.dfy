/**
 The table of registered sessions, spread over shards by session id, and the
 nickname index beside it.
 */
module SessionTable {
  import opened Wrappers
  import opened Sessions

  const TWO_64: nat := 0x1_0000_0000_0000_0000

  /** The id is converted to an unsigned 64-bit number before the remainder is taken. */
  function ShardOf(id: int, shards: nat): (k: nat)
    requires shards > 0
    ensures k < shards
  {
    id % TWO_64 % shards
  }

  type Buckets<V> = seq<map<int, V>>

  function AddTo<V>(bs: Buckets<V>, id: int, v: V): Buckets<V>
    requires bs != []
  {
    var k := ShardOf(id, |bs|);
    bs[k := bs[k][id := v]]
  }

  function RemoveFrom<V>(bs: Buckets<V>, id: int): Buckets<V>
    requires bs != []
  {
    var k := ShardOf(id, |bs|);
    bs[k := bs[k] - {id}]
  }

  function FindIn<V>(bs: Buckets<V>, id: int): Option<V>
    requires bs != []
  {
    Lookup(bs[ShardOf(id, |bs|)], id)
  }

  function CountIn<V>(bs: Buckets<V>): nat {
    if bs == [] then 0 else CountIn(bs[..|bs| - 1]) + |bs[|bs| - 1]|
  }

  /** The single map that the shards stand for. */
  function Union<V>(bs: Buckets<V>): map<int, V> {
    if bs == [] then map[] else Union(bs[..|bs| - 1]) + bs[|bs| - 1]
  }

  /** Every id of the first n buckets is in the bucket that the sharding assigns it. */
  ghost predicate PlacedUpTo<V>(bs: Buckets<V>, n: nat, shards: nat) {
    n <= |bs| && shards > 0 &&
    forall k, id | 0 <= k < n && id in bs[k] :: ShardOf(id, shards) == k
  }

  ghost predicate Placed<V>(bs: Buckets<V>) {
    PlacedUpTo(bs, |bs|, |bs|)
  }

  lemma {:induction false} UnionUpTo<V>(bs: Buckets<V>, n: nat, shards: nat, id: int)
    requires PlacedUpTo(bs, n, shards)
    ensures id in Union(bs[..n]) <==> ShardOf(id, shards) < n && id in bs[ShardOf(id, shards)]
    ensures id in Union(bs[..n]) ==> Union(bs[..n])[id] == bs[ShardOf(id, shards)][id]
    decreases n
  {
    if n > 0 {
      assert bs[..n][..n - 1] == bs[..n - 1];
      UnionUpTo(bs, n - 1, shards, id);
    }
  }

  /** Looking in one shard is looking in the single map. */
  lemma UnionAt<V>(bs: Buckets<V>, id: int)
    requires Placed(bs)
    ensures FindIn(bs, id) == Lookup(Union(bs), id)
  {
    assert bs[..|bs|] == bs;
    UnionUpTo(bs, |bs|, |bs|, id);
  }

  lemma UnionAdd<V>(bs: Buckets<V>, id: int, v: V)
    requires Placed(bs)
    ensures Placed(AddTo(bs, id, v)) && Union(AddTo(bs, id, v)) == Union(bs)[id := v]
  {
    var bs' := AddTo(bs, id, v);
    forall j
      ensures Lookup(Union(bs'), j) == Lookup(Union(bs)[id := v], j)
    {
      UnionAt(bs, j);
      UnionAt(bs', j);
    }
    SameLookups(Union(bs'), Union(bs)[id := v]);
  }

  lemma UnionRemove<V>(bs: Buckets<V>, id: int)
    requires Placed(bs)
    ensures Placed(RemoveFrom(bs, id)) && Union(RemoveFrom(bs, id)) == Union(bs) - {id}
  {
    var bs' := RemoveFrom(bs, id);
    forall j
      ensures Lookup(Union(bs'), j) == Lookup(Union(bs) - {id}, j)
    {
      UnionAt(bs, j);
      UnionAt(bs', j);
    }
    SameLookups(Union(bs'), Union(bs) - {id});
  }

  lemma SameLookups<V>(a: map<int, V>, b: map<int, V>)
    requires forall j :: Lookup(a, j) == Lookup(b, j)
    ensures a == b
  {
    forall j
      ensures j in a <==> j in b
      ensures j in a ==> a[j] == b[j]
    {
      assert Lookup(a, j) == Lookup(b, j);
    }
  }

  lemma {:induction false} CountUpTo<V>(bs: Buckets<V>, n: nat, shards: nat)
    requires PlacedUpTo(bs, n, shards)
    ensures CountIn(bs[..n]) == |Union(bs[..n])|
    decreases n
  {
    if n > 0 {
      assert bs[..n][..n - 1] == bs[..n - 1];
      CountUpTo(bs, n - 1, shards);
      var u, b := Union(bs[..n - 1]), bs[n - 1];
      forall id | id in u
        ensures id !in b
      {
        UnionUpTo(bs, n - 1, shards, id);
      }
      assert (u + b).Keys == u.Keys + b.Keys;
      assert |u + b| == |(u + b).Keys| == |u.Keys| + |b.Keys|;
    }
  }

  // ------------------------------------------------------------------- runs

  datatype TableOp<V> = Put(id: int, v: V) | Drop(id: int)

  function RunSharded<V>(shards: nat, ops: seq<TableOp<V>>): (bs: Buckets<V>)
    requires shards > 0
    ensures |bs| == shards
    decreases |ops|
  {
    if ops == [] then seq(shards, i => map[])
    else
      var bs := RunSharded(shards, ops[..|ops| - 1]);
      match ops[|ops| - 1]
      case Put(id, v) => AddTo(bs, id, v)
      case Drop(id) => RemoveFrom(bs, id)
  }

  function RunFlat<V>(ops: seq<TableOp<V>>): map<int, V> {
    if ops == [] then map[]
    else
      var m := RunFlat(ops[..|ops| - 1]);
      match ops[|ops| - 1]
      case Put(id, v) => m[id := v]
      case Drop(id) => m - {id}
  }

  lemma {:induction false} EmptyUnion<V>(bs: Buckets<V>)
    requires forall k | 0 <= k < |bs| :: bs[k] == map[]
    ensures Union(bs) == map[]
  {
    if bs != [] {
      EmptyUnion(bs[..|bs| - 1]);
    }
  }

  /**
   For every sequence of additions and removals, of any ids, and any number of
   shards: a lookup, the number of sessions and the contents are those of one
   unsharded map.
   */
  lemma {:induction false} ShardedRefinesFlat<V>(shards: nat, ops: seq<TableOp<V>>, id: int)
    requires shards > 0
    ensures var bs := RunSharded(shards, ops);
            && Placed(bs)
            && Union(bs) == RunFlat(ops)
            && FindIn(bs, id) == Lookup(RunFlat(ops), id)
            && CountIn(bs) == |RunFlat(ops)|
    decreases |ops|
  {
    var bs := RunSharded(shards, ops);
    if ops == [] {
      EmptyUnion(bs);
    } else {
      var init := ops[..|ops| - 1];
      ShardedRefinesFlat(shards, init, id);
      match ops[|ops| - 1]
      case Put(i, v) => UnionAdd(RunSharded(shards, init), i, v);
      case Drop(i) => UnionRemove(RunSharded(shards, init), i);
    }
    UnionAt(bs, id);
    CountUpTo(bs, |bs|, |bs|);
    assert bs[..|bs|] == bs;
  }

  // ---------------------------------------------------------- the class

  /** The ids and sessions of a map, each once. */
  ghost predicate Enumerates<V>(ids: seq<int>, vs: seq<V>, m: map<int, V>) {
    && |ids| == |vs|
    && (forall i, j | 0 <= i < j < |ids| :: ids[i] != ids[j])
    && (forall k | 0 <= k < |ids| :: ids[k] in m && m[ids[k]] == vs[k])
    && (forall id {:trigger id in ids} | id in m :: id in ids)
  }

  class SessionManager {
    var sessionBuckets: seq<map<int, Session>>
    var nicknameIndex: map<string, Session>

    ghost predicate Valid()
      reads this
    {
      Placed(sessionBuckets)
    }

    /** The registered sessions by id. */
    ghost function Table(): map<int, Session>
      reads this
    {
      Union(sessionBuckets)
    }

    constructor (shardCount: nat)
      requires shardCount > 0
      ensures Valid() && Table() == map[] && nicknameIndex == map[]
    {
      sessionBuckets := seq(shardCount, i => map[]);
      nicknameIndex := map[];
      new;
      EmptyUnion(sessionBuckets);
    }

    /** A session of another generation that is registered under the same id. */
    ghost function Earlier(session: Session): Session?
      reads this, session, Table().Values
    {
      if session.id in Table() && Table()[session.id].generation != session.generation
      then Table()[session.id] else null
    }

    /**
     A session of another generation that was registered under the same id is
     returned, for the caller to close.
     */
    method AddSession(session: Session) returns (replaced: Session?)
      requires Valid()
      modifies this`sessionBuckets
      ensures Valid() && Table() == old(Table())[session.id := session]
      ensures replaced == old(Earlier(session))
    {
      UnionAt(sessionBuckets, session.id);
      UnionAdd(sessionBuckets, session.id, session);
      var shard := ShardOf(session.id, |sessionBuckets|);
      replaced := null;
      var bucket := sessionBuckets[shard];
      if session.id in bucket {
        var prev := bucket[session.id];
        if prev.generation != session.generation {
          replaced := prev;
        }
      }
      sessionBuckets := sessionBuckets[shard := bucket[session.id := session]];
    }

    method RemoveSession(id: int) returns (removed: Session?)
      requires Valid()
      modifies this`sessionBuckets
      ensures Valid() && Table() == old(Table()) - {id}
      ensures removed == if id in old(Table()) then old(Table())[id] else null
    {
      UnionAt(sessionBuckets, id);
      UnionRemove(sessionBuckets, id);
      var shard := ShardOf(id, |sessionBuckets|);
      removed := null;
      if id in sessionBuckets[shard] {
        removed := sessionBuckets[shard][id];
        sessionBuckets := sessionBuckets[shard := sessionBuckets[shard] - {id}];
      } else {
        assert sessionBuckets[shard] - {id} == sessionBuckets[shard];
        assert sessionBuckets == RemoveFrom(sessionBuckets, id);
      }
    }

    method FindSession(id: int) returns (s: Session?)
      requires Valid()
      ensures s == if id in Table() then Table()[id] else null
    {
      UnionAt(sessionBuckets, id);
      var shard := ShardOf(id, |sessionBuckets|);
      s := if id in sessionBuckets[shard] then sessionBuckets[shard][id] else null;
    }

    method SessionCount() returns (total: nat)
      requires Valid()
      ensures total == |Table()|
    {
      total := 0;
      var shard := 0;
      while shard < |sessionBuckets|
        invariant shard <= |sessionBuckets| && total == CountIn(sessionBuckets[..shard])
      {
        assert sessionBuckets[..shard + 1][..shard] == sessionBuckets[..shard];
        total := total + |sessionBuckets[shard]|;
        shard := shard + 1;
      }
      CountUpTo(sessionBuckets, |sessionBuckets|, |sessionBuckets|);
      assert sessionBuckets[..|sessionBuckets|] == sessionBuckets;
    }

    /** The snapshot that for_each_session takes shard by shard: every session once, in some order. */
    method Snapshot() returns (ids: seq<int>, sessions: seq<Session>)
      requires Valid()
      ensures Enumerates(ids, sessions, Table())
    {
      ids, sessions := [], [];
      var shard := 0;
      while shard < |sessionBuckets|
        invariant shard <= |sessionBuckets|
        invariant Enumerates(ids, sessions, Union(sessionBuckets[..shard]))
      {
        var moreIds, more := ListBucket(sessionBuckets[shard]);
        EnumerateNext(sessionBuckets, shard, ids, sessions, moreIds, more);
        ids, sessions := ids + moreIds, sessions + more;
        shard := shard + 1;
      }
      assert sessionBuckets[..|sessionBuckets|] == sessionBuckets;
    }

    static method ListBucket(bucket: map<int, Session>) returns (ids: seq<int>, sessions: seq<Session>)
      ensures Enumerates(ids, sessions, bucket)
    {
      ids, sessions := [], [];
      var rest := bucket.Items;
      while rest != {}
        invariant rest <= bucket.Items
        invariant |ids| == |sessions|
        invariant forall i, j | 0 <= i < j < |ids| :: ids[i] != ids[j]
        invariant forall k | 0 <= k < |ids| ::
            ids[k] in bucket && (ids[k], bucket[ids[k]]) !in rest && bucket[ids[k]] == sessions[k]
        invariant forall id | id in bucket :: (id, bucket[id]) in rest || id in ids
        decreases rest
      {
        var entry :| entry in rest;
        rest := rest - {entry};
        ids, sessions := ids + [entry.0], sessions + [entry.1];
      }
    }

    static lemma EnumerateNext(bs: seq<map<int, Session>>, n: nat, ids: seq<int>, vs: seq<Session>,
                               moreIds: seq<int>, more: seq<Session>)
      requires Placed(bs) && n < |bs|
      requires Enumerates(ids, vs, Union(bs[..n])) && Enumerates(moreIds, more, bs[n])
      ensures Enumerates(ids + moreIds, vs + more, Union(bs[..n + 1]))
    {
      assert bs[..n + 1][..n] == bs[..n];
      forall k | 0 <= k < |ids|
        ensures ids[k] !in bs[n]
      {
        UnionUpTo(bs, n, |bs|, ids[k]);
      }
    }

    method RegisterNickname(nickname: string, session: Session)
      modifies this`nicknameIndex
      ensures nicknameIndex == old(nicknameIndex)[nickname := session]
    {
      nicknameIndex := nicknameIndex[nickname := session];
    }

    method FindSessionByNickname(nickname: string) returns (s: Session?)
      ensures s == if nickname in nicknameIndex then nicknameIndex[nickname] else null
    {
      s := if nickname in nicknameIndex then nicknameIndex[nickname] else null;
    }
  }
}
