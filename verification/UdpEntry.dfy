/**
 Where datagrams enter: the socket's handler, the data handler and the limiters at work
 together, each method proved against the step of UdpAdmission. A session's bucket is kept
 beside it here, by the session's place in the pool.
 */
module UdpEntries {
  import opened Wrappers
  import opened Sessions
  import opened Worlds
  import opened DataHandlers
  import opened UdpAdmission
  import TB = TokenBucket
  import SL = ShardedLimiter

  class UdpEntry {
    const handler: DataHandler
    const limiter: SL.UdpRateLimiterShard
    const totalLimitPerSec: nat
    var buckets: seq<TB.UdpBucket>
    /** What is in the buckets. */
    ghost var levels: seq<TB.Bucket>

    ghost predicate Levels()
      reads this, buckets
    {
      && |levels| == |buckets|
      && (forall i | 0 <= i < |buckets| :: buckets[i].Model() == levels[i])
      && (forall i, j | 0 <= i < j < |buckets| :: buckets[i] != buckets[j])
    }

    ghost predicate Valid()
      reads this, buckets, limiter, handler, handler.sessionPool, handler.sessionManager
      reads handler.sessionPool.pool, handler.zoneManager.zones.Values
    {
      handler.Valid() && limiter.Valid() && Levels() && |levels| == |handler.model.sess|
    }

    ghost function Model(): Guarded
      reads this, handler, limiter, limiter.counts, limiter.windowSecs
    {
      Guarded(handler.model, limiter.Model(), totalLimitPerSec, levels)
    }

    constructor (shards: nat, udpShards: nat, limit: nat, c: Config)
      requires shards > 0
      ensures Valid() && Model() == Launch(c, udpShards, limit)
    {
      var made, contents := MakeBuckets(c.poolSize, c.clock);
      handler := new DataHandler(shards, c);
      limiter := new SL.UdpRateLimiterShard(udpShards);
      totalLimitPerSec := limit;
      buckets, levels := made, contents;
    }

    static method MakeBuckets(n: nat, now: int) returns (made: seq<TB.UdpBucket>, ghost contents: seq<TB.Bucket>)
      ensures |made| == n && contents == seq(n, k => TB.Bucket(TB.MAX_TOKENS, now))
      ensures forall i | 0 <= i < n :: fresh(made[i]) && made[i].Model() == contents[i]
      ensures forall i, j | 0 <= i < j < n :: made[i] != made[j]
    {
      made, contents := [], [];
      var i := 0;
      while i < n
        invariant i == |made| <= n && contents == seq(i, k => TB.Bucket(TB.MAX_TOKENS, now))
        invariant forall k | 0 <= k < i :: fresh(made[k]) && made[k].Model() == contents[k]
        invariant forall j, k | 0 <= j < k < i :: made[j] != made[k]
      {
        var bucket := new TB.UdpBucket(now);
        made, contents := made + [bucket], contents + [TB.Bucket(TB.MAX_TOKENS, now)];
        i := i + 1;
      }
    }

    /** A session that the pool makes for the client comes with a full bucket. */
    method AcceptSession()
      requires Valid()
      modifies this`buckets, this`levels, handler, handler.sessionManager, handler.sessionPool
      modifies handler.sessionPool.pool, handler.zoneManager.zones.Values
      ensures Valid() && Model() == Advance(old(Model()), Other(AcceptStep))
    {
      ghost var g := Model();
      AcceptAdvances(g);
      TakeClient();
      assert limiter.Model() == g.limiter;
      assert Model() == g.(world := handler.model, buckets := levels);
    }

    method TakeClient()
      requires Valid()
      modifies this`buckets, this`levels, handler, handler.sessionManager, handler.sessionPool
      modifies handler.sessionPool.pool, handler.zoneManager.zones.Values
      ensures Valid() && handler.model == Accept(old(handler.model))
      ensures levels == if |handler.model.sess| > |old(levels)|
                        then old(levels) + [TB.Bucket(TB.MAX_TOKENS, handler.model.clock)] else old(levels)
    {
      handler.AcceptSession();
      label Accepted:
      if |handler.sessionPool.pool| > |buckets| {
        AddBucket(handler.clock);
      }
      handler.Kept@Accepted();
    }

    method AddBucket(now: int)
      requires Levels()
      modifies this`buckets, this`levels
      ensures Levels() && levels == old(levels) + [TB.Bucket(TB.MAX_TOKENS, now)]
      ensures |buckets| == |old(buckets)| + 1 && buckets[..|old(buckets)|] == old(buckets)
      ensures fresh(buckets[|old(buckets)|])
    {
      var bucket := new TB.UdpBucket(now);
      buckets, levels := buckets + [bucket], levels + [TB.Bucket(TB.MAX_TOKENS, now)];
    }

    /** The session's bucket is asked for a token. */
    method AskBucket(i: nat) returns (ok: bool)
      requires i < |buckets| && Levels() && levels[i].lastRefill <= handler.clock
      modifies this`levels, buckets[i]
      ensures Levels() && levels == old(levels)[i := TB.Check(old(levels)[i], handler.clock).0]
      ensures ok == TB.Check(old(levels)[i], handler.clock).1
    {
      ok := buckets[i].CheckUdpRateLimit(handler.clock);
      levels := levels[i := TB.Check(levels[i], handler.clock).0];
    }

    method AskServer(slot: nat) returns (ok: bool)
      requires Valid()
      modifies limiter.counts, limiter.windowSecs
      ensures Valid()
      ensures (limiter.Model(), ok) == SL.Call(old(limiter.Model()), Second(handler.model),
                                               UdpAdmission.ShardOf(old(limiter.Model()), slot), totalLimitPerSec)
    {
      ok := limiter.ShardedUdpRateLimit(handler.clock / NANOS_PER_SECOND, slot, totalLimitPerSec);
      handler.Kept();
    }

    /**
     The UDP socket's handler: the session that the endpoint index has for the sender pays a
     token, and if it can, or if there is no such session, the datagram is looked at.
     */
    method ReceiveDatagram(p: Packet, slot: nat)
      requires Valid() && BucketsSane(Model())
      modifies this`levels, buckets, limiter.counts, limiter.windowSecs
      modifies handler`udpEndpointToSession, handler`model, handler.sessionPool.pool
      ensures Valid() && Model() == Receive(old(Model()), p, slot)
    {
      var ok := ChargeSender(p.from);
      if ok {
        OnUdpReceive(p, slot);
      }
    }

    method ChargeSender(from: Endpoint) returns (ok: bool)
      requires Valid() && BucketsSane(Model())
      modifies this`levels, buckets
      ensures Valid() && BucketsSane(Model()) && (Model(), ok) == Enter(old(Model()), from)
    {
      ghost var g := Model();
      EnterSane(g, from);
      ok := true;
      if from in handler.udpEndpointToSession {
        var session := handler.udpEndpointToSession[from];
        assert Named(g, from) == Some(session.index);
        assert BucketsSane(g) && levels[session.index] == g.buckets[session.index];
        ok := AskBucket(session.index);
        handler.Kept();
      }
    }

    /** The limiter answers first, then the checks, then the sender's bucket. */
    method OnUdpReceive(p: Packet, slot: nat)
      requires Valid() && BucketsSane(Model())
      modifies this`levels, buckets, limiter.counts, limiter.windowSecs
      modifies handler`udpEndpointToSession, handler`model, handler.sessionPool.pool
      ensures Valid() && Model() == OnDatagram(old(Model()), p, slot)
    {
      var globalOk := AskServer(slot);
      ghost var l := limiter.Model();
      assert BucketsSane(Model());
      if globalOk {
        Admit(p);
      }
      assert limiter.Model() == l;
    }

    /** What a datagram comes to once the server-wide limiter has let it in. */
    ghost predicate Admitted(w: World, before: seq<TB.Bucket>, p: Packet)
      requires |before| == |w.sess|
      reads this, handler
    {
      match Screen(w, p)
      case Refused => levels == before && handler.model == w
      case Expired(i) => levels == before && handler.model == ClearToken(w, i)
      case Passed(i) =>
        var (b, ok) := TB.Check(before[i], w.clock);
        levels == before[i := b] && handler.model == if ok then Dispatch(w, i, p) else w
    }

    method Admit(p: Packet)
      requires Valid() && BucketsSane(Model())
      modifies this`levels, buckets, handler`udpEndpointToSession, handler`model, handler.sessionPool.pool
      ensures Valid() && Admitted(old(handler.model), old(levels), p)
    {
      if p.nickname != "" {
        var session := handler.sessionManager.FindSessionByNickname(p.nickname);
        if session != null {
          AdmitFrom(session, p);
        }
      }
    }

    method AdmitFrom(s: Session, p: Packet)
      requires Valid() && BucketsSane(Model())
      requires handler.Ours(s) && p.nickname != "" && Lookup(handler.model.nicks, p.nickname) == Some(s.index)
      modifies this`levels, buckets, handler`udpEndpointToSession, handler`model, s
      ensures Valid() && Admitted(old(handler.model), old(levels), p)
    {
      var passed := AskHandler(s, p);
      if passed {
        Charge(s, p);
      }
    }

    method AskHandler(s: Session, p: Packet) returns (passed: bool)
      requires Valid() && BucketsSane(Model())
      requires handler.Ours(s) && p.nickname != "" && Lookup(handler.model.nicks, p.nickname) == Some(s.index)
      modifies handler`model, s
      ensures Valid() && BucketsSane(Model())
      ensures var v := Screen(old(handler.model), p);
              && (if passed then v == Passed(s.index) else v == Refused || v == Expired(s.index))
              && handler.model == if v.Expired? then ClearToken(old(handler.model), s.index) else old(handler.model)
    {
      passed := handler.ScreenDatagram(s, p);
    }

    /** A datagram that passed the checks costs its session a token, and is dispatched if there was one. */
    method Charge(s: Session, p: Packet)
      requires Valid() && BucketsSane(Model()) && handler.Ours(s)
      modifies this`levels, buckets, handler`udpEndpointToSession, handler`model, s
      ensures Valid()
      ensures var w := old(handler.model);
              var (b, ok) := TB.Check(old(levels)[s.index], w.clock);
              levels == old(levels)[s.index := b] && handler.model == if ok then Dispatch(w, s.index, p) else w
    {
      assert BucketsSane(Model()) && levels[s.index] == Model().buckets[s.index];
      var userOk := AskBucket(s.index);
      handler.Kept();
      if userOk {
        handler.Dispatch(s, p);
      }
    }
  }
}
