/**
 Closing a session and handing one out, each in one piece: what the sequences of
 effects amount to in the states that runs reach.
 */
module Effects {
  import opened Wrappers
  import opened Sessions
  import opened Pools
  import opened Worlds

  /** What closing leaves of the record of a registered, and of any other session. */
  function Gone(s: Sess): Sess {
    s.(state := Closed, nickname := "", endpoint := None, token := "", issued := 0, zoneId := -1,
       generation := s.generation + 2, life := Idle)
  }

  function GoneAgain(s: Sess): Sess {
    s.(state := Closed).Cleanup()
  }

  function ZonesWithout(w: World, s: Sess): map<int, map<int, nat>> {
    if s.zoneId > -1 && s.zoneId in w.zones then w.zones[s.zoneId := w.zones[s.zoneId] - {s.id}] else w.zones
  }

  function EndpointsWithout(w: World, i: nat): map<Endpoint, nat>
    requires i < |w.sess|
  {
    match w.sess[i].endpoint
    case None => w.eps
    case Some(e) => if e in w.eps && w.eps[e] == i then w.eps - {e} else w.eps
  }

  /** The effect of closing a registered session. */
  function AfterClose(w: World, i: nat): World
    requires i < |w.sess|
  {
    var s := w.sess[i];
    w.(table := w.table - {s.id},
       eps := EndpointsWithout(w, i),
       zones := ZonesWithout(w, s),
       pool := Release(w.pool, i).0,
       sess := w.sess[i := Gone(s)],
       trace := w.trace + [Voided(i)] + [Voided(i)] + [Voided(i)])
  }

  /** The effect of closing a session that is not in the table: only its own record changes. */
  function AfterCloseAgain(w: World, i: nat): World
    requires i < |w.sess|
  {
    w.(sess := w.sess[i := GoneAgain(w.sess[i])], trace := w.trace + [Voided(i)])
  }

  function Removed(s: Sess): Sess {
    s.ClearToken().Cleanup().(life := Released)
  }

  lemma DropEndpointEffect(w: World, i: nat)
    requires i < |w.sess|
    ensures DropEndpoint(w, i) == w.(eps := EndpointsWithout(w, i))
  {
  }

  predicate Admits(w: World, i: nat, z: int)
    requires i < |w.sess| && z in w.zones
  {
    |w.zones[z]| < w.zoneCap && w.sess[i].id !in w.zones[z]
  }

  /** The zone has admitted the session, which does not know it yet, or has refused it. */
  function Answered(w: World, i: nat, z: int, ok: bool): World
    requires i < |w.sess| && z in w.zones
  {
    var members: map<int, nat> := if ok then w.zones[z][w.sess[i].id := i] else w.zones[z];
    w.(zones := w.zones[z := members])
  }

  lemma AssignZoneEffect(w: World, i: nat, z: int)
    requires i < |w.sess| && z in w.zones
    ensures var ok := Admits(w, i, z);
            var w' := Answered(w, i, z, ok);
            AssignZone(w, i, z) == if ok then Put(w', i, w.sess[i].(zoneId := z)) else w'
  {
  }

  lemma LeaveZoneEffect(w: World, i: nat)
    requires i < |w.sess|
    ensures var s := w.sess[i];
            var z := if s.zoneId > -1 && s.zoneId in w.zones then -1 else s.zoneId;
            LeaveZone(w, i) == w.(zones := ZonesWithout(w, s), sess := w.sess[i := s.(zoneId := z)])
  {
  }

  lemma ReleaseEffect(w: World, i: nat)
    requires i < |w.sess| && Release(w.pool, i).1
    ensures ReleaseToPool(w, i) == w.(pool := Release(w.pool, i).0, trace := w.trace + [Voided(i)],
                                      sess := w.sess[i := w.sess[i].Cleanup().(life := Released)])
  {
  }

  lemma RemoveEffect(w: World, i: nat)
    requires Registered(w, i) && Release(w.pool, i).1
    ensures var s := w.sess[i];
            RemoveSession(w, s.id) == w.(
              table := w.table - {s.id}, eps := EndpointsWithout(w, i), zones := ZonesWithout(w, s),
              pool := Release(w.pool, i).0, sess := w.sess[i := Removed(s)],
              trace := w.trace + [Voided(i)] + [Voided(i)])
  {
    var s := w.sess[i];
    var w1 := DropEndpoint(w.(table := w.table - {s.id}), i);
    assert w1 == w.(table := w.table - {s.id}, eps := EndpointsWithout(w, i));
    var w2 := ClearToken(w1, i);
    LeaveZoneEffect(w2, i);
    var w3 := LeaveZone(w2, i);
    ReleaseEffect(w3, i);
    assert w3.sess[i].Cleanup().(life := Released) == Removed(s);
    assert w3.sess[i := Removed(s)] == w.sess[i := Removed(s)];
  }

  lemma CloseEffect(w: World, i: nat)
    requires Registered(w, i) && w.sess[i].Closable() && Release(w.pool, i).1
    ensures CloseSession(w, i) == AfterClose(w, i)
  {
    var s := w.sess[i];
    var s1 := s.(state := Closed, life := Finalized);
    var w0 := Put(w, i, s1);
    RemoveEffect(w0, i);
    assert w0.sess[i := Removed(s1)] == w.sess[i := Removed(s1)];
    assert w.sess[i := Removed(s1)][i := Gone(s)] == w.sess[i := Gone(s)];
  }

  lemma CloseAgainEffect(w: World, i: nat)
    requires i < |w.sess| && w.sess[i].Closable() && w.sess[i].id !in w.table
    ensures CloseSession(w, i) == AfterCloseAgain(w, i)
  {
    var s1 := w.sess[i].(state := Closed, life := Finalized);
    assert w.sess[i := s1][i := s1.Cleanup()] == w.sess[i := s1.Cleanup()];
  }

  lemma IdFreeWhenUnregistered(w: World, i: nat)
    requires TableInv(w) && i < |w.sess| && !Registered(w, i)
    ensures w.sess[i].id !in w.table
  {
  }

  /** The effect of handing out session i and putting it in the table. */
  function Accepted(w: World, i: nat): World
    requires i <= |w.sess|
  {
    HandOut(w, i).(table := w.table[w.nextId := i])
  }

  /** A session that is in the table under its own id is added without effect. */
  lemma AddAgainEffect(w: World, i: nat)
    requires Registered(w, i)
    ensures AddSession(w, i) == w
  {
    assert w.table[w.sess[i].id := i] == w.table;
  }

  lemma NextIdIsNew(w: World)
    requires TableInv(w)
    ensures w.nextId !in w.table
  {
  }

  lemma TakenQueue(w: World)
    requires PoolInv(w) && FreeInv(w)
    ensures var (p, r) := Acquire(w.pool);
            r.Some? ==>
              && r.value <= |w.sess|
              && (forall j :: j in p.queue <==> j in w.pool.queue && j != r.value)
              && p.size == (if r.value < |w.sess| then |w.sess| else |w.sess| + 1)
              && (r.value < |w.sess| <==> r.value in w.pool.queue)
              && FreeListInv(p, w.ever + {r.value})
  {
    var (p, r) := Acquire(w.pool);
    TakeKeepsFreeList(w.pool, w.ever);
    if r.Some? {
      if w.pool.queue != [] {
        assert w.pool.queue == [r.value] + p.queue;
        assert w.pool.queue[0] in w.pool.queue;
      } else {
        assert |w.sess| !in w.pool.queue;
      }
    }
  }

  lemma AcceptEffect(w: World)
    requires PoolInv(w) && FreeInv(w) && TableInv(w)
    ensures var (p, r) := Acquire(w.pool);
            && (r.None? ==> Accept(w) == w.(nextId := w.nextId + 1))
            && (r.Some? ==>
                  && r.value <= |w.sess| && Accept(w) == Accepted(w, r.value)
                  && (forall j :: j in p.queue <==> j in w.pool.queue && j != r.value)
                  && p.size == |Accepted(w, r.value).sess|
                  && (r.value < |w.sess| <==> r.value in w.pool.queue)
                  && FreeInv(Accept(w)))
  {
    TakenQueue(w);
    NextIdIsNew(w);
  }
}
