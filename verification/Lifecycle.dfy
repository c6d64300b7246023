/**
 The lifecycle of sessions over whole runs of the server: pool, table, zones and
 nickname index stay consistent with each other.
 */
module Lifecycle {
  import opened Wrappers
  import opened Sessions
  import opened Pools
  import opened Worlds
  import opened Effects

  // ----------------------------------------------- what closing keeps, part by part

  /** Closing changes the record of one session, which loses its place in the table. */
  lemma AfterCloseRegistered(w: World, i: nat)
    requires TableInv(w) && Registered(w, i)
    ensures forall j :: Registered(AfterClose(w, i), j) <==> Registered(w, j) && j != i
  {
  }

  lemma AfterCloseKeepsPool(w: World, i: nat)
    requires PoolInv(w) && FreeInv(w) && TableInv(w) && Registered(w, i)
    ensures Release(w.pool, i).1 && PoolInv(AfterClose(w, i)) && FreeInv(AfterClose(w, i))
    ensures AfterClose(w, i).pool.queue == w.pool.queue + [i] && i !in w.pool.queue
  {
  }

  lemma AfterCloseKeepsTable(w: World, i: nat)
    requires PoolInv(w) && FreeInv(w) && TableInv(w) && Registered(w, i)
    ensures TableInv(AfterClose(w, i))
  {
  }

  /** A member of a zone after the close was one before, and is not the session that was closed. */
  lemma StillMember(w: World, i: nat, z: int, id: int)
    requires TableInv(w) && ZonesWithinCap(w) && MembersRegistered(w) && Registered(w, i)
    requires z in w.zones && id in ZonesWithout(w, w.sess[i])[z]
    ensures id != w.sess[i].id && id in w.zones[z] && ZonesWithout(w, w.sess[i])[z][id] == w.zones[z][id]
    ensures id in w.table && w.table[id] != i
  {
    assert id in w.zones[z];
    assert w.sess[w.table[id]].zoneId == z;
  }

  lemma MemberStays(w: World, i: nat, z: int, id: int)
    requires TableInv(w) && ZonesWithinCap(w) && MembersRegistered(w) && Registered(w, i)
    requires z in w.zones && id in ZonesWithout(w, w.sess[i])[z]
    ensures var w' := AfterClose(w, i);
            && id in w'.table && w'.zones[z][id] == w'.table[id]
            && w'.table[id] < |w'.sess| && w'.sess[w'.table[id]].zoneId == z
  {
    StillMember(w, i, z, id);
    var j := w.table[id];
    assert w.zones[z][id] == j && j < |w.sess| && w.sess[j].zoneId == z;
    assert AfterClose(w, i).sess[j] == w.sess[j];
  }

  lemma AfterCloseKeepsMembers(w: World, i: nat)
    requires TableInv(w) && ZonesWithinCap(w) && MembersRegistered(w) && Registered(w, i)
    ensures MembersRegistered(AfterClose(w, i))
  {
    var zones := ZonesWithout(w, w.sess[i]);
    forall z, id | z in zones && id in zones[z]
      ensures id in AfterClose(w, i).table && AfterClose(w, i).zones[z][id] == AfterClose(w, i).table[id]
      ensures var j := AfterClose(w, i).table[id]; j < |w.sess| && AfterClose(w, i).sess[j].zoneId == z
    {
      assert z in w.zones;
      MemberStays(w, i, z, id);
    }
  }

  lemma AfterCloseKeepsCarriers(w: World, i: nat)
    requires TableInv(w) && CarriersAreMembers(w) && Registered(w, i)
    ensures CarriersAreMembers(AfterClose(w, i))
  {
  }

  lemma AfterCloseKeepsZones(w: World, i: nat)
    requires TableInv(w) && ZoneInv(w) && Registered(w, i)
    ensures ZoneInv(AfterClose(w, i))
  {
    AfterCloseKeepsMembers(w, i);
    AfterCloseKeepsCarriers(w, i);
    forall z | z in w.zones
      ensures |ZonesWithout(w, w.sess[i])[z]| <= w.zoneCap
    {
      SubmapSmaller(w.zones[z], w.sess[i].id);
    }
  }

  lemma SubmapSmaller(m: map<int, nat>, k: int)
    ensures |m - {k}| <= |m|
  {
  }

  lemma AfterCloseKeepsNicks(w: World, i: nat)
    requires TableInv(w) && NickInv(w) && Registered(w, i)
    ensures NickInv(AfterClose(w, i))
  {
  }

  lemma AfterCloseKeepsDefaultZone(w: World, i: nat)
    requires TableInv(w) && DefaultZoneOnly(w) && Registered(w, i)
    ensures DefaultZoneOnly(AfterClose(w, i))
  {
  }

  lemma CloseAgainKeepsTable(w: World, i: nat)
    requires PoolInv(w) && FreeInv(w) && TableInv(w) && IdleInv(w) && i < |w.sess|
    ensures var w' := AfterCloseAgain(w, i); PoolInv(w') && FreeInv(w') && TableInv(w') && IdleInv(w')
  {
  }

  lemma CloseAgainKeepsZones(w: World, i: nat)
    requires ZoneInv(w) && i < |w.sess| && !Registered(w, i)
    requires forall id | id in w.table :: w.table[id] < |w.sess| && w.sess[w.table[id]].id == id
    ensures ZoneInv(AfterCloseAgain(w, i))
  {
  }

  lemma CloseAgainKeepsNicks(w: World, i: nat)
    requires NickInv(w) && DefaultZoneOnly(w) && i < |w.sess| && !Registered(w, i)
    ensures NickInv(AfterCloseAgain(w, i)) && DefaultZoneOnly(AfterCloseAgain(w, i))
  {
  }

  // ------------------------------------------------------ what each step keeps

  lemma CloseKeepsInv(w: World, i: nat)
    requires Inv(w) && i < |w.sess|
    ensures Inv(CloseSession(w, i))
  {
    if Registered(w, i) {
      AfterCloseKeepsPool(w, i);
      CloseEffect(w, i);
      AfterCloseKeepsTable(w, i);
      AfterCloseKeepsZones(w, i);
      AfterCloseKeepsNicks(w, i);
      AfterCloseKeepsDefaultZone(w, i);
    } else {
      IdFreeWhenUnregistered(w, i);
      CloseAgainEffect(w, i);
      CloseAgainKeepsTable(w, i);
      CloseAgainKeepsZones(w, i);
      CloseAgainKeepsNicks(w, i);
    }
  }

  lemma AcceptedRegistered(w: World, i: nat)
    requires TableInv(w) && i <= |w.sess| && (i < |w.sess| ==> !Registered(w, i))
    ensures forall j :: Registered(Accepted(w, i), j) <==> Registered(w, j) || j == i
    ensures w.nextId !in w.table
  {
  }

  lemma AcceptedKeepsTable(w: World, i: nat)
    requires PoolInv(w) && FreeInv(w) && TableInv(w) && Acquire(w.pool).1 == Some(i)
    ensures i <= |w.sess| && TableInv(Accepted(w, i))
  {
    AcceptEffect(w);
    AcceptedRegistered(w, i);
    AcceptedQueue(w, i);
    var w' := Accepted(w, i);
    forall id | id in w'.table
      ensures w'.table[id] < |w'.sess| && w'.sess[w'.table[id]].id == id && id != -1
    {
      if id != w.nextId {
        assert Registered(w, w.table[id]);
      }
    }
  }

  lemma AcceptedQueue(w: World, i: nat)
    requires PoolInv(w) && FreeInv(w) && TableInv(w) && Acquire(w.pool).1 == Some(i) && i <= |w.sess|
    ensures var w' := Accepted(w, i);
            forall j: nat | j < |w'.sess| :: j in w'.pool.queue <==> !Registered(w', j)
  {
    AcceptEffect(w);
    AcceptedRegistered(w, i);
  }

  lemma AcceptedKeepsIndexes(w: World, i: nat)
    requires TableInv(w) && NickInv(w) && ZoneInv(w) && DefaultZoneOnly(w)
    requires i <= |w.sess| && (i < |w.sess| ==> !Registered(w, i))
    ensures NickInv(Accepted(w, i)) && ZoneInv(Accepted(w, i)) && DefaultZoneOnly(Accepted(w, i))
  {
    AcceptedRegistered(w, i);
    var w' := Accepted(w, i);
    assert w'.sess[i].nickname == "" && w'.sess[i].zoneId == -1;
    forall id | id in w.table
      ensures w.table[id] != i && w.sess[w.table[id]] == w'.sess[w.table[id]] && id != w.nextId
    {
      assert Registered(w, w.table[id]);
    }
  }

  lemma AcceptFailsKeepsInv(w: World)
    requires Inv(w)
    ensures Inv(w.(nextId := w.nextId + 1))
  {
  }

  lemma AcceptedKeepsInv(w: World, i: nat)
    requires Inv(w) && Acquire(w.pool).1 == Some(i)
    ensures i <= |w.sess| && Inv(Accepted(w, i))
  {
    AcceptEffect(w);
    AcceptedKeepsTable(w, i);
    AcceptedKeepsIndexes(w, i);
  }

  lemma AcceptKeepsInv(w: World)
    requires Inv(w)
    ensures Inv(Accept(w))
  {
    AcceptEffect(w);
    var r := Acquire(w.pool).1;
    if r.Some? {
      AcceptedKeepsInv(w, r.value);
    } else {
      AcceptFailsKeepsInv(w);
    }
  }

  lemma EvictKeepsInv(w: World, i: nat, n: string)
    requires Inv(w)
    ensures Inv(Evict(w, i, n))
  {
    if n in w.nicks && w.nicks[n] != i && w.nicks[n] < |w.sess| {
      CloseKeepsInv(w, w.nicks[n]);
    }
  }

  /** Closing one session leaves every other session registered or not, with its record. */
  lemma CloseOthers(w: World, i: nat)
    requires Inv(w) && i < |w.sess|
    ensures var w' := CloseSession(w, i);
            && |w'.sess| == |w.sess| && w'.nicks == w.nicks
            && w'.sess[i].nickname == ""
            && !Registered(w', i)
            && forall j: nat | j != i && j < |w.sess| ::
                 w'.sess[j] == w.sess[j] && (Registered(w', j) <==> Registered(w, j))
  {
    if Registered(w, i) {
      AfterCloseKeepsPool(w, i);
      CloseEffect(w, i);
      AfterCloseRegistered(w, i);
    } else {
      IdFreeWhenUnregistered(w, i);
      CloseAgainEffect(w, i);
    }
  }

  /** After the eviction nobody but the session logging in can carry the nickname. */
  lemma EvictFreesNickname(w: World, i: nat, n: string)
    requires Inv(w) && Registered(w, i) && n != ""
    ensures var w' := Evict(w, i, n);
            && |w'.sess| == |w.sess| && w'.nicks == w.nicks && w'.sess[i] == w.sess[i] && Registered(w', i)
            && forall j | 0 <= j < |w'.sess| && j != i :: w'.sess[j].nickname != n
  {
    if n in w.nicks && w.nicks[n] != i {
      CloseOthers(w, w.nicks[n]);
    }
  }

  lemma NameKeepsTable(w: World, i: nat, n: string)
    requires PoolInv(w) && FreeInv(w) && TableInv(w) && IdleInv(w) && i < |w.sess|
    ensures var w' := NameSession(w, i, n); PoolInv(w') && FreeInv(w') && TableInv(w') && IdleInv(w')
    ensures forall j :: Registered(NameSession(w, i, n), j) <==> Registered(w, j)
  {
  }

  lemma NameKeepsNicks(w: World, i: nat, n: string)
    requires NickInv(w) && Registered(w, i)
    requires forall j | 0 <= j < |w.sess| && j != i :: w.sess[j].nickname != n
    requires forall j :: Registered(NameSession(w, i, n), j) <==> Registered(w, j)
    ensures NickInv(NameSession(w, i, n))
  {
  }

  lemma NameKeepsZones(w: World, i: nat, n: string)
    requires ZoneInv(w) && DefaultZoneOnly(w) && i < |w.sess|
    requires forall j :: Registered(NameSession(w, i, n), j) <==> Registered(w, j)
    ensures ZoneInv(NameSession(w, i, n)) && DefaultZoneOnly(NameSession(w, i, n))
  {
  }

  lemma AssignKeepsZones(w: World, i: nat, z: int)
    requires TableInv(w) && ZoneInv(w) && Registered(w, i)
    requires w.sess[i].zoneId == -1 || w.sess[i].zoneId == z
    ensures ZoneInv(AssignZone(w, i, z))
    ensures forall j :: Registered(AssignZone(w, i, z), j) <==> Registered(w, j)
  {
    var w' := AssignZone(w, i, z);
    assert forall j :: Registered(w', j) <==> Registered(w, j);
    if w' != w {
      assert |w'.zones[z]| == |w.zones[z]| + 1;
    }
  }

  lemma AssignKeepsTable(w: World, i: nat, z: int)
    requires PoolInv(w) && FreeInv(w) && TableInv(w) && i < |w.sess|
    ensures PoolInv(AssignZone(w, i, z)) && FreeInv(AssignZone(w, i, z)) && TableInv(AssignZone(w, i, z))
  {
  }

  lemma AssignKeepsNicks(w: World, i: nat, z: int)
    requires IdleInv(w) && NickInv(w) && i < |w.sess|
    ensures IdleInv(AssignZone(w, i, z)) && NickInv(AssignZone(w, i, z))
  {
  }

  lemma EnterKeepsDefaultZone(w: World, i: nat)
    requires DefaultZoneOnly(w) && i < |w.sess|
    ensures DefaultZoneOnly(AssignZone(w, i, DEFAULT_ZONE))
  {
  }

  lemma EnterKeepsInv(w: World, i: nat, n: string)
    requires Inv(w) && Registered(w, i)
    requires forall j | 0 <= j < |w.sess| && j != i :: w.sess[j].nickname != n
    ensures Inv(AssignZone(NameSession(w, i, n), i, DEFAULT_ZONE))
  {
    var w1 := NameSession(w, i, n);
    NameKeepsTable(w, i, n);
    NameKeepsNicks(w, i, n);
    NameKeepsZones(w, i, n);
    AssignKeepsTable(w1, i, DEFAULT_ZONE);
    AssignKeepsNicks(w1, i, DEFAULT_ZONE);
    AssignKeepsZones(w1, i, DEFAULT_ZONE);
    EnterKeepsDefaultZone(w1, i);
  }

  lemma LoginOkKeepsInv(w: World, i: nat, n: string)
    requires Inv(w) && Registered(w, i) && n != ""
    ensures Inv(LoginOk(w, i, n))
  {
    AddAgainEffect(w, i);
    EvictKeepsInv(w, i, n);
    EvictFreesNickname(w, i, n);
    var w1 := Evict(w, i, n);
    EvictKeepsInv(w1, i, n);
    EvictFreesNickname(w1, i, n);
    EnterKeepsInv(Evict(w1, i, n), i, n);
  }

  /** The two worlds differ at most in endpoints, UDP credentials, clock and trace. */
  ghost predicate SameStructure(w: World, w': World) {
    && |w'.sess| == |w.sess|
    && w'.pool == w.pool && w'.nextId == w.nextId && w'.table == w.table && w'.nicks == w.nicks
    && w'.zones == w.zones && w'.zoneCap == w.zoneCap && w'.given == w.given && w'.ever == w.ever
    && forall i | 0 <= i < |w.sess| ::
         && w'.sess[i].id == w.sess[i].id && w'.sess[i].life == w.sess[i].life
         && w'.sess[i].zoneId == w.sess[i].zoneId && w'.sess[i].nickname == w.sess[i].nickname
  }

  lemma SameRegistered(w: World, w': World)
    requires SameStructure(w, w')
    ensures forall i :: Registered(w', i) <==> Registered(w, i)
  {
  }

  lemma SameTable(w: World, w': World)
    requires SameStructure(w, w') && PoolInv(w) && FreeInv(w) && TableInv(w) && IdleInv(w)
    ensures PoolInv(w') && FreeInv(w') && TableInv(w') && IdleInv(w')
  {
  }

  lemma SameIndexes(w: World, w': World)
    requires SameStructure(w, w') && ZoneInv(w) && NickInv(w) && DefaultZoneOnly(w)
    ensures ZoneInv(w') && NickInv(w') && DefaultZoneOnly(w')
  {
  }

  lemma SameKeepsInv(w: World, w': World)
    requires SameStructure(w, w') && Inv(w)
    ensures Inv(w')
  {
    SameTable(w, w');
    SameIndexes(w, w');
  }

  lemma RebindSame(w: World, i: nat, from: Endpoint)
    requires i < |w.sess|
    ensures SameStructure(w, Rebind(w, i, from)) && Rebind(w, i, from).sess[i].endpoint == Some(from)
  {
  }

  lemma RegisterSame(w: World, i: nat, p: Packet)
    requires i < |w.sess|
    ensures var d := Dispatched(i, p.kind, p.from, p.token, w.clock);
            SameStructure(w, IssueToken(Log(Rebind(w, i, p.from), d), i, p))
  {
    RebindSame(w, i, p.from);
  }

  /** Datagrams touch nothing of the lifecycle. */
  lemma UdpSame(w: World, p: Packet, globalOk: bool, userOk: bool)
    ensures SameStructure(w, OnUdp(w, p, globalOk, userOk))
  {
    if p.nickname in w.nicks && w.nicks[p.nickname] < |w.sess| {
      RegisterSame(w, w.nicks[p.nickname], p);
    }
  }

  lemma LoginBeginKeepsInv(w: World, i: nat, n: string)
    requires Inv(w) && i < |w.sess|
    ensures Inv(LoginBegin(w, i, n))
  {
    CloseKeepsInv(w, i);
    EvictKeepsInv(w, i, n);
  }

  lemma NextKeepsInv(w: World, s: Step)
    requires Inv(w)
    ensures Inv(Next(w, s))
  {
    if Allowed(w, s) && Next(w, s) != w {
      match s
      case Tick(n) => SameKeepsInv(w, Next(w, s));
      case AliveStep(i) => SameKeepsInv(w, Next(w, s));
      case AcceptStep => AcceptKeepsInv(w);
      case LoginStep(i, n) => LoginBeginKeepsInv(w, i, n);
      case LoginOkStep(i, n) => LoginOkKeepsInv(w, i, n);
      case CloseStep(i) => CloseKeepsInv(w, i);
      case UdpStep(p, g, u) =>
        UdpSame(w, p, g, u);
        SameKeepsInv(w, Next(w, s));
    }
  }

  lemma StartInv(c: Config)
    ensures Inv(Start(c))
  {
    FreshFreeList(c.poolSize, c.maxPool);
    var w := Start(c);
    assert forall i | 0 <= i < c.poolSize :: w.pool.queue[i] == i;
  }

  lemma {:induction false} RunKeepsInv(w: World, steps: seq<Step>)
    requires Inv(w)
    ensures Inv(Run(w, steps))
    decreases |steps|
  {
    if steps != [] {
      RunKeepsInv(w, steps[..|steps| - 1]);
      NextKeepsInv(Run(w, steps[..|steps| - 1]), steps[|steps| - 1]);
    }
  }
}
