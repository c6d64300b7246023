/**
 The server's objects at work: each method makes the change in place and is proved
 against the step of the same name of the state machine in Worlds.
 */
module DataHandlers {
  import opened Wrappers
  import opened Sessions
  import opened Pools
  import opened SessionTable
  import opened Zones
  import opened Worlds
  import opened Effects
  import opened UnauthCleanup
  import opened SessionLists

  /** A map of sessions and a map of their places in the pool that say the same. */
  ghost predicate Names<K(!new)>(objs: map<K, Session>, places: map<K, nat>, all: seq<Session>) {
    forall k :: (k in objs <==> k in places) && (k in places ==> places[k] < |all| && objs[k] == all[places[k]])
  }

  lemma NamesDrop<K(!new)>(objs: map<K, Session>, places: map<K, nat>, all: seq<Session>, k: K)
    requires Names(objs, places, all)
    ensures Names(objs - {k}, places - {k}, all)
  {
  }

  lemma NamesPut<K(!new)>(objs: map<K, Session>, places: map<K, nat>, all: seq<Session>, k: K, i: nat)
    requires Names(objs, places, all) && i < |all|
    ensures Names(objs[k := all[i]], places[k := i], all)
  {
  }

  lemma NamesGrow<K(!new)>(objs: map<K, Session>, places: map<K, nat>, all: seq<Session>, more: seq<Session>)
    requires Names(objs, places, all) && all <= more
    ensures Names(objs, places, more)
  {
  }

  lemma NamesSize<K(!new)>(objs: map<K, Session>, places: map<K, nat>, all: seq<Session>)
    requires Names(objs, places, all)
    ensures |objs| == |places|
  {
    assert objs.Keys == places.Keys;
    assert |objs| == |objs.Keys| && |places| == |places.Keys|;
  }

  class DataHandler {
    const sessionPool: SessionPool
    const sessionManager: SessionManager
    const zoneManager: ZoneManager
    const tokenTtl: int
    var udpEndpointToSession: map<Endpoint, Session>
    var sessionCounter: int
    var clock: int
    /** The state that the objects below stand for. */
    ghost var model: World

    ghost predicate Objects()
      reads this, sessionPool
    {
      && sessionPool.Valid() && zoneManager.Valid()
      && (model.pool, model.nextId, model.clock, model.tokenTtl)
         == (sessionPool.Model(), sessionCounter, clock, tokenTtl)
      && Names(udpEndpointToSession, model.eps, sessionPool.pool)
    }

    ghost predicate Records()
      reads this, sessionPool, sessionPool.pool
    {
      && |sessionPool.pool| == |model.sess|
      && forall i | 0 <= i < |model.sess| :: sessionPool.pool[i].Value() == model.sess[i]
    }

    ghost predicate Tables()
      reads this, sessionPool, sessionManager
    {
      && sessionManager.Valid()
      && Names(sessionManager.Table(), model.table, sessionPool.pool)
      && Names(sessionManager.nicknameIndex, model.nicks, sessionPool.pool)
    }

    ghost predicate ZonesAgree()
      reads this, sessionPool, zoneManager.zones.Values
    {
      && (forall z :: z in zoneManager.zones <==> z in model.zones)
      && forall z | z in model.zones ::
           zoneManager.zones[z].maxSessions == model.zoneCap
           && Names(zoneManager.zones[z].sessions, model.zones[z], sessionPool.pool)
    }

    ghost predicate Valid()
      reads this, sessionPool, sessionManager, sessionPool.pool, zoneManager.zones.Values
    {
      Objects() && Records() && Tables() && ZonesAgree()
    }

    /** What others do elsewhere does not matter here. */
    twostate lemma Kept()
      requires old(Valid()) && unchanged(this) && unchanged(sessionPool) && unchanged(sessionManager)
      requires unchanged(sessionPool.pool) && unchanged(zoneManager.zones.Values)
      ensures Valid()
    {
    }

    twostate lemma OthersKept()
      requires old(Objects() && Records()) && unchanged(sessionPool) && unchanged(sessionPool.pool)
      requires udpEndpointToSession == old(udpEndpointToSession)
      requires sessionCounter == old(sessionCounter) && clock == old(clock)
      requires model == old(model).(table := model.table, nicks := model.nicks, zones := model.zones)
      ensures Objects() && Records()
    {
    }

    twostate lemma TablesKept()
      requires old(Tables()) && unchanged(sessionManager) && sessionPool.pool == old(sessionPool.pool)
      requires model.table == old(model.table) && model.nicks == old(model.nicks)
      ensures Tables()
    {
    }

    twostate lemma ZonesKept()
      requires old(ZonesAgree()) && unchanged(zoneManager.zones.Values) && sessionPool.pool == old(sessionPool.pool)
      requires model.zones == old(model.zones) && model.zoneCap == old(model.zoneCap)
      ensures ZonesAgree()
    {
    }

    twostate lemma ZonesKeptBut(z: int)
      requires old(ZonesAgree()) && zoneManager.Valid() && z in zoneManager.zones
      requires sessionPool.pool == old(sessionPool.pool) && model.zoneCap == old(model.zoneCap)
      requires forall y | y in zoneManager.zones && y != z ::
                 zoneManager.zones[y].sessions == old(zoneManager.zones[y].sessions)
      requires z in model.zones && Names(zoneManager.zones[z].sessions, model.zones[z], sessionPool.pool)
      requires model.zones == old(model.zones)[z := model.zones[z]]
      ensures ZonesAgree()
    {
    }

    /** A session of this server's pool. */
    ghost predicate Ours(s: Session)
      reads sessionPool
    {
      s.index < |sessionPool.pool| && sessionPool.pool[s.index] == s
    }

    ghost predicate AllOurs(ss: seq<Session>)
      reads sessionPool
    {
      forall k | 0 <= k < |ss| :: Ours(ss[k])
    }

    constructor (shards: nat, c: Config)
      requires shards > 0
      ensures Valid() && model == Start(c)
    {
      sessionPool := new SessionPool(c.poolSize, c.maxPool, c.clock);
      sessionManager := new SessionManager(shards);
      zoneManager := new ZoneManager(c.zoneCount, c.zoneCap);
      tokenTtl := c.tokenTtl;
      udpEndpointToSession := map[];
      sessionCounter := 0;
      clock := c.clock;
      model := Start(c);
    }

    // ------------------------------------------------------------ closing

    method DropEndpoint(s: Session)
      requires Valid() && Ours(s)
      modifies this`udpEndpointToSession, this`model
      ensures Valid() && model == Worlds.DropEndpoint(old(model), s.index)
    {
      DropEndpointEffect(model, s.index);
      assert s.endpoint == model.sess[s.index].endpoint;
      if s.endpoint.Some? {
        var e := s.endpoint.value;
        if e in udpEndpointToSession && udpEndpointToSession[e] == s {
          NamesDrop(udpEndpointToSession, model.eps, sessionPool.pool, e);
          udpEndpointToSession := udpEndpointToSession - {e};
        }
      }
      model := model.(eps := EndpointsWithout(model, s.index));
      TablesKept();
      ZonesKept();
    }

    method ClearToken(s: Session)
      requires Valid() && Ours(s)
      modifies this`model, s
      ensures Valid() && model == Worlds.ClearToken(old(model), s.index)
    {
      s.ClearUdpToken();
      model := Worlds.ClearToken(model, s.index);
      TablesKept();
      ZonesKept();
    }

    /** The session leaves the endpoint index, if its entry there is its own, and loses its token. */
    method ForgetUdp(s: Session)
      requires Valid() && Ours(s)
      modifies this`udpEndpointToSession, this`model, s
      ensures Valid() && model == Worlds.ClearToken(Worlds.DropEndpoint(old(model), s.index), s.index)
    {
      DropEndpoint(s);
      ClearToken(s);
    }

    method CleanupSession(s: Session)
      requires Valid() && Ours(s)
      modifies this`model, s
      ensures Valid() && model == Worlds.CleanupSession(old(model), s.index)
    {
      s.Cleanup();
      model := Worlds.CleanupSession(model, s.index);
      TablesKept();
      ZonesKept();
    }

    /** The session of this record has left the zone it was in, and no other. */
    twostate lemma ZonesLeft(was: Sess)
      requires old(ZonesAgree()) && sessionPool.pool == old(sessionPool.pool)
      requires model.zones == ZonesWithout(old(model), was) && model.zoneCap == old(model.zoneCap)
      requires forall z | z in zoneManager.zones :: zoneManager.zones[z].sessions ==
                 if was.zoneId > -1 && z == was.zoneId then old(zoneManager.zones[z].sessions) - {was.id}
                 else old(zoneManager.zones[z].sessions)
      ensures ZonesAgree()
    {
    }

    method LeaveZone(s: Session)
      requires Valid() && Ours(s)
      modifies this`model, s`zoneId, zoneManager.zones.Values
      ensures Valid() && model == Worlds.LeaveZone(old(model), s.index)
    {
      LeaveZoneEffect(model, s.index);
      if s.zoneId > -1 {
        zoneManager.RemoveSession(s);
      }
      model := model.(zones := ZonesWithout(model, old(s.Value())), sess := model.sess[s.index := s.Value()]);
      TablesKept();
      ZonesLeft(old(s.Value()));
    }

    method ReleaseToPool(s: Session)
      requires Valid() && Ours(s)
      modifies this`model, s, sessionPool
      ensures Valid() && sessionPool.pool == old(sessionPool.pool)
      ensures model == Worlds.ReleaseToPool(old(model), s.index)
    {
      var _ := sessionPool.ReleaseSession(s);
      model := Worlds.ReleaseToPool(model, s.index);
      TablesKept();
      ZonesKept();
    }

    twostate lemma TableDropped(id: int)
      requires old(Tables()) && sessionManager.Valid() && sessionPool.pool == old(sessionPool.pool)
      requires sessionManager.Table() == old(sessionManager.Table()) - {id}
      requires sessionManager.nicknameIndex == old(sessionManager.nicknameIndex)
      requires model.table == old(model.table) - {id} && model.nicks == old(model.nicks)
      ensures Tables()
    {
      NamesDrop(old(sessionManager.Table()), old(model.table), sessionPool.pool, id);
    }

    method TakeFromTable(id: int) returns (s: Session?)
      requires Valid()
      modifies this`model, sessionManager`sessionBuckets
      ensures Valid() && model == old(model).(table := old(model.table) - {id})
      ensures s == null <==> id !in old(model.table)
      ensures s != null ==> Ours(s) && s.index == old(model.table)[id]
    {
      s := sessionManager.RemoveSession(id);
      model := model.(table := model.table - {id});
      TableDropped(id);
      ZonesKept();
    }

    method RemoveSession(id: int)
      requires Valid()
      modifies this, sessionManager, sessionPool, sessionPool.pool, zoneManager.zones.Values
      ensures Valid() && sessionPool.pool == old(sessionPool.pool)
      ensures model == Worlds.RemoveSession(old(model), id)
    {
      assert id !in model.table ==> model.table - {id} == model.table;
      var session := TakeFromTable(id);
      if session != null {
        ForgetUdp(session);
        Depart(session);
      }
    }

    method Depart(s: Session)
      requires Valid() && Ours(s)
      modifies this`model, s, sessionPool, zoneManager.zones.Values
      ensures Valid() && sessionPool.pool == old(sessionPool.pool)
      ensures var w := Worlds.LeaveZone(old(model), s.index);
              s.index < |w.sess| && model == Worlds.ReleaseToPool(w, s.index)
    {
      LeaveZone(s);
      ReleaseToPool(s);
    }

    /** The compare-and-swap that decides who closes; the winner marks the session closed. */
    method BeginClose(s: Session) returns (ok: bool)
      requires Valid() && Ours(s)
      modifies this`model, s
      ensures Valid() && ok == old(model).sess[s.index].Closable()
      ensures model == if ok then Worlds.Put(old(model), s.index, old(s.Value()).(state := Closed, life := Finalized))
                       else old(model)
    {
      ok := s.TryClose();
      if ok {
        s.state := Closed;
        s.FinalizeClose();
      }
      model := if ok then Worlds.Put(model, s.index, s.Value()) else model;
      TablesKept();
      ZonesKept();
    }

    method CloseSession(s: Session)
      requires Valid() && Ours(s)
      modifies this, sessionManager, sessionPool, sessionPool.pool, zoneManager.zones.Values
      ensures Valid() && sessionPool.pool == old(sessionPool.pool)
      ensures model == Worlds.CloseSession(old(model), s.index)
    {
      var ok := BeginClose(s);
      if ok {
        RemoveSession(s.id);
        CleanupSession(s);
      }
    }

    // ------------------------------------------------------------ logging in

    method Evict(s: Session, nickname: string)
      requires Valid() && Ours(s)
      modifies this, sessionManager, sessionPool, sessionPool.pool, zoneManager.zones.Values
      ensures Valid() && sessionPool.pool == old(sessionPool.pool)
      ensures model == Worlds.Evict(old(model), s.index, nickname)
    {
      var prev := sessionManager.FindSessionByNickname(nickname);
      if prev != null && prev != s {
        CloseSession(prev);
      }
    }

    /** A login message; one without a nickname stands for "anonymity". */
    method LoginHandler(s: Session, given: Option<string>)
      requires Valid() && Ours(s)
      modifies this, sessionManager, sessionPool, sessionPool.pool, zoneManager.zones.Values
      ensures Valid() && sessionPool.pool == old(sessionPool.pool)
      ensures model == LoginBegin(old(model), s.index, if given.Some? then given.value else "anonymity")
    {
      var nickname := if given.Some? then given.value else "anonymity";
      if nickname != "" {
        if nickname == "quit" {
          CloseSession(s);
        } else {
          Evict(s, nickname);
        }
      }
    }

    method NameSession(s: Session, nickname: string)
      requires Valid() && Ours(s)
      modifies this`model, sessionManager`nicknameIndex, s
      ensures Valid() && model == Worlds.NameSession(old(model), s.index, nickname)
    {
      NamesPut(sessionManager.nicknameIndex, model.nicks, sessionPool.pool, nickname, s.index);
      sessionManager.RegisterNickname(nickname, s);
      s.nickname := nickname;
      s.state := Ready;
      model := Worlds.NameSession(model, s.index, nickname);
      ZonesKept();
    }

    /** Registering a nickname evicts once more before it takes the index entry. */
    method TakeName(s: Session, nickname: string)
      requires Valid() && Ours(s)
      modifies this, sessionManager, sessionPool, sessionPool.pool, zoneManager.zones.Values
      ensures Valid() && sessionPool.pool == old(sessionPool.pool)
      ensures var w := Worlds.Evict(old(model), s.index, nickname);
              s.index < |w.sess| && model == Worlds.NameSession(w, s.index, nickname)
    {
      Evict(s, nickname);
      NameSession(s, nickname);
    }

    method AssignSessionToZone(s: Session, zoneId: int)
      requires Valid() && Ours(s)
      modifies this`model, s`zoneId, zoneManager.zones.Values
      ensures Valid() && model == AssignZone(old(model), s.index, zoneId)
    {
      var zone := zoneManager.GetZone(zoneId);
      if zone != null {
        NamesSize(zone.sessions, model.zones[zoneId], sessionPool.pool);
        AssignZoneEffect(model, s.index, zoneId);
        var ok := AddToZone(s, zone, zoneId);
        if ok {
          SetZone(s, zoneId);
        }
      }
    }

    method AddToZone(s: Session, zone: Zone, zoneId: int) returns (ok: bool)
      requires Valid() && Ours(s) && zoneId in zoneManager.zones && zone == zoneManager.zones[zoneId]
      modifies this`model, zone
      ensures Valid() && ok == old(zone.HasRoomFor(s))
      ensures model == Answered(old(model), s.index, zoneId, ok)
    {
      ghost var members := model.zones[zoneId];
      ok := zone.AddSession(s);
      model := Answered(model, s.index, zoneId, ok);
      OthersKept();
      TablesKept();
      assert Names(zone.sessions, model.zones[zoneId], sessionPool.pool) by {
        NamesPut(old(zone.sessions), members, sessionPool.pool, s.id, s.index);
      }
      ZonesKeptBut(zoneId);
    }

    method SetZone(s: Session, zoneId: int)
      requires Valid() && Ours(s)
      modifies this`model, s`zoneId
      ensures Valid() && model == Worlds.Put(old(model), s.index, old(s.Value()).(zoneId := zoneId))
    {
      s.zoneId := zoneId;
      model := Worlds.Put(model, s.index, s.Value());
      TablesKept();
      ZonesKept();
    }

    method PutInTable(s: Session) returns (replaced: Session?)
      requires Valid() && Ours(s)
      modifies this`model, sessionManager`sessionBuckets
      ensures Valid() && model == old(model).(table := old(model.table)[s.id := s.index])
      ensures replaced == old(sessionManager.Earlier(s))
    {
      replaced := sessionManager.AddSession(s);
      model := model.(table := model.table[s.id := s.index]);
      OthersKept();
      ZonesKept();
      NamesPut(old(sessionManager.Table()), old(model.table), sessionPool.pool, s.id, s.index);
    }

    method AddSession(s: Session)
      requires Valid() && Ours(s)
      modifies this, sessionManager, sessionPool, sessionPool.pool, zoneManager.zones.Values
      ensures Valid() && sessionPool.pool == old(sessionPool.pool)
      ensures model == Worlds.AddSession(old(model), s.index)
    {
      var replaced := PutInTable(s);
      if replaced != null {
        CloseSession(replaced);
      }
    }

    /** The nickname's session is closed, then the name and the default zone are taken. */
    method CompleteLogin(s: Session, nickname: string)
      requires Valid() && Ours(s)
      modifies this, sessionManager, sessionPool, sessionPool.pool, zoneManager.zones.Values
      ensures Valid() && sessionPool.pool == old(sessionPool.pool)
      ensures var w := Worlds.Evict(old(model), s.index, nickname);
              && s.index < |w.sess|
              && model == AssignZone(Worlds.NameSession(w, s.index, nickname), s.index, DEFAULT_ZONE)
    {
      TakeName(s, nickname);
      AssignSessionToZone(s, DEFAULT_ZONE);
    }

    method OnUserInfoOk(s: Session, nickname: string)
      requires Valid() && Ours(s)
      modifies this, sessionManager, sessionPool, sessionPool.pool, zoneManager.zones.Values
      ensures Valid() && sessionPool.pool == old(sessionPool.pool)
      ensures model == LoginOk(old(model), s.index, nickname)
    {
      AddSession(s);
      Evict(s, nickname);
      CompleteLogin(s, nickname);
    }

    // ------------------------------------------------- accepting and time

    method Tick(nanos: nat)
      requires Valid()
      modifies this`clock, this`model
      ensures Valid() && model == old(model).(clock := old(model).clock + nanos)
    {
      clock := clock + nanos;
      model := model.(clock := clock);
      TablesKept();
      ZonesKept();
    }

    method KeepaliveHandler(s: Session)
      requires Valid() && Ours(s)
      modifies this`model, s`lastAlive
      ensures Valid() && model == Alive(old(model), s.index)
    {
      s.lastAlive := clock;
      model := Alive(model, s.index);
      TablesKept();
      ZonesKept();
    }

    twostate lemma StructuresGrow()
      requires old(Tables()) && unchanged(sessionManager) && old(sessionPool.pool) <= sessionPool.pool
      requires old(ZonesAgree()) && unchanged(zoneManager.zones.Values)
      requires model.table == old(model.table) && model.nicks == old(model.nicks)
      requires model.zones == old(model.zones) && model.zoneCap == old(model.zoneCap)
      ensures Tables() && ZonesAgree()
    {
    }

    twostate lemma RecordsGrow(i: nat)
      requires old(Records()) && sessionPool.Valid() && old(sessionPool.pool) <= sessionPool.pool
      requires i <= |old(model).sess| && model.sess == HandOut(old(model), i).sess
      requires |sessionPool.pool| == |model.sess|
      requires sessionPool.pool[i].Value() == model.sess[i]
      requires forall j | 0 <= j < |old(sessionPool.pool)| && old(sessionPool.pool[j]) != sessionPool.pool[i] ::
                 sessionPool.pool[j].Value() == old(sessionPool.pool[j].Value())
      ensures Records()
    {
      sessionPool.PlacesDistinct();
    }

    /** A session from the pool under the next id, if the pool has one. */
    method TakeFromPool() returns (s: Session?)
      requires Valid()
      modifies this`sessionCounter, this`model, sessionPool, sessionPool.pool
      ensures Valid() && old(sessionPool.pool) <= sessionPool.pool
      ensures forall k | |old(sessionPool.pool)| <= k < |sessionPool.pool| :: fresh(sessionPool.pool[k])
      ensures |sessionPool.pool| <= |old(sessionPool.pool)| + 1
      ensures if s == null then Acquire(old(model).pool).1 == None
              else Ours(s) && Acquire(old(model).pool).1 == Some(s.index) && s.index <= |old(model).sess|
      ensures model == if s == null then old(model).(nextId := old(model).nextId + 1) else HandOut(old(model), s.index)
    {
      var id := sessionCounter;
      sessionCounter := sessionCounter + 1;
      s := sessionPool.AcquireSession(id, clock);
      model := if s == null then model.(nextId := id + 1) else HandOut(model, s.index);
      if s != null {
        RecordsGrow(s.index);
      }
      NamesGrow(udpEndpointToSession, old(model).eps, old(sessionPool.pool), sessionPool.pool);
      StructuresGrow();
    }

    method AcceptSession()
      requires Valid()
      modifies this, sessionManager, sessionPool, sessionPool.pool, zoneManager.zones.Values
      ensures Valid() && old(sessionPool.pool) <= sessionPool.pool && |sessionPool.pool| <= |old(sessionPool.pool)| + 1
      ensures model == Worlds.Accept(old(model))
    {
      var session := TakeFromPool();
      if session != null {
        AddSession(session);
      }
    }

    // ------------------------------------------------------------------ UDP

    method BindEndpoint(s: Session, from: Endpoint)
      requires Valid() && Ours(s)
      modifies this`udpEndpointToSession, this`model, s`endpoint
      ensures Valid()
      ensures model == Worlds.Put(old(model).(eps := old(model).eps[from := s.index]), s.index,
                                  old(s.Value()).(endpoint := Some(from)))
    {
      NamesPut(udpEndpointToSession, model.eps, sessionPool.pool, from, s.index);
      udpEndpointToSession := udpEndpointToSession[from := s];
      s.endpoint := Some(from);
      model := Worlds.Put(model.(eps := model.eps[from := s.index]), s.index, s.Value());
      TablesKept();
      ZonesKept();
    }

    /** The session's old entry goes, unless another session has taken it; the new one replaces whoever had it. */
    method Rebind(s: Session, from: Endpoint)
      requires Valid() && Ours(s)
      modifies this`udpEndpointToSession, this`model, s`endpoint
      ensures Valid() && model == Worlds.Rebind(old(model), s.index, from)
    {
      if s.endpoint != Some(from) {
        DropEndpointEffect(model, s.index);
        DropEndpoint(s);
        BindEndpoint(s, from);
      }
    }

    method UdpRegisterHandler(s: Session, p: Packet)
      requires Valid() && Ours(s)
      modifies this`model, s
      ensures Valid() && model == IssueToken(old(model), s.index, p)
    {
      s.endpoint := Some(p.from);
      s.SetUdpToken(p.newToken, clock, tokenTtl);
      model := IssueToken(model, s.index, p);
      TablesKept();
      ZonesKept();
    }

    method RecordDispatch(s: Session, p: Packet)
      requires Valid() && Ours(s)
      modifies this`model
      ensures Valid() && model == Log(old(model), Dispatched(s.index, p.kind, p.from, p.token, clock))
    {
      model := Log(model, Dispatched(s.index, p.kind, p.from, p.token, clock));
      TablesKept();
      ZonesKept();
    }

    /** The checks that follow once the nickname's session is found; a token seen to be too old is cleared. */
    method ScreenDatagram(s: Session, p: Packet) returns (passed: bool)
      requires Valid() && Ours(s) && p.nickname != "" && Lookup(model.nicks, p.nickname) == Some(s.index)
      modifies this`model, s
      ensures Valid()
      ensures passed <==> Screen(old(model), p) == Passed(s.index)
      ensures !passed ==> Screen(old(model), p) == Refused || Screen(old(model), p) == Expired(s.index)
      ensures model == if Screen(old(model), p).Expired? then Worlds.ClearToken(old(model), s.index) else old(model)
    {
      passed := true;
      if p.kind != REGISTER {
        if p.token == "" || s.token != p.token {
          passed := false;
        } else if !s.Value().TokenValid(clock) {
          ClearToken(s);
          passed := false;
        } else if s.endpoint != Some(p.from) {
          passed := false;
        }
      }
    }

    /** A registration binds the endpoint first and issues the token when it is handled. */
    method Dispatch(s: Session, p: Packet)
      requires Valid() && Ours(s)
      modifies this`udpEndpointToSession, this`model, s
      ensures Valid() && model == Worlds.Dispatch(old(model), s.index, p)
    {
      if p.kind == REGISTER {
        Rebind(s, p.from);
      }
      RecordDispatch(s, p);
      if p.kind == REGISTER {
        UdpRegisterHandler(s, p);
      }
    }

    // ------------------------------------------------- unauthenticated clients

    /** What the objects enumerate, their places enumerate in the model. */
    lemma SamePart(ids: seq<int>, ss: seq<Session>)
      requires Valid() && Enumerates(ids, ss, UnauthOf(sessionManager.Table()))
      ensures AllOurs(ss) && Enumerates(ids, Places(ss), UnauthTable(model))
    {
      var part := UnauthOf(sessionManager.Table());
      forall id
        ensures id in part <==> id in UnauthTable(model)
        ensures id in part ==> Ours(part[id]) && part[id].index == UnauthTable(model)[id]
      {
        if id in model.table {
          var i := model.table[id];
          assert sessionPool.pool[i].index == i && sessionPool.pool[i].Value() == model.sess[i];
        }
      }
    }

    /** The unauthenticated sessions of the table, each once for every id it is under. */
    method CollectUnauth() returns (found: seq<Session>, ghost ids: seq<int>)
      requires Valid()
      ensures Enumerates(ids, found, UnauthOf(sessionManager.Table()))
      ensures AllOurs(found) && Enumerates(ids, Places(found), UnauthTable(model))
      ensures forall k | 0 <= k < |found| :: found[k].state == Handshaking || found[k].state == LoginWait
      ensures forall id | id in model.table && model.table[id] < |model.sess| ::
                model.sess[model.table[id]].state == Handshaking || model.sess[model.table[id]].state == LoginWait
                <==> id in ids
    {
      var allIds, all := sessionManager.Snapshot();
      found, ids := FilterUnauth(allIds, all, sessionManager.Table());
      SamePart(ids, found);
    }

    lemma SortedOldestFirst(sorted: seq<Session>)
      requires Records() && AllOurs(sorted) && Ascending(sorted)
      ensures OldestFirst(model, Places(sorted))
    {
    }

    /** Close the first `count` of the sessions. */
    method CloseFirst(sessions: seq<Session>, count: nat)
      requires Valid() && AllOurs(sessions) && count <= |sessions|
      modifies this, sessionManager, sessionPool, sessionPool.pool, zoneManager.zones.Values
      ensures Valid() && sessionPool.pool == old(sessionPool.pool)
      ensures model == CloseAll(old(model), Places(sessions)[..count])
    {
      var i := 0;
      while i < count
        invariant i <= count && Valid() && sessionPool.pool == old(sessionPool.pool) && AllOurs(sessions)
        invariant model == CloseAll(old(model), Places(sessions)[..i])
      {
        assert Places(sessions)[..i + 1][..i] == Places(sessions)[..i];
        assert Ours(sessions[i]);
        CloseSession(sessions[i]);
        i := i + 1;
      }
    }

    /** The unauthenticated sessions, the longest-idle first if there are too many. */
    method OrderUnauth(maxUnauth: nat) returns (sessions: seq<Session>, ghost ids: seq<int>)
      requires Valid()
      ensures AllOurs(sessions) && Enumerates(ids, Places(sessions), UnauthTable(model))
      ensures |sessions| > maxUnauth ==> OldestFirst(model, Places(sessions))
    {
      sessions, ids := CollectUnauth();
      if |sessions| > maxUnauth {
        sessions, ids := SortByLastAlive(ids, sessions, UnauthOf(sessionManager.Table()));
        SamePart(ids, sessions);
        SortedOldestFirst(sessions);
      }
    }

    /** Close the excess from the front of that list; `order` says where its sessions are in the pool. */
    method CloseExcess(maxUnauth: nat) returns (ghost ids: seq<int>, ghost order: seq<nat>)
      requires Valid()
      modifies this, sessionManager, sessionPool, sessionPool.pool, zoneManager.zones.Values
      ensures Valid() && sessionPool.pool == old(sessionPool.pool)
      ensures Enumerates(ids, order, UnauthTable(old(model)))
      ensures |order| > maxUnauth ==> OldestFirst(old(model), order)
      ensures model == CloseAll(old(model), order[..Excess(|order|, maxUnauth)])
    {
      var unauthSessions;
      unauthSessions, ids := OrderUnauth(maxUnauth);
      order := Places(unauthSessions);
      if |unauthSessions| > maxUnauth {
        CloseFirst(unauthSessions, |unauthSessions| - maxUnauth);
      }
    }

    method CleanupUnauthSessions(maxUnauth: nat) returns (ghost ids: seq<int>, ghost order: seq<nat>)
      requires Valid()
      modifies this, sessionManager, sessionPool, sessionPool.pool, zoneManager.zones.Values
      ensures Valid() && sessionPool.pool == old(sessionPool.pool)
      ensures Enumerates(ids, order, UnauthTable(old(model)))
      ensures |order| > maxUnauth ==> OldestFirst(old(model), order)
      ensures model == CloseAll(old(model), order[..Excess(|order|, maxUnauth)])
      ensures Inv(old(model)) ==> KeepsNewest(old(model), model, maxUnauth)
    {
      ids, order := CloseExcess(maxUnauth);
      TrimKeepsNewest(old(model), ids, order, maxUnauth);
    }
  }
}
