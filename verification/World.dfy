/**
 The server as one state machine of atomic steps over all the structures that a
 session takes part in: pool, table, zones, nickname index, UDP endpoint index.
 Sessions are named by their place in the pool.
 */
module Worlds {
  import opened Wrappers
  import opened Sessions
  import opened Pools

  const DEFAULT_ZONE: int := 1
  const REGISTER: string := "udp_register"

  /** What happens to UDP credentials and datagrams, for the record. */
  datatype Event =
    | Bound(who: nat, from: Endpoint, token: string, at: int)   // a token was issued to the session
    | Voided(who: nat)                                          // token clear, cleanup or reset
    | Dispatched(who: nat, kind: string, from: Endpoint, token: string, at: int)

  datatype World = World(
    sess: seq<Sess>,
    pool: Pool,
    nextId: int,
    table: map<int, nat>,
    nicks: map<string, nat>,
    zones: map<int, map<int, nat>>,
    zoneCap: nat,
    eps: map<Endpoint, nat>,
    clock: int,
    tokenTtl: int,
    given: map<int, nat>,       // history: to which session each id was given,
    ever: set<nat>,             // the sessions handed out so far,
    trace: seq<Event>)          // and what happened

  /** A datagram; `newToken` is the random token that a registration will be given. */
  datatype Packet = Packet(from: Endpoint, nickname: string, kind: string, token: string, newToken: string)

  datatype Config = Config(poolSize: nat, maxPool: nat, zoneCount: nat, zoneCap: nat, tokenTtl: int, clock: int)

  /** The zones are numbered from 1 and start empty. */
  function EmptyZones<V>(n: nat): (zones: map<int, map<int, V>>)
    ensures forall z :: z in zones <==> 1 <= z <= n
    ensures forall z | z in zones :: zones[z] == map[]
  {
    if n == 0 then map[] else EmptyZones(n - 1)[n := map[]]
  }

  function Start(c: Config): World {
    World(seq(c.poolSize, i => NewSess(c.clock)), Init(c.poolSize, c.maxPool), 0, map[], map[],
          EmptyZones(c.zoneCount), c.zoneCap, map[], c.clock, c.tokenTtl, map[], {}, [])
  }

  // ------------------------------------------------- the sequences of effects

  function Log(w: World, e: Event): World {
    w.(trace := w.trace + [e])
  }

  function Put(w: World, i: nat, s: Sess): World
    requires i < |w.sess|
  {
    w.(sess := w.sess[i := s])
  }

  function CleanupSession(w: World, i: nat): World
    requires i < |w.sess|
  {
    Log(Put(w, i, w.sess[i].Cleanup()), Voided(i))
  }

  function ClearToken(w: World, i: nat): World
    requires i < |w.sess|
  {
    Log(Put(w, i, w.sess[i].ClearToken()), Voided(i))
  }

  function DropEndpoint(w: World, i: nat): World
    requires i < |w.sess|
  {
    match w.sess[i].endpoint
    case None => w
    case Some(e) => if e in w.eps && w.eps[e] == i then w.(eps := w.eps - {e}) else w
  }

  function LeaveZone(w: World, i: nat): World
    requires i < |w.sess|
  {
    var s := w.sess[i];
    if s.zoneId > -1 && s.zoneId in w.zones then
      Put(w.(zones := w.zones[s.zoneId := w.zones[s.zoneId] - {s.id}]), i, s.(zoneId := -1))
    else w
  }

  function ReleaseToPool(w: World, i: nat): World
    requires i < |w.sess|
  {
    var (p, ok) := Release(w.pool, i);
    if !ok then w
    else
      var w1 := CleanupSession(w, i);
      Put(w1.(pool := p), i, w1.sess[i].(life := Released))
  }

  /** remove_session of the data handler: out of the table, then every index, then back to the pool. */
  function RemoveSession(w: World, id: int): World {
    if id !in w.table || w.table[id] >= |w.sess| then w
    else
      var j := w.table[id];
      ReleaseToPool(LeaveZone(ClearToken(DropEndpoint(w.(table := w.table - {id}), j), j), j), j)
  }

  function CloseSession(w: World, i: nat): World
    requires i < |w.sess|
  {
    var s := w.sess[i];
    if !s.Closable() then w
    else
      var w1 := RemoveSession(Put(w, i, s.(state := Closed, life := Finalized)), s.id);
      if i < |w1.sess| then CleanupSession(w1, i) else w1
  }

  /** The table's entry under the session's id becomes the session; a session of another generation there is closed. */
  function AddSession(w: World, i: nat): World
    requires i < |w.sess|
  {
    var id := w.sess[i].id;
    var w1 := w.(table := w.table[id := i]);
    if id in w.table && w.table[id] < |w.sess| && w.sess[w.table[id]].generation != w.sess[i].generation
    then CloseSession(w1, w.table[id]) else w1
  }

  /** The pool gives out session i under the next id. */
  function HandOut(w: World, i: nat): World
    requires i <= |w.sess|
  {
    var all := if i < |w.sess| then w.sess else w.sess + [NewSess(w.clock)];
    Log(w.(nextId := w.nextId + 1, pool := Acquire(w.pool).0, sess := all[i := all[i].HandedOut(w.nextId, w.clock)],
           given := w.given[w.nextId := i], ever := w.ever + {i}), Voided(i))
  }

  function Accept(w: World): World {
    match Acquire(w.pool).1
    case Some(i) => if i <= |w.sess| then AddSession(HandOut(w, i), i) else w
    case None => w.(nextId := w.nextId + 1)
  }

  /** Close the session that the index names for the nickname, unless it is the one logging in. */
  function Evict(w: World, i: nat, nickname: string): World {
    if nickname in w.nicks && w.nicks[nickname] != i && w.nicks[nickname] < |w.sess|
    then CloseSession(w, w.nicks[nickname]) else w
  }

  function AssignZone(w: World, i: nat, z: int): World
    requires i < |w.sess|
  {
    var s := w.sess[i];
    if z !in w.zones || |w.zones[z]| >= w.zoneCap || s.id in w.zones[z] then w
    else
      var members: map<int, nat> := w.zones[z][s.id := i];
      Put(w.(zones := w.zones[z := members]), i, s.(zoneId := z))
  }

  /** The login message: the first eviction. */
  function LoginBegin(w: World, i: nat, nickname: string): World
    requires i < |w.sess|
  {
    if nickname == "" then w
    else if nickname == "quit" then CloseSession(w, i)
    else Evict(w, i, nickname)
  }

  function Alive(w: World, i: nat): World
    requires i < |w.sess|
  {
    Put(w, i, w.sess[i].(lastAlive := w.clock))
  }

  function NameSession(w: World, i: nat, nickname: string): World
    requires i < |w.sess|
  {
    Put(w.(nicks := w.nicks[nickname := i]), i, w.sess[i].(nickname := nickname, state := Ready))
  }

  /** The database's answer: back into the table, evict twice, take the name, enter the default zone. */
  function LoginOk(w: World, i: nat, nickname: string): World
    requires i < |w.sess|
  {
    var w1 := AddSession(w, i);
    var w2 := Evict(Evict(w1, i, nickname), i, nickname);
    if i < |w2.sess| then AssignZone(NameSession(w2, i, nickname), i, DEFAULT_ZONE) else w2
  }

  /** Move the endpoint index's entry for the session to a new endpoint, taking it from whoever had it. */
  function Rebind(w: World, i: nat, from: Endpoint): World
    requires i < |w.sess|
  {
    if w.sess[i].endpoint == Some(from) then w
    else
      var w1 := DropEndpoint(w, i);
      Put(w1.(eps := w1.eps[from := i]), i, w.sess[i].(endpoint := Some(from)))
  }

  function IssueToken(w: World, i: nat, p: Packet): World
    requires i < |w.sess|
  {
    Log(Put(w, i, w.sess[i].(endpoint := Some(p.from), token := p.newToken, issued := w.clock, ttl := w.tokenTtl)),
        Bound(i, p.from, p.newToken, w.clock))
  }

  /** What the checks of a datagram come to, before the sender's own rate is looked at. */
  datatype Verdict = Refused | Expired(i: nat) | Passed(i: nat)

  /** Nickname, token, age and endpoint, in this order; a registration needs only the nickname. */
  function Screen(w: World, p: Packet): (v: Verdict)
    ensures !v.Refused? ==> v.i < |w.sess|
  {
    if p.nickname == "" || p.nickname !in w.nicks || w.nicks[p.nickname] >= |w.sess| then Refused
    else
      var i := w.nicks[p.nickname];
      var s := w.sess[i];
      if p.kind == REGISTER then Passed(i)
      else if p.token == "" || s.token != p.token then Refused
      else if !s.TokenValid(w.clock) then Expired(i)
      else if s.endpoint != Some(p.from) then Refused
      else Passed(i)
  }

  /** The datagram is dispatched; a registration binds the endpoint before and issues the token after. */
  function Dispatch(w: World, i: nat, p: Packet): World
    requires i < |w.sess|
  {
    var d := Dispatched(i, p.kind, p.from, p.token, w.clock);
    if p.kind == REGISTER then IssueToken(Log(Rebind(w, i, p.from), d), i, p) else Log(w, d)
  }

  /** A datagram, given what the server-wide and the per-user limiter answer. */
  function OnUdp(w: World, p: Packet, globalOk: bool, userOk: bool): World {
    if !globalOk then w
    else match Screen(w, p)
      case Refused => w
      case Expired(i) => ClearToken(w, i)
      case Passed(i) => if userOk then Dispatch(w, i, p) else w
  }

  // ------------------------------------------------------------------- steps

  /** What can happen; the limiters' answers and the random token come with a datagram. */
  datatype Step =
    | Tick(nanos: nat)
    | AcceptStep
    | LoginStep(i: nat, nickname: string)
    | LoginOkStep(i: nat, nickname: string)
    | AliveStep(i: nat)                     // a keepalive message
    | CloseStep(i: nat)                     // logout, timeout, read error, keepalive or cleanup
    | UdpStep(packet: Packet, globalOk: bool, userOk: bool)

  /** In the table under its own id. */
  predicate Registered(w: World, i: nat) {
    i < |w.sess| && w.sess[i].id in w.table && w.table[w.sess[i].id] == i
  }

  function Perform(w: World, s: Step): World {
    match s
    case Tick(n) => w.(clock := w.clock + n)
    case AcceptStep => Accept(w)
    case LoginStep(i, n) => if i < |w.sess| then LoginBegin(w, i, n) else w
    case LoginOkStep(i, n) => if i < |w.sess| then LoginOk(w, i, n) else w
    case AliveStep(i) => if i < |w.sess| then Alive(w, i) else w
    case CloseStep(i) => if i < |w.sess| then CloseSession(w, i) else w
    case UdpStep(p, g, u) => OnUdp(w, p, g, u)
  }

  /** A login completes only with a nickname and while its session is still registered. */
  predicate Allowed(w: World, s: Step) {
    s.LoginOkStep? ==> Registered(w, s.i) && s.nickname != ""
  }

  function Next(w: World, s: Step): World {
    if Allowed(w, s) then Perform(w, s) else w
  }

  /** The runs in which logins complete only on registered sessions. */
  function Run(w: World, steps: seq<Step>): World {
    if steps == [] then w else Next(Run(w, steps[..|steps| - 1]), steps[|steps| - 1])
  }

  /** All runs, late logins included. */
  function RunFree(w: World, steps: seq<Step>): World {
    if steps == [] then w else Perform(RunFree(w, steps[..|steps| - 1]), steps[|steps| - 1])
  }

  // -------------------------------------------------------------- invariants

  predicate PoolInv(w: World) {
    |w.sess| == w.pool.size
  }

  ghost predicate FreeInv(w: World) {
    FreeListInv(w.pool, w.ever)
  }

  /** Ids are given once; a session is in the table exactly when it is not in the free queue. */
  ghost predicate TableInv(w: World) {
    && (forall id | id in w.given :: 0 <= id < w.nextId)
    && 0 <= w.nextId
    && (forall i | 0 <= i < |w.sess| :: w.sess[i].id == -1 || Lookup(w.given, w.sess[i].id) == Some(i))
    && (forall id | id in w.table :: w.table[id] < |w.sess| && w.sess[w.table[id]].id == id && id != -1)
    && (forall i | 0 <= i < |w.sess| :: i in w.pool.queue <==> !Registered(w, i))
    && (forall i | 0 <= i < |w.sess| && Registered(w, i) :: i in w.ever)
  }

  ghost predicate IdleInv(w: World) {
    forall i | 0 <= i < |w.sess| :: w.sess[i].life == Idle
  }

  ghost predicate ZonesWithinCap(w: World) {
    forall z | z in w.zones :: z > 0 && |w.zones[z]| <= w.zoneCap
  }

  ghost predicate MembersRegistered(w: World) {
    forall z, id | z in w.zones && id in w.zones[z] ::
      id in w.table && w.zones[z][id] == w.table[id]
      && w.table[id] < |w.sess| && w.sess[w.table[id]].zoneId == z
  }

  ghost predicate CarriersAreMembers(w: World) {
    forall i | 0 <= i < |w.sess| && Registered(w, i) ::
      w.sess[i].zoneId == -1 || (w.sess[i].zoneId in w.zones && w.sess[i].id in w.zones[w.sess[i].zoneId])
  }

  /** A zone holds exactly the registered sessions that carry its number, within its capacity. */
  ghost predicate ZoneInv(w: World) {
    ZonesWithinCap(w) && MembersRegistered(w) && CarriersAreMembers(w)
  }

  /** Logins enter the default zone, so nobody is ever in another one. */
  ghost predicate DefaultZoneOnly(w: World) {
    forall i | 0 <= i < |w.sess| && Registered(w, i) :: w.sess[i].zoneId == -1 || w.sess[i].zoneId == DEFAULT_ZONE
  }

  /** Whoever carries a nickname is registered, and is the one the index names for it. */
  ghost predicate NickInv(w: World) {
    && (forall n | n in w.nicks :: w.nicks[n] < |w.sess|)
    && (forall i | 0 <= i < |w.sess| && w.sess[i].nickname != "" ::
          Registered(w, i) && Lookup(w.nicks, w.sess[i].nickname) == Some(i))
  }

  /** Every entry of the endpoint index agrees with its session; a free session has no endpoint. */
  ghost predicate EndpointInv(w: World) {
    && (forall e | e in w.eps :: Registered(w, w.eps[e]) && w.sess[w.eps[e]].endpoint == Some(e))
    && (forall i | 0 <= i < |w.sess| && w.sess[i].endpoint.Some? :: Registered(w, i))
  }

  /** What every run keeps; the endpoint index is kept only by some, and stands apart. */
  ghost predicate Inv(w: World) {
    && PoolInv(w) && FreeInv(w) && TableInv(w) && IdleInv(w)
    && ZoneInv(w) && DefaultZoneOnly(w) && NickInv(w)
  }
}
