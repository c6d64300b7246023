/**
 Who may speak over UDP. Every run leaves a trace of bindings (a registration
 gave a session an endpoint and a token), of voidings (token clear, cleanup,
 reset) and of dispatched datagrams; a datagram is judged by the trace alone.
 */
module UdpHistory {
  import opened Wrappers
  import opened Sessions
  import opened Pools
  import opened Worlds
  import opened Effects

  /** The last binding of the session, unless something voided it since. */
  function InForce(t: seq<Event>, i: nat): Option<Event> {
    if t == [] then None
    else
      var e := t[|t| - 1];
      if e.Bound? && e.who == i then Some(e)
      else if e.Voided? && e.who == i then None
      else InForce(t[..|t| - 1], i)
  }

  /** The session holds exactly the credentials of the binding in force. */
  predicate Agrees(s: Sess, i: nat, inForce: Option<Event>, ttl: int, now: int) {
    match inForce
    case Some(Bound(who, from, token, at)) =>
      who == i && s.endpoint == Some(from) && s.token == token && s.issued == at && s.ttl == ttl && at <= now
    case Some(_) => false
    case None => s.token == ""
  }

  ghost predicate Agreement(w: World) {
    forall i | 0 <= i < |w.sess| :: Agrees(w.sess[i], i, InForce(w.trace, i), w.tokenTtl, w.clock)
  }

  /** The binding licenses a datagram with this sender and token at this time. */
  predicate Licenses(inForce: Option<Event>, from: Endpoint, token: string, at: int, ttl: int) {
    match inForce
    case Some(Bound(_, boundTo, given, since)) =>
      boundTo == from && given == token && since <= at && (at - since) / NANOS_PER_SECOND <= ttl
    case _ => false
  }

  predicate Justified(t: seq<Event>, k: nat, ttl: int)
    requires k < |t|
  {
    t[k].Dispatched? && t[k].kind != REGISTER ==>
      t[k].token != "" && Licenses(InForce(t[..k], t[k].who), t[k].from, t[k].token, t[k].at, ttl)
  }

  ghost predicate AllJustified(t: seq<Event>, ttl: int) {
    forall k | 0 <= k < |t| :: Justified(t, k, ttl)
  }

  ghost predicate UdpInv(w: World) {
    Agreement(w) && AllJustified(w.trace, w.tokenTtl)
  }

  ghost predicate UdpKept(w: World, w': World) {
    UdpInv(w') && w'.tokenTtl == w.tokenTtl
  }

  // ------------------------------------------------------------ about traces

  lemma InForceAfter(t: seq<Event>, e: Event, i: nat)
    ensures InForce(t + [e], i) ==
            if e.Bound? && e.who == i then Some(e)
            else if e.Voided? && e.who == i then None
            else InForce(t, i)
  {
  }

  lemma JustifiedAfter(t: seq<Event>, e: Event, ttl: int)
    requires AllJustified(t, ttl)
    requires e.Dispatched? && e.kind != REGISTER ==>
             e.token != "" && Licenses(InForce(t, e.who), e.from, e.token, e.at, ttl)
    ensures AllJustified(t + [e], ttl)
  {
    var t' := t + [e];
    forall k | 0 <= k < |t'|
      ensures Justified(t', k, ttl)
    {
      if k < |t| {
        assert Justified(t, k, ttl) && t'[..k] == t[..k];
      } else {
        assert t'[..k] == t;
      }
    }
  }

  /** The binding in force is an event of the trace, and nothing touched the session after it. */
  lemma {:induction false} InForceIsLast(t: seq<Event>, i: nat) returns (j: nat)
    requires InForce(t, i).Some?
    ensures j < |t| && InForce(t, i) == Some(t[j]) && t[j].Bound? && t[j].who == i
    ensures forall m | j < m < |t| && !t[m].Dispatched? :: t[m].who != i
  {
    var e := t[|t| - 1];
    if e.Bound? && e.who == i {
      j := |t| - 1;
    } else {
      j := InForceIsLast(t[..|t| - 1], i);
    }
  }

  // ------------------------------------------------------- what steps keep

  /** An effect that changes one session, takes its token, and logs its voiding. */
  lemma VoidKeeps(w: World, w': World, i: nat)
    requires UdpInv(w) && i < |w'.sess| && w'.sess[i].token == ""
    requires w'.trace == w.trace + [Voided(i)] && w'.tokenTtl == w.tokenTtl && w'.clock == w.clock
    requires forall j | 0 <= j < |w'.sess| && j != i :: j < |w.sess| && w'.sess[j] == w.sess[j]
    ensures UdpKept(w, w')
  {
    JustifiedAfter(w.trace, Voided(i), w.tokenTtl);
    forall j | 0 <= j < |w'.sess|
      ensures Agrees(w'.sess[j], j, InForce(w'.trace, j), w'.tokenTtl, w'.clock)
    {
      InForceAfter(w.trace, Voided(i), j);
    }
  }

  /** An effect that leaves trace, clock and credentials alone. */
  lemma ElsewhereKeeps(w: World, w': World)
    requires UdpInv(w) && |w'.sess| == |w.sess|
    requires w'.trace == w.trace && w'.tokenTtl == w.tokenTtl && w'.clock == w.clock
    requires forall j | 0 <= j < |w.sess| ::
               && w'.sess[j].token == w.sess[j].token && w'.sess[j].endpoint == w.sess[j].endpoint
               && w'.sess[j].issued == w.sess[j].issued && w'.sess[j].ttl == w.sess[j].ttl
    ensures UdpKept(w, w')
  {
  }

  lemma ReleaseKeepsUdp(w: World, i: nat)
    requires UdpInv(w) && i < |w.sess|
    ensures UdpKept(w, ReleaseToPool(w, i)) && |ReleaseToPool(w, i).sess| == |w.sess|
  {
    if Release(w.pool, i).1 {
      VoidKeeps(w, CleanupSession(w, i), i);
      ElsewhereKeeps(CleanupSession(w, i), ReleaseToPool(w, i));
    }
  }

  lemma RemoveKeepsUdp(w: World, id: int)
    requires UdpInv(w)
    ensures UdpKept(w, RemoveSession(w, id)) && |RemoveSession(w, id).sess| == |w.sess|
  {
    if id in w.table && w.table[id] < |w.sess| {
      var j := w.table[id];
      var w1 := DropEndpoint(w.(table := w.table - {id}), j);
      ElsewhereKeeps(w, w1);
      VoidKeeps(w1, ClearToken(w1, j), j);
      var w2 := ClearToken(w1, j);
      ElsewhereKeeps(w2, LeaveZone(w2, j));
      ReleaseKeepsUdp(LeaveZone(w2, j), j);
    }
  }

  lemma CloseKeepsUdp(w: World, i: nat)
    requires UdpInv(w) && i < |w.sess|
    ensures UdpKept(w, CloseSession(w, i)) && |CloseSession(w, i).sess| == |w.sess|
  {
    var s := w.sess[i];
    if s.Closable() {
      var w1 := Put(w, i, s.(state := Closed, life := Finalized));
      ElsewhereKeeps(w, w1);
      RemoveKeepsUdp(w1, s.id);
      var w2 := RemoveSession(w1, s.id);
      VoidKeeps(w2, CleanupSession(w2, i), i);
    }
  }

  lemma EvictKeepsUdp(w: World, i: nat, n: string)
    requires UdpInv(w)
    ensures UdpKept(w, Evict(w, i, n)) && |Evict(w, i, n).sess| == |w.sess|
  {
    if n in w.nicks && w.nicks[n] != i && w.nicks[n] < |w.sess| {
      CloseKeepsUdp(w, w.nicks[n]);
    }
  }

  lemma AddKeepsUdp(w: World, i: nat)
    requires UdpInv(w) && i < |w.sess|
    ensures UdpKept(w, AddSession(w, i)) && |AddSession(w, i).sess| == |w.sess|
  {
    var id := w.sess[i].id;
    var w1 := w.(table := w.table[id := i]);
    ElsewhereKeeps(w, w1);
    if id in w.table && w.table[id] < |w.sess| {
      CloseKeepsUdp(w1, w.table[id]);
    }
  }

  lemma AcceptKeepsUdp(w: World)
    requires UdpInv(w)
    ensures UdpKept(w, Accept(w))
  {
    var r := Acquire(w.pool).1;
    if r.Some? && r.value <= |w.sess| {
      VoidKeeps(w, HandOut(w, r.value), r.value);
      AddKeepsUdp(HandOut(w, r.value), r.value);
    } else {
      ElsewhereKeeps(w, w.(nextId := w.nextId + 1));
    }
  }

  /** Names, states and zones play no part in UDP. */
  lemma EnterKeepsUdp(w: World, i: nat, n: string)
    requires UdpInv(w) && i < |w.sess|
    ensures UdpKept(w, AssignZone(NameSession(w, i, n), i, DEFAULT_ZONE))
  {
  }

  lemma LoginOkKeepsUdp(w: World, i: nat, n: string)
    requires UdpInv(w) && i < |w.sess|
    ensures UdpKept(w, LoginOk(w, i, n))
  {
    var w1 := AddSession(w, i);
    AddKeepsUdp(w, i);
    EvictKeepsUdp(w1, i, n);
    var w2 := Evict(w1, i, n);
    EvictKeepsUdp(w2, i, n);
    EnterKeepsUdp(Evict(w2, i, n), i, n);
  }

  lemma RegisterKeepsUdp(w: World, p: Packet, i: nat)
    requires UdpInv(w) && i < |w.sess| && p.kind == REGISTER
    ensures var d := Dispatched(i, p.kind, p.from, p.token, w.clock);
            UdpKept(w, IssueToken(Log(Rebind(w, i, p.from), d), i, p))
  {
    var d := Dispatched(i, p.kind, p.from, p.token, w.clock);
    var b := Bound(i, p.from, p.newToken, w.clock);
    var w' := IssueToken(Log(Rebind(w, i, p.from), d), i, p);
    assert w'.trace == w.trace + [d] + [b];
    JustifiedAfter(w.trace, d, w.tokenTtl);
    JustifiedAfter(w.trace + [d], b, w.tokenTtl);
    forall j | 0 <= j < |w'.sess|
      ensures Agrees(w'.sess[j], j, InForce(w'.trace, j), w'.tokenTtl, w'.clock)
    {
      InForceAfter(w.trace, d, j);
      InForceAfter(w.trace + [d], b, j);
    }
  }

  lemma DispatchKeepsUdp(w: World, d: Event)
    requires UdpInv(w) && d.Dispatched?
    requires d.token != "" && Licenses(InForce(w.trace, d.who), d.from, d.token, d.at, w.tokenTtl)
    ensures UdpKept(w, Log(w, d))
  {
    JustifiedAfter(w.trace, d, w.tokenTtl);
    forall j | 0 <= j < |w.sess|
      ensures InForce(w.trace + [d], j) == InForce(w.trace, j)
    {
      InForceAfter(w.trace, d, j);
    }
  }

  /**
   The nickname's session has a binding in force for that sender and that token,
   issued at a nonzero time and young enough.
   */
  predicate Licensed(w: World, p: Packet) {
    && p.nickname != "" && p.token != ""
    && p.nickname in w.nicks && w.nicks[p.nickname] < |w.sess|
    && var b := InForce(w.trace, w.nicks[p.nickname]);
       Licenses(b, p.from, p.token, w.clock, w.tokenTtl) && b.value.at != 0
  }

  /** The nickname's session has a binding in force for that token that is too old, or was issued at time zero. */
  predicate Outdated(w: World, p: Packet) {
    && p.nickname != "" && p.token != ""
    && p.nickname in w.nicks && w.nicks[p.nickname] < |w.sess|
    && match InForce(w.trace, w.nicks[p.nickname])
       case Some(Bound(_, _, given, since)) =>
         given == p.token && (since == 0 || (w.clock - since) / NANOS_PER_SECOND > w.tokenTtl)
       case _ => false
  }

  /**
   Whether the server dispatches a datagram that is not a registration is decided by
   the trace and the two limiters alone. Otherwise nothing is dispatched, and nothing
   changes, except that the session loses a token that a datagram let through by the
   server-wide limiter shows to be outdated.
   */
  lemma AdmittedExactly(w: World, p: Packet, globalOk: bool, userOk: bool)
    requires Agreement(w) && p.kind != REGISTER
    ensures var w' := OnUdp(w, p, globalOk, userOk);
            if globalOk && userOk && Licensed(w, p) then
              w' == Log(w, Dispatched(w.nicks[p.nickname], p.kind, p.from, p.token, w.clock))
            else if globalOk && Outdated(w, p) then
              var i := w.nicks[p.nickname];
              w' == w.(sess := w.sess[i := w.sess[i].(token := "", issued := 0)], trace := w.trace + [Voided(i)])
            else w' == w
  {
    if p.nickname in w.nicks && w.nicks[p.nickname] < |w.sess| {
      var i := w.nicks[p.nickname];
      assert Agrees(w.sess[i], i, InForce(w.trace, i), w.tokenTtl, w.clock);
    }
  }

  lemma UdpKeepsUdp(w: World, p: Packet, globalOk: bool, userOk: bool)
    requires UdpInv(w)
    ensures UdpKept(w, OnUdp(w, p, globalOk, userOk))
  {
    if globalOk && p.nickname != "" && p.nickname in w.nicks && w.nicks[p.nickname] < |w.sess| {
      var i := w.nicks[p.nickname];
      var s := w.sess[i];
      if p.kind == REGISTER {
        RegisterKeepsUdp(w, p, i);
      } else if p.token != "" && s.token == p.token {
        assert Agrees(s, i, InForce(w.trace, i), w.tokenTtl, w.clock);
        if !s.TokenValid(w.clock) {
          VoidKeeps(w, ClearToken(w, i), i);
        } else if s.endpoint == Some(p.from) && userOk {
          DispatchKeepsUdp(w, Dispatched(i, p.kind, p.from, p.token, w.clock));
        }
      }
    }
  }

  lemma PerformKeepsUdp(w: World, s: Step)
    requires UdpInv(w)
    ensures UdpKept(w, Perform(w, s))
  {
    match s
    case Tick(n) =>
      forall j | 0 <= j < |w.sess|
        ensures Agrees(w.sess[j], j, InForce(w.trace, j), w.tokenTtl, w.clock + n)
      {
        assert Agrees(w.sess[j], j, InForce(w.trace, j), w.tokenTtl, w.clock);
      }
    case AliveStep(i) =>
      if i < |w.sess| {
        ElsewhereKeeps(w, Alive(w, i));
      }
    case AcceptStep => AcceptKeepsUdp(w);
    case LoginStep(i, n) =>
      if i < |w.sess| && n == "quit" {
        CloseKeepsUdp(w, i);
      } else if i < |w.sess| && n != "" {
        EvictKeepsUdp(w, i, n);
      }
    case LoginOkStep(i, n) =>
      if i < |w.sess| {
        LoginOkKeepsUdp(w, i, n);
      }
    case CloseStep(i) =>
      if i < |w.sess| {
        CloseKeepsUdp(w, i);
      }
    case UdpStep(p, g, u) => UdpKeepsUdp(w, p, g, u);
  }

  lemma {:induction false} RunKeepsUdp(w: World, steps: seq<Step>)
    requires UdpInv(w)
    ensures UdpKept(w, RunFree(w, steps))
    decreases |steps|
  {
    if steps != [] {
      RunKeepsUdp(w, steps[..|steps| - 1]);
      PerformKeepsUdp(RunFree(w, steps[..|steps| - 1]), steps[|steps| - 1]);
    }
  }

  /**
   In every run from a fresh server, late logins included: each dispatched datagram
   that is not a registration was preceded by a registration of the same session,
   from the same endpoint, that issued exactly its token, at most the time to live
   ago in whole seconds; and since then nothing bound the session again or took its
   token.
   */
  lemma UdpHistorySafe(c: Config, steps: seq<Step>, k: nat) returns (j: nat)
    requires var t := RunFree(Start(c), steps).trace;
             k < |t| && t[k].Dispatched? && t[k].kind != REGISTER
    ensures var t := RunFree(Start(c), steps).trace;
            && j < k && t[j].Bound?
            && t[j] == Bound(t[k].who, t[k].from, t[k].token, t[j].at)
            && t[j].at <= t[k].at && (t[k].at - t[j].at) / NANOS_PER_SECOND <= c.tokenTtl
            && (forall m | j < m < k && !t[m].Dispatched? :: t[m].who != t[k].who)
  {
    var w := Start(c);
    RunKeepsUdp(w, steps);
    var t := RunFree(w, steps).trace;
    assert Justified(t, k, c.tokenTtl);
    j := InForceIsLast(t[..k], t[k].who);
  }

  /** The credentials a session holds are, in every run, those of its binding in force. */
  lemma CredentialsMatchHistory(c: Config, steps: seq<Step>)
    ensures Agreement(RunFree(Start(c), steps))
  {
    RunKeepsUdp(Start(c), steps);
  }
}
