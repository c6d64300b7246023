/**
 The index from UDP endpoints to sessions, through rebinding, takeover by another
 session, removal and reuse.
 */
module EndpointIndex {
  import opened Wrappers
  import opened Sessions
  import opened Pools
  import opened Worlds
  import opened Effects
  import opened Lifecycle

  /**
   A registration that passes the limiters is for a registered session. The nickname
   index may name a session that has left, so this is not a matter of course.
   */
  predicate Proper(w: World, s: Step) {
    s.UdpStep? && s.globalOk && s.userOk && s.packet.kind == REGISTER
    && s.packet.nickname != "" && s.packet.nickname in w.nicks && w.nicks[s.packet.nickname] < |w.sess|
    ==> Registered(w, w.nicks[s.packet.nickname])
  }

  ghost predicate AllProper(w: World, steps: seq<Step>) {
    forall k | 0 <= k < |steps| :: Proper(Run(w, steps[..k]), steps[k])
  }

  // ----------------------------------------------------- what the steps keep

  lemma AfterCloseKeepsEndpoints(w: World, i: nat)
    requires TableInv(w) && EndpointInv(w) && Registered(w, i)
    ensures EndpointInv(AfterClose(w, i))
  {
    var w' := AfterClose(w, i);
    AfterCloseRegistered(w, i);
    forall e | e in w'.eps
      ensures e in w.eps && w.eps[e] != i && w'.eps[e] == w.eps[e]
    {
      assert w.sess[w.eps[e]].endpoint == Some(e);
    }
  }

  lemma AfterCloseAgainKeepsEndpoints(w: World, i: nat)
    requires EndpointInv(w) && i < |w.sess| && !Registered(w, i)
    ensures EndpointInv(AfterCloseAgain(w, i))
  {
  }

  lemma CloseKeepsEndpoints(w: World, i: nat)
    requires Inv(w) && EndpointInv(w) && i < |w.sess|
    ensures EndpointInv(CloseSession(w, i))
  {
    if Registered(w, i) {
      AfterCloseKeepsPool(w, i);
      CloseEffect(w, i);
      AfterCloseKeepsEndpoints(w, i);
    } else {
      IdFreeWhenUnregistered(w, i);
      CloseAgainEffect(w, i);
      AfterCloseAgainKeepsEndpoints(w, i);
    }
  }

  lemma EvictKeepsEndpoints(w: World, i: nat, n: string)
    requires Inv(w) && EndpointInv(w)
    ensures EndpointInv(Evict(w, i, n))
  {
    if n in w.nicks && w.nicks[n] != i && w.nicks[n] < |w.sess| {
      CloseKeepsEndpoints(w, w.nicks[n]);
    }
  }

  lemma AcceptedKeepsEndpoints(w: World, i: nat)
    requires TableInv(w) && EndpointInv(w) && i <= |w.sess| && (i < |w.sess| ==> !Registered(w, i))
    ensures EndpointInv(Accepted(w, i))
  {
    AcceptedRegistered(w, i);
  }

  /** Two worlds that agree on the index, the endpoints and who is registered. */
  lemma SameEndpoints(w: World, w': World)
    requires EndpointInv(w) && w'.eps == w.eps && |w'.sess| == |w.sess|
    requires forall j | 0 <= j < |w.sess| :: w'.sess[j].endpoint == w.sess[j].endpoint
    requires forall j :: Registered(w', j) <==> Registered(w, j)
    ensures EndpointInv(w')
  {
  }

  lemma AcceptKeepsEndpoints(w: World)
    requires Inv(w) && EndpointInv(w)
    ensures EndpointInv(Accept(w))
  {
    AcceptEffect(w);
    var r := Acquire(w.pool).1;
    if r.Some? {
      AcceptedKeepsEndpoints(w, r.value);
    } else {
      SameEndpoints(w, Accept(w));
    }
  }

  lemma EnterKeepsEndpoints(w: World, i: nat, n: string)
    requires EndpointInv(w) && i < |w.sess|
    ensures EndpointInv(AssignZone(NameSession(w, i, n), i, DEFAULT_ZONE))
  {
  }

  lemma LoginOkKeepsEndpoints(w: World, i: nat, n: string)
    requires Inv(w) && EndpointInv(w) && Registered(w, i) && n != ""
    ensures EndpointInv(LoginOk(w, i, n))
  {
    AddAgainEffect(w, i);
    var w1 := Evict(w, i, n);
    EvictKeepsEndpoints(w, i, n);
    EvictKeepsInv(w, i, n);
    EvictFreesNickname(w, i, n);
    var w2 := Evict(w1, i, n);
    EvictKeepsEndpoints(w1, i, n);
    EvictFreesNickname(w1, i, n);
    EnterKeepsEndpoints(w2, i, n);
  }

  lemma RebindKeepsEndpoints(w: World, i: nat, from: Endpoint)
    requires EndpointInv(w) && Registered(w, i)
    ensures EndpointInv(Rebind(w, i, from))
  {
    RebindSame(w, i, from);
    SameRegistered(w, Rebind(w, i, from));
  }

  /** Binding an endpoint to a session keeps the index sound exactly when the session is registered. */
  lemma RegisterKeepsEndpointsExactly(w: World, i: nat, p: Packet)
    requires EndpointInv(w) && i < |w.sess|
    ensures var d := Dispatched(i, p.kind, p.from, p.token, w.clock);
            EndpointInv(IssueToken(Log(Rebind(w, i, p.from), d), i, p)) <==> Registered(w, i)
  {
    var w1 := Rebind(w, i, p.from);
    var w' := IssueToken(Log(w1, Dispatched(i, p.kind, p.from, p.token, w.clock)), i, p);
    RegisterSame(w, i, p);
    SameRegistered(w, w');
    if Registered(w, i) {
      RebindKeepsEndpoints(w, i, p.from);
      RebindSame(w, i, p.from);
      SameRegistered(w, w1);
      SameEndpoints(w1, w');
    }
  }

  lemma UdpKeepsEndpointsExactly(w: World, p: Packet, globalOk: bool, userOk: bool)
    requires EndpointInv(w)
    ensures EndpointInv(OnUdp(w, p, globalOk, userOk)) <==> Proper(w, UdpStep(p, globalOk, userOk))
  {
    var w' := OnUdp(w, p, globalOk, userOk);
    UdpSame(w, p, globalOk, userOk);
    SameRegistered(w, w');
    if p.kind != REGISTER || !globalOk || !userOk || p.nickname == "" || p.nickname !in w.nicks
       || w.nicks[p.nickname] >= |w.sess| {
      SameEndpoints(w, w');
    } else {
      RegisterKeepsEndpointsExactly(w, w.nicks[p.nickname], p);
    }
  }

  lemma LoginBeginKeepsEndpoints(w: World, i: nat, n: string)
    requires Inv(w) && EndpointInv(w) && i < |w.sess|
    ensures EndpointInv(LoginBegin(w, i, n))
  {
    CloseKeepsEndpoints(w, i);
    EvictKeepsEndpoints(w, i, n);
  }

  lemma OtherStepsKeepEndpoints(w: World, s: Step)
    requires Inv(w) && EndpointInv(w) && !s.UdpStep? && Allowed(w, s)
    ensures EndpointInv(Next(w, s))
  {
    if Next(w, s) != w {
      match s
      case Tick(n) => SameEndpoints(w, Next(w, s));
      case AliveStep(i) => SameEndpoints(w, Next(w, s));
      case AcceptStep => AcceptKeepsEndpoints(w);
      case LoginStep(i, n) => LoginBeginKeepsEndpoints(w, i, n);
      case LoginOkStep(i, n) => LoginOkKeepsEndpoints(w, i, n);
      case CloseStep(i) => CloseKeepsEndpoints(w, i);
    }
  }

  lemma NextKeepsEndpointsExactly(w: World, s: Step)
    requires Inv(w) && EndpointInv(w)
    ensures EndpointInv(Next(w, s)) <==> Proper(w, s)
  {
    if s.UdpStep? {
      UdpKeepsEndpointsExactly(w, s.packet, s.globalOk, s.userOk);
    } else if Allowed(w, s) {
      OtherStepsKeepEndpoints(w, s);
    }
  }

  // -------------------------------------------------------------- main results

  lemma {:induction false} ProperRunKeepsEndpoints(c: Config, steps: seq<Step>)
    requires AllProper(Start(c), steps)
    ensures EndpointInv(Run(Start(c), steps))
    decreases |steps|
  {
    var w := Start(c);
    if steps != [] {
      var n := |steps| - 1;
      forall k | 0 <= k < n
        ensures Proper(Run(w, steps[..n][..k]), steps[..n][k])
      {
        assert steps[..n][..k] == steps[..k];
        assert Proper(Run(w, steps[..k]), steps[k]);
      }
      ProperRunKeepsEndpoints(c, steps[..n]);
      StartInv(c);
      RunKeepsInv(w, steps[..n]);
      assert Proper(Run(w, steps[..n]), steps[n]);
      NextKeepsEndpointsExactly(Run(w, steps[..n]), steps[n]);
    }
  }

  /**
   The index is sound all along a run exactly when every registration that the
   server processes is for a session registered at that moment.
   */
  lemma IndexSoundExactly(c: Config, steps: seq<Step>)
    ensures (forall k | 0 <= k <= |steps| :: EndpointInv(Run(Start(c), steps[..k]))) <==> AllProper(Start(c), steps)
  {
    var w := Start(c);
    if AllProper(w, steps) {
      forall k | 0 <= k <= |steps|
        ensures EndpointInv(Run(w, steps[..k]))
      {
        forall m | 0 <= m < k
          ensures Proper(Run(w, steps[..k][..m]), steps[..k][m])
        {
          assert steps[..k][..m] == steps[..m];
          assert Proper(Run(w, steps[..m]), steps[m]);
        }
        ProperRunKeepsEndpoints(c, steps[..k]);
      }
    }
    if forall k | 0 <= k <= |steps| :: EndpointInv(Run(w, steps[..k])) {
      forall k | 0 <= k < |steps|
        ensures Proper(Run(w, steps[..k]), steps[k])
      {
        StartInv(c);
        RunKeepsInv(w, steps[..k]);
        assert EndpointInv(Run(w, steps[..k + 1]));
        assert steps[..k + 1][..k] == steps[..k];
        NextKeepsEndpointsExactly(Run(w, steps[..k]), steps[k]);
      }
    }
  }

  /**
   In such runs an entry names a registered session whose own endpoint is the entry's
   key; so no two entries name the same session, and a session that was closed has none.
   */
  lemma EntriesAgreeWithSessions(c: Config, steps: seq<Step>, i: nat, e: Endpoint, e': Endpoint)
    requires AllProper(Start(c), steps) && i < |Run(Start(c), steps).sess|
    ensures var w := Run(Start(c), steps);
            && (Lookup(w.eps, e) == Some(i) ==> Registered(w, i) && w.sess[i].endpoint == Some(e))
            && (Lookup(w.eps, e) == Some(i) && Lookup(w.eps, e') == Some(i) ==> e == e')
            && Lookup(CloseSession(w, i).eps, e) != Some(i)
  {
    var w := Run(Start(c), steps);
    ProperRunKeepsEndpoints(c, steps);
    StartInv(c);
    RunKeepsInv(Start(c), steps);
    CloseKeepsEndpoints(w, i);
    CloseOthers(w, i);
  }

  // --------------------------------------------------- whose entry an endpoint has

  /**
   A registration that is processed, for a session in whatever state: the session is bound to
   the sender and gets the token, from now on for the time to live; the sender's entry becomes
   the session's unless the session was bound to it already, in which case it stays with
   whoever has it; the session's old entry goes if it was its own; all other entries and the
   records of all other sessions stay.
   */
  lemma RegistrationEnters(w: World, i: nat, p: Packet)
    requires p.kind == REGISTER && p.nickname != "" && Lookup(w.nicks, p.nickname) == Some(i) && i < |w.sess|
    ensures var w' := OnUdp(w, p, true, true);
            && |w'.sess| == |w.sess|
            && w'.sess[i] == w.sess[i].(endpoint := Some(p.from), token := p.newToken,
                                        issued := w.clock, ttl := w.tokenTtl)
            && (forall j | 0 <= j < |w.sess| && j != i :: w'.sess[j] == w.sess[j])
            && w'.trace == w.trace + [Dispatched(i, REGISTER, p.from, p.token, w.clock)]
                                   + [Bound(i, p.from, p.newToken, w.clock)]
            && (Lookup(w'.eps, p.from) == Some(i) <==>
                  w.sess[i].endpoint != Some(p.from) || Lookup(w.eps, p.from) == Some(i))
            && (forall f | f != p.from ::
                  Lookup(w'.eps, f) ==
                  if w.sess[i].endpoint == Some(f) && Lookup(w.eps, f) == Some(i) then None else Lookup(w.eps, f))
  {
    RebindRecords(w, i, p.from);
    RebindEnters(w, i, p.from);
    var w1 := Log(Rebind(w, i, p.from), Dispatched(i, p.kind, p.from, p.token, w.clock));
    IssueBinds(w1, i, p);
  }

  /** A registration under no nickname or an unknown one, or that a limiter turns down, changes nothing. */
  lemma RegistrationRefused(w: World, p: Packet, globalOk: bool, userOk: bool)
    requires p.kind == REGISTER
    requires !globalOk || !userOk || p.nickname == "" || p.nickname !in w.nicks
    ensures OnUdp(w, p, globalOk, userOk) == w
  {
  }

  lemma RebindRecords(w: World, i: nat, from: Endpoint)
    requires i < |w.sess|
    ensures var w' := Rebind(w, i, from);
            && |w'.sess| == |w.sess| && w'.trace == w.trace
            && w'.clock == w.clock && w'.tokenTtl == w.tokenTtl
            && w'.sess[i] == w.sess[i].(endpoint := Some(from))
            && (forall j | 0 <= j < |w.sess| && j != i :: w'.sess[j] == w.sess[j])
  {
  }

  lemma RebindEnters(w: World, i: nat, from: Endpoint)
    requires i < |w.sess|
    ensures var w' := Rebind(w, i, from);
            && (Lookup(w'.eps, from) == Some(i) <==>
                  w.sess[i].endpoint != Some(from) || Lookup(w.eps, from) == Some(i))
            && (forall f | f != from ::
                  Lookup(w'.eps, f) ==
                  if w.sess[i].endpoint == Some(f) && Lookup(w.eps, f) == Some(i) then None else Lookup(w.eps, f))
  {
  }

  lemma IssueBinds(w: World, i: nat, p: Packet)
    requires i < |w.sess| && w.sess[i].endpoint == Some(p.from)
    ensures var w' := IssueToken(w, i, p);
            && |w'.sess| == |w.sess| && w'.eps == w.eps
            && w'.trace == w.trace + [Bound(i, p.from, p.newToken, w.clock)]
            && w'.sess[i] == w.sess[i].(token := p.newToken, issued := w.clock, ttl := w.tokenTtl)
            && forall j | 0 <= j < |w.sess| && j != i :: w'.sess[j] == w.sess[j]
  {
  }

  /** The session that the step moves to the endpoint from another one or from none. */
  function Mover(w: World, s: Step, e: Endpoint): Option<nat> {
    if s.UdpStep? && s.globalOk && s.userOk && s.packet.kind == REGISTER && s.packet.from == e
       && s.packet.nickname != "" && s.packet.nickname in w.nicks && w.nicks[s.packet.nickname] < |w.sess|
       && w.sess[w.nicks[s.packet.nickname]].endpoint != Some(e)
    then Some(w.nicks[s.packet.nickname]) else None
  }

  /** The last session to move to the endpoint was another than i. */
  predicate Taken(w: World, steps: seq<Step>, i: nat, e: Endpoint) {
    steps != []
    && var prefix := steps[..|steps| - 1];
       match Mover(Run(w, prefix), steps[|steps| - 1], e)
       case Some(j) => j != i
       case None => Taken(w, prefix, i, e)
  }

  /** If session i is bound to e afterwards it was before, and has the entry now if it had it then. */
  ghost predicate KeepsEntry(w: World, w': World, i: nat, e: Endpoint) {
    i < |w'.sess| && w'.sess[i].endpoint == Some(e) ==>
      && i < |w.sess| && w.sess[i].endpoint == Some(e)
      && (Lookup(w'.eps, e) == Some(i) <==> Lookup(w.eps, e) == Some(i))
  }

  lemma CloseKeepsEntry(w: World, j: nat, i: nat, e: Endpoint)
    requires Inv(w) && j < |w.sess|
    ensures KeepsEntry(w, CloseSession(w, j), i, e)
  {
    if Registered(w, j) {
      AfterCloseKeepsPool(w, j);
      CloseEffect(w, j);
    } else {
      IdFreeWhenUnregistered(w, j);
      CloseAgainEffect(w, j);
    }
  }

  lemma EvictKeepsEntry(w: World, j: nat, n: string, i: nat, e: Endpoint)
    requires Inv(w)
    ensures KeepsEntry(w, Evict(w, j, n), i, e)
  {
    if n in w.nicks && w.nicks[n] != j && w.nicks[n] < |w.sess| {
      CloseKeepsEntry(w, w.nicks[n], i, e);
    }
  }

  lemma EnterKeepsEntry(w: World, j: nat, n: string, i: nat, e: Endpoint)
    requires j < |w.sess|
    ensures KeepsEntry(w, AssignZone(NameSession(w, j, n), j, DEFAULT_ZONE), i, e)
  {
  }

  lemma LoginOkKeepsEntry(w: World, j: nat, n: string, i: nat, e: Endpoint)
    requires Inv(w) && Registered(w, j) && n != ""
    ensures KeepsEntry(w, LoginOk(w, j, n), i, e)
  {
    AddAgainEffect(w, j);
    var w1 := Evict(w, j, n);
    var w2 := Evict(w1, j, n);
    EvictKeepsEntry(w, j, n, i, e);
    EvictKeepsInv(w, j, n);
    EvictFreesNickname(w, j, n);
    EvictKeepsEntry(w1, j, n, i, e);
    EvictFreesNickname(w1, j, n);
    EnterKeepsEntry(w2, j, n, i, e);
  }

  lemma AcceptedKeepsEntry(w: World, j: nat, i: nat, e: Endpoint)
    requires j <= |w.sess|
    ensures KeepsEntry(w, Accepted(w, j), i, e)
  {
  }

  lemma AcceptKeepsEntry(w: World, i: nat, e: Endpoint)
    requires Inv(w)
    ensures KeepsEntry(w, Accept(w), i, e)
  {
    AcceptEffect(w);
    var r := Acquire(w.pool).1;
    if r.Some? {
      AcceptedKeepsEntry(w, r.value, i, e);
    }
  }

  /** A datagram that moves nobody to the endpoint leaves its entry to whoever is bound there. */
  lemma UdpKeepsEntry(w: World, s: Step, i: nat, e: Endpoint)
    requires s.UdpStep? && Mover(w, s, e) == None
    ensures KeepsEntry(w, Next(w, s), i, e)
  {
    var p := s.packet;
    if s.globalOk && s.userOk && p.kind == REGISTER && p.nickname != "" && p.nickname in w.nicks
       && w.nicks[p.nickname] < |w.sess| {
      RegistrationEnters(w, w.nicks[p.nickname], p);
    }
  }

  lemma LoginBeginKeepsEntry(w: World, j: nat, n: string, i: nat, e: Endpoint)
    requires Inv(w) && j < |w.sess|
    ensures KeepsEntry(w, LoginBegin(w, j, n), i, e)
  {
    CloseKeepsEntry(w, j, i, e);
    EvictKeepsEntry(w, j, n, i, e);
  }

  lemma QuietKeepsEntry(w: World, s: Step, i: nat, e: Endpoint)
    requires s.Tick? || s.AliveStep?
    ensures KeepsEntry(w, Next(w, s), i, e)
  {
  }

  lemma NextKeepsEntry(w: World, s: Step, i: nat, e: Endpoint)
    requires Inv(w) && Mover(w, s, e) == None
    ensures KeepsEntry(w, Next(w, s), i, e)
  {
    if Next(w, s) != w {
      match s
      case Tick(n) => QuietKeepsEntry(w, s, i, e);
      case AliveStep(j) => QuietKeepsEntry(w, s, i, e);
      case AcceptStep => AcceptKeepsEntry(w, i, e);
      case LoginStep(j, n) => LoginBeginKeepsEntry(w, j, n, i, e);
      case LoginOkStep(j, n) => LoginOkKeepsEntry(w, j, n, i, e);
      case CloseStep(j) => CloseKeepsEntry(w, j, i, e);
      case UdpStep(p, g, u) => UdpKeepsEntry(w, s, i, e);
    }
  }

  lemma MoverGetsEntry(w: World, s: Step, e: Endpoint)
    requires Mover(w, s, e).Some?
    ensures Lookup(Next(w, s).eps, e) == Mover(w, s, e)
  {
    RegistrationEnters(w, Mover(w, s, e).value, s.packet);
  }

  lemma {:induction false} EntryUnlessTaken(c: Config, steps: seq<Step>, i: nat, e: Endpoint)
    requires i < |Run(Start(c), steps).sess| && Run(Start(c), steps).sess[i].endpoint == Some(e)
    ensures Lookup(Run(Start(c), steps).eps, e) == Some(i) <==> !Taken(Start(c), steps, i, e)
    decreases |steps|
  {
    if steps != [] {
      var prefix, s := steps[..|steps| - 1], steps[|steps| - 1];
      var w := Run(Start(c), prefix);
      StartInv(c);
      RunKeepsInv(Start(c), prefix);
      if Mover(w, s, e).Some? {
        MoverGetsEntry(w, s, e);
      } else {
        NextKeepsEntry(w, s, i, e);
        EntryUnlessTaken(c, prefix, i, e);
      }
    }
  }

  /**
   In every run a session that is bound to an endpoint has the endpoint's entry if and only
   if no other session was the last to move there; and in the runs where the index is sound
   the entry is the session's exactly when the session is bound to the endpoint and that holds.
   */
  lemma IndexCompleteExactly(c: Config, steps: seq<Step>, i: nat, e: Endpoint)
    requires i < |Run(Start(c), steps).sess|
    ensures var w := Run(Start(c), steps);
            && (w.sess[i].endpoint == Some(e) ==>
                  (Lookup(w.eps, e) == Some(i) <==> !Taken(Start(c), steps, i, e)))
            && (AllProper(Start(c), steps) ==>
                  (Lookup(w.eps, e) == Some(i) <==> w.sess[i].endpoint == Some(e) && !Taken(Start(c), steps, i, e)))
  {
    if Run(Start(c), steps).sess[i].endpoint == Some(e) {
      EntryUnlessTaken(c, steps, i, e);
    }
    if AllProper(Start(c), steps) {
      EntriesAgreeWithSessions(c, steps, i, e, e);
    }
  }

  /**
   Registrations for departed sessions do arise: nicknames stay in the index after a
   close, so the next registration under the nickname binds an endpoint and a token to
   a session that waits in the free queue.
   */
  lemma RegistrationAfterClose(c: Config, steps: seq<Step>, i: nat, p: Packet)
    requires i < |Run(Start(c), steps).sess|
    requires Run(Start(c), steps).sess[i].nickname == p.nickname && p.nickname != "" && p.kind == REGISTER
    ensures var w := CloseSession(Run(Start(c), steps), i);
            var w' := OnUdp(w, p, true, true);
            && !Proper(w, UdpStep(p, true, true)) && i in w'.pool.queue
            && Lookup(w'.eps, p.from) == Some(i) && i < |w'.sess| && w'.sess[i].token == p.newToken
  {
    var w := Run(Start(c), steps);
    StartInv(c);
    RunKeepsInv(Start(c), steps);
    CloseOthers(w, i);
    CloseKeepsInv(w, i);
    CloseEmptiesRecord(w, i);
    RegistrationBinds(CloseSession(w, i), i, p);
  }

  lemma RegistrationBinds(w: World, i: nat, p: Packet)
    requires i < |w.sess| && p.kind == REGISTER && p.nickname != "" && Lookup(w.nicks, p.nickname) == Some(i)
    requires w.sess[i].endpoint == None
    ensures var w' := OnUdp(w, p, true, true);
            && |w'.sess| == |w.sess| && w'.pool == w.pool
            && Lookup(w'.eps, p.from) == Some(i) && w'.sess[i].token == p.newToken
  {
  }

  lemma CloseEmptiesRecord(w: World, i: nat)
    requires Inv(w) && Registered(w, i)
    ensures CloseSession(w, i).sess[i] == Gone(w.sess[i]) && i in CloseSession(w, i).pool.queue
  {
    AfterCloseKeepsPool(w, i);
    CloseEffect(w, i);
  }
}
