/**
 Whom the cleanup closes, told from the history of a run: who has completed a login,
 and when each session last gave a sign of life.
 */
module CleanupLaws {
  import opened Wrappers
  import opened Sessions
  import opened Pools
  import opened SessionTable
  import opened Worlds
  import opened Effects
  import opened Lifecycle
  import opened Guarantees
  import opened Evictions
  import opened UnauthCleanup

  // --------------------------------------------------- the state after a login

  /** Whoever carries a nickname is past the login. */
  ghost predicate NamedReady(w: World) {
    forall i | 0 <= i < |w.sess| && w.sess[i].nickname != "" :: w.sess[i].state == Ready
  }

  lemma CloseKeepsReady(w: World, i: nat)
    requires Inv(w) && NamedReady(w) && i < |w.sess|
    ensures NamedReady(CloseSession(w, i))
  {
    CloseOthers(w, i);
  }

  lemma EvictKeepsReady(w: World, i: nat, n: string)
    requires Inv(w) && NamedReady(w)
    ensures NamedReady(Evict(w, i, n))
  {
    if n in w.nicks && w.nicks[n] != i && w.nicks[n] < |w.sess| {
      CloseKeepsReady(w, w.nicks[n]);
    }
  }

  lemma LoginOkKeepsReady(w: World, i: nat, n: string)
    requires Inv(w) && NamedReady(w) && Registered(w, i) && n != ""
    ensures NamedReady(LoginOk(w, i, n))
  {
    LoginOkSteps(w, i, n);
    EvictKeepsReady(w, i, n);
    EvictKeepsReady(Evict(w, i, n), i, n);
    EnterEnds(Evict(Evict(w, i, n), i, n), i, n);
  }

  lemma LoginBeginKeepsReady(w: World, i: nat, n: string)
    requires Inv(w) && NamedReady(w) && i < |w.sess|
    ensures NamedReady(LoginBegin(w, i, n))
  {
    CloseKeepsReady(w, i);
    EvictKeepsReady(w, i, n);
  }

  /** Two records that agree on all that datagrams leave alone of what matters here. */
  predicate Alike(s: Sess, s': Sess) {
    s'.state == s.state && s'.nickname == s.nickname && s'.lastAlive == s.lastAlive
  }

  lemma RebindKeepsRecord(w: World, i: nat, from: Endpoint, j: nat)
    requires i < |w.sess| && j < |w.sess|
    ensures |Rebind(w, i, from).sess| == |w.sess| && Alike(w.sess[j], Rebind(w, i, from).sess[j])
  {
  }

  lemma IssueKeepsRecord(w: World, i: nat, p: Packet, j: nat)
    requires i < |w.sess| && j < |w.sess|
    ensures |IssueToken(w, i, p).sess| == |w.sess| && Alike(w.sess[j], IssueToken(w, i, p).sess[j])
  {
  }

  lemma DispatchKeepsRecord(w: World, i: nat, p: Packet, j: nat)
    requires i < |w.sess| && j < |w.sess|
    ensures |Dispatch(w, i, p).sess| == |w.sess| && Alike(w.sess[j], Dispatch(w, i, p).sess[j])
  {
    if p.kind == REGISTER {
      var w1 := Rebind(w, i, p.from);
      RebindKeepsRecord(w, i, p.from, j);
      IssueKeepsRecord(Log(w1, Dispatched(i, p.kind, p.from, p.token, w.clock)), i, p, j);
    }
  }

  /** Datagrams touch neither a session's state nor the time it was last alive. */
  lemma UdpKeepsRecord(w: World, p: Packet, globalOk: bool, userOk: bool, j: nat)
    requires j < |w.sess|
    ensures var w' := OnUdp(w, p, globalOk, userOk);
            |w'.sess| == |w.sess| && Alike(w.sess[j], w'.sess[j])
  {
    var v := Screen(w, p);
    if v.Passed? {
      DispatchKeepsRecord(w, v.i, p, j);
    }
  }

  lemma UdpKeepsReady(w: World, p: Packet, globalOk: bool, userOk: bool)
    requires NamedReady(w)
    ensures NamedReady(OnUdp(w, p, globalOk, userOk))
  {
    var w' := OnUdp(w, p, globalOk, userOk);
    UdpSame(w, p, globalOk, userOk);
    forall j | 0 <= j < |w.sess|
      ensures Alike(w.sess[j], w'.sess[j])
    {
      UdpKeepsRecord(w, p, globalOk, userOk, j);
    }
  }

  lemma AcceptKeepsReady(w: World)
    requires Inv(w) && NamedReady(w)
    ensures NamedReady(Accept(w))
  {
    AcceptClean(w);
  }

  lemma AliveKeepsReady(w: World, s: Step)
    requires NamedReady(w) && s.AliveStep?
    ensures NamedReady(Next(w, s))
  {
  }

  lemma NextKeepsReady(w: World, s: Step)
    requires Inv(w) && NamedReady(w)
    ensures NamedReady(Next(w, s))
  {
    if Allowed(w, s) {
      match s
      case Tick(n) =>
      case AliveStep(i) => AliveKeepsReady(w, s);
      case AcceptStep => AcceptKeepsReady(w);
      case LoginStep(i, n) =>
        if i < |w.sess| {
          LoginBeginKeepsReady(w, i, n);
        }
      case LoginOkStep(i, n) => LoginOkKeepsReady(w, i, n);
      case CloseStep(i) =>
        if i < |w.sess| {
          CloseKeepsReady(w, i);
        }
      case UdpStep(p, g, u) => UdpKeepsReady(w, p, g, u);
    }
  }

  lemma {:induction false} RunKeepsReady(c: Config, steps: seq<Step>)
    ensures NamedReady(Run(Start(c), steps))
    decreases |steps|
  {
    if steps != [] {
      var prefix := steps[..|steps| - 1];
      RunKeepsReady(c, prefix);
      Reached(c, prefix);
      NextKeepsReady(Run(Start(c), prefix), steps[|steps| - 1]);
    }
  }

  // ------------------------------------------------------- the last sign of life

  /** A keepalive of the session, or its hand-out to a client. */
  predicate Refreshes(w: World, s: Step, i: nat) {
    (s.AliveStep? && s.i == i && i < |w.sess|) || (s.AcceptStep? && Acquire(w.pool).1 == Some(i))
  }

  /** The clock at the session's last keepalive or hand-out, or at the start. */
  function LastSign(w: World, steps: seq<Step>, i: nat): int {
    if steps == [] then w.clock
    else
      var prefix, s := steps[..|steps| - 1], steps[|steps| - 1];
      if Refreshes(Run(w, prefix), s, i) then Run(w, prefix).clock else LastSign(w, prefix, i)
  }

  lemma CloseKeepsAlive(w: World, i: nat)
    requires Inv(w) && i < |w.sess|
    ensures var w' := CloseSession(w, i);
            |w'.sess| == |w.sess| && forall j | 0 <= j < |w.sess| :: w'.sess[j].lastAlive == w.sess[j].lastAlive
  {
    if Registered(w, i) {
      AfterCloseKeepsPool(w, i);
      CloseEffect(w, i);
    } else {
      IdFreeWhenUnregistered(w, i);
      CloseAgainEffect(w, i);
    }
  }

  lemma EvictKeepsAlive(w: World, i: nat, n: string)
    requires Inv(w)
    ensures var w' := Evict(w, i, n);
            |w'.sess| == |w.sess| && forall j | 0 <= j < |w.sess| :: w'.sess[j].lastAlive == w.sess[j].lastAlive
  {
    if n in w.nicks && w.nicks[n] != i && w.nicks[n] < |w.sess| {
      CloseKeepsAlive(w, w.nicks[n]);
    }
  }

  lemma LoginBeginKeepsAlive(w: World, i: nat, n: string)
    requires Inv(w) && i < |w.sess|
    ensures var w' := LoginBegin(w, i, n);
            |w'.sess| == |w.sess| && forall j | 0 <= j < |w.sess| :: w'.sess[j].lastAlive == w.sess[j].lastAlive
  {
    CloseKeepsAlive(w, i);
    EvictKeepsAlive(w, i, n);
  }

  lemma EnterKeepsAlive(w: World, i: nat, n: string)
    requires i < |w.sess|
    ensures var w' := AssignZone(NameSession(w, i, n), i, DEFAULT_ZONE);
            |w'.sess| == |w.sess| && forall j | 0 <= j < |w.sess| :: w'.sess[j].lastAlive == w.sess[j].lastAlive
  {
  }

  lemma LoginOkKeepsAlive(w: World, i: nat, n: string)
    requires Inv(w) && Registered(w, i) && n != ""
    ensures var w' := LoginOk(w, i, n);
            |w'.sess| == |w.sess| && forall j | 0 <= j < |w.sess| :: w'.sess[j].lastAlive == w.sess[j].lastAlive
  {
    LoginOkSteps(w, i, n);
    var w1 := Evict(w, i, n);
    EvictKeepsAlive(w, i, n);
    EvictKeepsAlive(w1, i, n);
    EnterKeepsAlive(Evict(w1, i, n), i, n);
  }

  lemma AcceptAlive(w: World, i: nat)
    requires Inv(w) && i < |Accept(w).sess|
    ensures if Acquire(w.pool).1 == Some(i) then Accept(w).sess[i].lastAlive == w.clock
            else i < |w.sess| && Accept(w).sess[i].lastAlive == w.sess[i].lastAlive
  {
    AcceptEffect(w);
  }

  lemma NextAlive(w: World, s: Step, i: nat)
    requires Inv(w) && i < |Next(w, s).sess|
    ensures if Refreshes(w, s, i) then Next(w, s).sess[i].lastAlive == w.clock
            else i < |w.sess| && Next(w, s).sess[i].lastAlive == w.sess[i].lastAlive
  {
    if Allowed(w, s) {
      match s
      case Tick(n) =>
      case AliveStep(j) =>
      case AcceptStep => AcceptAlive(w, i);
      case LoginStep(j, n) =>
        if j < |w.sess| {
          LoginBeginKeepsAlive(w, j, n);
        }
      case LoginOkStep(j, n) => LoginOkKeepsAlive(w, j, n);
      case CloseStep(j) =>
        if j < |w.sess| {
          CloseKeepsAlive(w, j);
        }
      case UdpStep(p, g, u) =>
        UdpSame(w, p, g, u);
        UdpKeepsRecord(w, p, g, u, i);
    }
  }

  /** In every run the time a session was last alive is that of its last keepalive or hand-out. */
  lemma {:induction false} AliveIsLastSign(c: Config, steps: seq<Step>, i: nat)
    requires i < |Run(Start(c), steps).sess|
    ensures Run(Start(c), steps).sess[i].lastAlive == LastSign(Start(c), steps, i)
    decreases |steps|
  {
    if steps != [] {
      var prefix := steps[..|steps| - 1];
      Reached(c, prefix);
      NextAlive(Run(Start(c), prefix), steps[|steps| - 1], i);
      if !Refreshes(Run(Start(c), prefix), steps[|steps| - 1], i) {
        AliveIsLastSign(c, prefix, i);
      }
    }
  }

  // ------------------------------------------------------------- main result

  /**
   In every run the cleanup leaves alone every session that completed a login and was not
   closed or handed out since: it stays registered with its record. And of those that wait,
   none that stays gave its last sign of life before one that is closed.
   */
  lemma CleanupByHistory(c: Config, steps: seq<Step>, ids: seq<int>, order: seq<nat>, max: nat)
    requires Enumerates(ids, order, UnauthTable(Run(Start(c), steps)))
    requires |order| > max ==> OldestFirst(Run(Start(c), steps), order)
    ensures var w := Run(Start(c), steps);
            var w' := CloseAll(w, order[..Excess(|order|, max)]);
            && |w'.sess| == |w.sess|
            && (forall i: nat | i < |w.sess| && NameSince(Start(c), steps, i) != "" ::
                  Registered(w, i) && Registered(w', i) && w'.sess[i] == w.sess[i] && w.sess[i].state == Ready)
            && (forall a, b | a in Waiting(w) && a !in Waiting(w') && b in Waiting(w') ::
                  LastSign(Start(c), steps, a) <= LastSign(Start(c), steps, b))
  {
    var w := Run(Start(c), steps);
    Reached(c, steps);
    RunKeepsReady(c, steps);
    TrimKeepsNewest(w, ids, order, max);
    var w' := CloseAll(w, order[..Excess(|order|, max)]);
    forall i: nat | i < |w.sess| && NameSince(Start(c), steps, i) != ""
      ensures w.sess[i].nickname != ""
    {
      NicknameIsOwnLastLogin(c, steps, i);
    }
    forall a, b | a in Waiting(w) && a !in Waiting(w') && b in Waiting(w')
      ensures LastSign(Start(c), steps, a) <= LastSign(Start(c), steps, b)
    {
      AliveIsLastSign(c, steps, a);
      AliveIsLastSign(c, steps, b);
    }
  }
}
