/**
 The two rate limiters at their places in front of the dispatcher. A session's own one is
 asked twice: where datagrams come in, for the session that the endpoint index names for the
 sender, and again for the session of the nickname once the server-wide limiter and the
 other checks have let the datagram pass. Their bounds become bounds on what is dispatched,
 over every run of the server.
 */
module UdpAdmission {
  import opened Wrappers
  import opened Sessions
  import opened Pools
  import opened Worlds
  import TB = TokenBucket
  import SL = ShardedLimiter

  /** The server with its limiters: one bucket for each session of the pool, kept through reuse. */
  datatype Guarded = Guarded(world: World, limiter: SL.Limiter, limit: nat, buckets: seq<TB.Bucket>)

  /** A datagram comes with the hash of the thread that receives it. */
  datatype GuardedStep = Datagram(packet: Packet, slot: nat) | Other(step: Step)

  function Launch(c: Config, shards: nat, limit: nat): Guarded {
    Guarded(Start(c), SL.Fresh(shards), limit, seq(c.poolSize, i => TB.Bucket(TB.MAX_TOKENS, c.clock)))
  }

  predicate Shaped(g: Guarded) {
    SL.Shaped(g.limiter) && |g.buckets| == |g.world.sess|
  }

  function Second(w: World): int {
    w.clock / NANOS_PER_SECOND
  }

  function ShardOf(l: SL.Limiter, slot: nat): nat
    requires SL.Shaped(l)
    ensures l.counts != [] ==> ShardOf(l, slot) < |l.counts|
  {
    if l.counts == [] then 0 else slot % |l.counts|
  }

  function OnDatagram(g: Guarded, p: Packet, slot: nat): Guarded
    requires Shaped(g)
  {
    var (l, globalOk) := SL.Call(g.limiter, Second(g.world), ShardOf(g.limiter, slot), g.limit);
    var g1 := g.(limiter := l);
    if !globalOk then g1
    else match Screen(g.world, p)
      case Passed(i) =>
        var (b, userOk) := TB.Check(g.buckets[i], g.world.clock);
        g1.(buckets := g.buckets[i := b], world := OnUdp(g.world, p, true, userOk))
      case _ => g1.(world := OnUdp(g.world, p, true, false))
  }

  /** The session that the endpoint index names for a sender. */
  function Named(g: Guarded, from: Endpoint): Option<nat> {
    if from in g.world.eps && g.world.eps[from] < |g.buckets| then Some(g.world.eps[from]) else None
  }

  /** That session, if there is one, pays a token before anything else is looked at. */
  function Enter(g: Guarded, from: Endpoint): (Guarded, bool) {
    match Named(g, from)
    case None => (g, true)
    case Some(j) =>
      var (b, ok) := TB.Check(g.buckets[j], g.world.clock);
      (g.(buckets := g.buckets[j := b]), ok)
  }

  function Receive(g: Guarded, p: Packet, slot: nat): Guarded
    requires Shaped(g)
  {
    var (g1, ok) := Enter(g, p.from);
    if ok then OnDatagram(g1, p, slot) else g1
  }

  /** A session that the pool makes comes with a full bucket. */
  function Advance(g: Guarded, s: GuardedStep): Guarded
    requires Shaped(g)
  {
    match s
    case Datagram(p, slot) => Receive(g, p, slot)
    case Other(step) =>
      if step.UdpStep? then g
      else
        var w := Perform(g.world, step);
        g.(world := w, buckets := if |w.sess| > |g.buckets| then g.buckets + [TB.Bucket(TB.MAX_TOKENS, w.clock)]
                                  else g.buckets)
  }

  // --------------------------------------------------------- dispatched datagrams

  /** The datagrams of a trace that were dispatched. */
  function Sent(t: seq<Event>): seq<Event> {
    if t == [] then []
    else Sent(t[..|t| - 1]) + if t[|t| - 1].Dispatched? then [t[|t| - 1]] else []
  }

  lemma SentAfter(t: seq<Event>, e: Event)
    ensures Sent(t + [e]) == Sent(t) + if e.Dispatched? then [e] else []
  {
    assert (t + [e])[..|t|] == t;
  }

  /** Nothing was dispatched, time stood still, and the sessions are the same ones. */
  predicate Quiet(w: World, w': World) {
    Sent(w'.trace) == Sent(w.trace) && w'.clock == w.clock && |w'.sess| == |w.sess|
  }

  lemma VoidQuiet(w: World, w': World, i: nat)
    requires w'.trace == w.trace + [Voided(i)] && w'.clock == w.clock && |w'.sess| == |w.sess|
    ensures Quiet(w, w')
  {
    SentAfter(w.trace, Voided(i));
  }

  lemma ReleaseQuiet(w: World, i: nat)
    requires i < |w.sess|
    ensures Quiet(w, ReleaseToPool(w, i))
  {
    VoidQuiet(w, CleanupSession(w, i), i);
  }

  lemma LeaveQuiet(w: World, i: nat)
    requires i < |w.sess|
    ensures Quiet(w, DropEndpoint(w, i)) && Quiet(w, LeaveZone(w, i)) && Quiet(w, ClearToken(w, i))
  {
    VoidQuiet(w, ClearToken(w, i), i);
  }

  lemma RemoveQuiet(w: World, id: int)
    ensures Quiet(w, RemoveSession(w, id))
  {
    if id in w.table && w.table[id] < |w.sess| {
      var j := w.table[id];
      var w1 := w.(table := w.table - {id});
      LeaveQuiet(w1, j);
      var w2 := DropEndpoint(w1, j);
      LeaveQuiet(w2, j);
      var w3 := ClearToken(w2, j);
      LeaveQuiet(w3, j);
      ReleaseQuiet(LeaveZone(w3, j), j);
    }
  }

  lemma CloseQuiet(w: World, i: nat)
    requires i < |w.sess|
    ensures Quiet(w, CloseSession(w, i))
  {
    var s := w.sess[i];
    if s.Closable() {
      var w1 := Put(w, i, s.(state := Closed, life := Finalized));
      RemoveQuiet(w1, s.id);
      var w2 := RemoveSession(w1, s.id);
      VoidQuiet(w2, CleanupSession(w2, i), i);
    }
  }

  lemma EvictQuiet(w: World, i: nat, n: string)
    ensures Quiet(w, Evict(w, i, n))
  {
    if n in w.nicks && w.nicks[n] < |w.sess| {
      CloseQuiet(w, w.nicks[n]);
    }
  }

  lemma LoginBeginQuiet(w: World, i: nat, n: string)
    requires i < |w.sess|
    ensures Quiet(w, LoginBegin(w, i, n))
  {
    CloseQuiet(w, i);
    EvictQuiet(w, i, n);
  }

  lemma AddQuiet(w: World, i: nat)
    requires i < |w.sess|
    ensures Quiet(w, AddSession(w, i))
  {
    var id := w.sess[i].id;
    if id in w.table && w.table[id] < |w.sess| {
      CloseQuiet(w.(table := w.table[id := i]), w.table[id]);
    }
  }

  lemma EnterQuiet(w: World, i: nat, n: string)
    ensures i < |w.sess| ==> Quiet(w, AssignZone(NameSession(w, i, n), i, DEFAULT_ZONE))
  {
  }

  lemma LoginOkQuiet(w: World, i: nat, n: string)
    requires i < |w.sess|
    ensures Quiet(w, LoginOk(w, i, n))
  {
    var w1 := AddSession(w, i);
    AddQuiet(w, i);
    EvictQuiet(w1, i, n);
    EvictQuiet(Evict(w1, i, n), i, n);
    EnterQuiet(Evict(Evict(w1, i, n), i, n), i, n);
  }

  lemma AcceptQuiet(w: World)
    ensures var w' := Accept(w);
            && Sent(w'.trace) == Sent(w.trace) && w'.clock == w.clock && |w.sess| <= |w'.sess| <= |w.sess| + 1
  {
    var r := Acquire(w.pool).1;
    if r.Some? && r.value <= |w.sess| {
      SentAfter(w.trace, Voided(r.value));
      AddQuiet(HandOut(w, r.value), r.value);
    }
  }

  lemma AcceptAdvances(g: Guarded)
    requires Shaped(g)
    ensures var w := Accept(g.world);
            && |g.buckets| <= |w.sess| <= |g.buckets| + 1 && w.clock == g.world.clock
            && Advance(g, Other(AcceptStep))
               == g.(world := w, buckets := if |w.sess| > |g.buckets|
                                            then g.buckets + [TB.Bucket(TB.MAX_TOKENS, w.clock)] else g.buckets)
  {
    AcceptQuiet(g.world);
  }

  /** What the other steps do to what the limiters see. */
  lemma OtherSteps(w: World, s: Step)
    requires !s.UdpStep?
    ensures var w' := Perform(w, s);
            && Sent(w'.trace) == Sent(w.trace) && w.clock <= w'.clock && |w.sess| <= |w'.sess| <= |w.sess| + 1
  {
    match s
    case Tick(n) =>
    case AliveStep(i) =>
    case AcceptStep => AcceptQuiet(w);
    case LoginStep(i, n) =>
      if i < |w.sess| {
        LoginBeginQuiet(w, i, n);
      }
    case LoginOkStep(i, n) =>
      if i < |w.sess| {
        LoginOkQuiet(w, i, n);
      }
    case CloseStep(i) =>
      if i < |w.sess| {
        CloseQuiet(w, i);
      }
  }

  lemma RegistrationSends(w: World, i: nat, p: Packet, d: Event)
    requires i < |w.sess| && d.Dispatched?
    ensures var w' := IssueToken(Log(Rebind(w, i, p.from), d), i, p);
            Sent(w'.trace) == Sent(w.trace) + [d] && w'.clock == w.clock && |w'.sess| == |w.sess|
  {
    var w1 := Rebind(w, i, p.from);
    assert w1.trace == w.trace && w1.clock == w.clock && |w1.sess| == |w.sess|;
    var w2 := Log(w1, d);
    SentAfter(w.trace, d);
    SentAfter(w2.trace, Bound(i, p.from, p.newToken, w.clock));
  }

  lemma DispatchSends(w: World, i: nat, p: Packet)
    requires i < |w.sess|
    ensures var w' := Dispatch(w, i, p);
            && Sent(w'.trace) == Sent(w.trace) + [Dispatched(i, p.kind, p.from, p.token, w.clock)]
            && w'.clock == w.clock && |w'.sess| == |w.sess|
  {
    var d := Dispatched(i, p.kind, p.from, p.token, w.clock);
    RegistrationSends(w, i, p, d);
    SentAfter(w.trace, d);
  }

  // ------------------------------------------------------------------------- runs

  lemma EnterShaped(g: Guarded, from: Endpoint)
    requires Shaped(g)
    ensures Shaped(Enter(g, from).0) && Enter(g, from).0 == g.(buckets := Enter(g, from).0.buckets)
  {
  }

  lemma DatagramShaped(g: Guarded, p: Packet, slot: nat)
    requires Shaped(g)
    ensures var g' := OnDatagram(g, p, slot); Shaped(g') && g'.world.clock == g.world.clock
  {
    if Screen(g.world, p).Passed? {
      DispatchSends(g.world, Screen(g.world, p).i, p);
    }
  }

  lemma AdvanceShaped(g: Guarded, s: GuardedStep)
    requires Shaped(g)
    ensures Shaped(Advance(g, s)) && g.world.clock <= Advance(g, s).world.clock
  {
    match s
    case Datagram(p, slot) =>
      EnterShaped(g, p.from);
      DatagramShaped(Enter(g, p.from).0, p, slot);
    case Other(step) =>
      if !step.UdpStep? {
        OtherSteps(g.world, step);
      }
  }

  function Run(g: Guarded, steps: seq<GuardedStep>): (r: Guarded)
    requires Shaped(g)
    ensures Shaped(r) && g.world.clock <= r.world.clock
    decreases |steps|
  {
    if steps == [] then g
    else
      var g1 := Run(g, steps[..|steps| - 1]);
      AdvanceShaped(g1, steps[|steps| - 1]);
      Advance(g1, steps[|steps| - 1])
  }

  /** The step of the server alone, with the answers that the limiters give. */
  function Plain(g: Guarded, s: GuardedStep): seq<Step>
    requires Shaped(g)
  {
    match s
    case Datagram(p, slot) =>
      var (g1, ok) := Enter(g, p.from);
      var globalOk := SL.Call(g.limiter, Second(g.world), ShardOf(g.limiter, slot), g.limit).1;
      var v := Screen(g.world, p);
      if ok then [UdpStep(p, globalOk, v.Passed? && TB.Check(g1.buckets[v.i], g.world.clock).1)] else []
    case Other(step) => if step.UdpStep? then [] else [step]
  }

  function PlainRun(g: Guarded, steps: seq<GuardedStep>): seq<Step>
    requires Shaped(g)
    decreases |steps|
  {
    if steps == [] then []
    else PlainRun(g, steps[..|steps| - 1]) + Plain(Run(g, steps[..|steps| - 1]), steps[|steps| - 1])
  }

  lemma PlainStep(g: Guarded, s: GuardedStep)
    requires Shaped(g)
    ensures var plain := Plain(g, s);
            |plain| <= 1 && Advance(g, s).world == if plain == [] then g.world else Perform(g.world, plain[0])
  {
  }

  lemma FreeAfter(w: World, steps: seq<Step>, more: seq<Step>)
    requires |more| <= 1
    ensures RunFree(w, steps + more) == if more == [] then RunFree(w, steps) else Perform(RunFree(w, steps), more[0])
  {
    if more == [] {
      assert steps + more == steps;
    } else {
      assert (steps + more)[..|steps|] == steps;
    }
  }

  /** With its limiters the server does what it does without them, given their answers. */
  lemma {:induction false} GuardedRunsAreRuns(g: Guarded, steps: seq<GuardedStep>)
    requires Shaped(g)
    ensures Run(g, steps).world == RunFree(g.world, PlainRun(g, steps))
    decreases |steps|
  {
    if steps != [] {
      var prefix, s := steps[..|steps| - 1], steps[|steps| - 1];
      GuardedRunsAreRuns(g, prefix);
      PlainStep(Run(g, prefix), s);
      FreeAfter(g.world, PlainRun(g, prefix), Plain(Run(g, prefix), s));
    }
  }

  // ------------------------------------------------------------ one session's rate

  function CountOf(sent: seq<Event>, h: nat): nat {
    if sent == [] then 0
    else CountOf(sent[..|sent| - 1], h) + if sent[|sent| - 1].who == h then 1 else 0
  }

  lemma CountAfter(sent: seq<Event>, e: Event, h: nat)
    ensures CountOf(sent + [e], h) == CountOf(sent, h) + if e.who == h then 1 else 0
  {
    assert (sent + [e])[..|sent|] == sent;
  }

  ghost predicate BucketsSane(g: Guarded) {
    forall i | 0 <= i < |g.buckets| :: TB.Sane(g.buckets[i], g.world.clock)
  }

  lemma CheckSane(b: TB.Bucket, now: int)
    requires TB.Sane(b, now)
    ensures TB.Sane(TB.Check(b, now).0, now)
  {
    TB.RefillIsEarned(now - b.lastRefill);
  }

  lemma EnterSane(g: Guarded, from: Endpoint)
    requires Shaped(g) && BucketsSane(g)
    ensures Shaped(Enter(g, from).0) && BucketsSane(Enter(g, from).0)
  {
    if Named(g, from).Some? {
      CheckSane(g.buckets[Named(g, from).value], g.world.clock);
    }
  }

  lemma DatagramSane(g: Guarded, p: Packet, slot: nat)
    requires Shaped(g) && BucketsSane(g)
    ensures BucketsSane(OnDatagram(g, p, slot))
  {
    DatagramShaped(g, p, slot);
    if Screen(g.world, p).Passed? {
      CheckSane(g.buckets[Screen(g.world, p).i], g.world.clock);
    }
  }

  lemma AdvanceSane(g: Guarded, s: GuardedStep)
    requires Shaped(g) && BucketsSane(g)
    ensures BucketsSane(Advance(g, s))
  {
    AdvanceShaped(g, s);
    match s
    case Datagram(p, slot) =>
      EnterSane(g, p.from);
      DatagramSane(Enter(g, p.from).0, p, slot);
    case Other(step) =>
  }

  lemma {:induction false} RunSane(g: Guarded, steps: seq<GuardedStep>)
    requires Shaped(g) && BucketsSane(g)
    ensures BucketsSane(Run(g, steps))
    decreases |steps|
  {
    if steps != [] {
      RunSane(g, steps[..|steps| - 1]);
      AdvanceSane(Run(g, steps[..|steps| - 1]), steps[|steps| - 1]);
    }
  }

  /** Datagrams dispatched for the session so far. */
  function Served(g: Guarded, h: nat): nat {
    CountOf(Sent(g.world.trace), h)
  }

  /** The datagram, once let in, gets as far as the session's bucket. */
  predicate Asks(g: Guarded, p: Packet, slot: nat, h: nat)
    requires Shaped(g)
  {
    && Screen(g.world, p) == Passed(h) && h < |g.buckets|
    && SL.Call(g.limiter, Second(g.world), ShardOf(g.limiter, slot), g.limit).1
  }

  /** The first charge: it dispatches nothing. */
  lemma EnterCharges(g: Guarded, from: Endpoint, h: nat)
    requires Shaped(g) && h < |g.buckets|
    ensures var (g1, ok) := Enter(g, from);
            && |g1.buckets| == |g.buckets| && g1.world == g.world && g1.limiter == g.limiter && g1.limit == g.limit
            && if Named(g, from) == Some(h) then (g1.buckets[h], ok) == TB.Check(g.buckets[h], g.world.clock)
               else g1.buckets[h] == g.buckets[h]
  {
  }

  /** The second charge: a datagram that asks the session's bucket is dispatched exactly if there is a token. */
  lemma DatagramCounts(g: Guarded, p: Packet, slot: nat, h: nat)
    requires Shaped(g)
    ensures var g' := OnDatagram(g, p, slot);
            && |g'.buckets| == |g.buckets| && g'.world.clock == g.world.clock
            && if Asks(g, p, slot, h) then
                 var (b, ok) := TB.Check(g.buckets[h], g.world.clock);
                 && g'.buckets[h] == b && Served(g', h) == (if ok then Served(g, h) + 1 else Served(g, h))
               else
                 && Served(g', h) == Served(g, h) && (h < |g.buckets| ==> g'.buckets[h] == g.buckets[h])
  {
    if Screen(g.world, p).Passed? {
      var i := Screen(g.world, p).i;
      DispatchSends(g.world, i, p);
      CountAfter(Sent(g.world.trace), Dispatched(i, p.kind, p.from, p.token, g.world.clock), h);
    } else if Screen(g.world, p).Expired? {
      VoidQuiet(g.world, ClearToken(g.world, Screen(g.world, p).i), Screen(g.world, p).i);
    }
  }

  /** Other steps dispatch nothing and leave the buckets; a session that the pool makes has a full one. */
  lemma OtherCounts(g: Guarded, s: GuardedStep, h: nat)
    requires Shaped(g) && s.Other?
    ensures var g' := Advance(g, s);
            && g.world.clock <= g'.world.clock && |g.buckets| <= |g'.buckets| && Served(g', h) == Served(g, h)
            && (h < |g.buckets| ==> g'.buckets[h] == g.buckets[h])
            && (|g.buckets| <= h < |g'.buckets| ==> g'.buckets[h] == TB.Bucket(TB.MAX_TOKENS, g'.world.clock))
  {
    if !s.step.UdpStep? {
      OtherSteps(g.world, s.step);
    }
  }

  /**
   What a datagram costs that the server-wide limiter and the checks let pass: a session that
   has the sender's entry pays two tokens, and the datagram is dispatched if and only if it
   has both. Without an entry for the sender one token decides; and if another session has
   the entry, one token of each.
   */
  lemma TokensPaid(g: Guarded, p: Packet, slot: nat, h: nat)
    requires Shaped(g) && BucketsSane(g) && Asks(g, p, slot, h)
    ensures var g' := Receive(g, p, slot);
            var tokens := TB.Available(g.buckets[h], g.world.clock);
            && |g'.buckets| == |g.buckets|
            && Served(g', h) - Served(g, h) ==
               (if (match Named(g, p.from)
                    case Some(j) => if j == h then tokens >= 2
                                    else tokens >= 1 && TB.Available(g.buckets[j], g.world.clock) >= 1
                    case None => tokens >= 1) then 1 else 0)
            && (Named(g, p.from) == Some(h) ==>
                  TB.Available(g'.buckets[h], g.world.clock) == if tokens >= 2 then tokens - 2 else 0)
  {
    var g1 := Enter(g, p.from).0;
    EnterCharges(g, p.from, h);
    EnterSane(g, p.from);
    DatagramCounts(g1, p, slot, h);
    TB.CheckSpends(g.buckets[h], g.world.clock);
    TB.CheckSpends(g1.buckets[h], g.world.clock);
    if Named(g, p.from).Some? {
      TB.CheckSpends(g.buckets[Named(g, p.from).value], g.world.clock);
    }
  }

  /** The session's bucket accounts for n tokens paid since a given time. */
  ghost predicate Follows(g: Guarded, h: nat, n: nat, since: int) {
    && (h < |g.buckets| ==> TB.Within(g.buckets[h], n, since, g.world.clock))
    && (h >= |g.buckets| ==> n == 0)
  }

  /** The datagram is dispatched for a session that has the sender's entry. */
  predicate PaysTwice(g: Guarded, s: GuardedStep, h: nat)
    requires Shaped(g)
  {
    s.Datagram? && Named(g, s.packet.from) == Some(h) && Served(Advance(g, s), h) > Served(g, h)
  }

  /** The datagrams among those dispatched for the session in the run that cost it two tokens. */
  function Twice(g: Guarded, steps: seq<GuardedStep>, h: nat): nat
    requires Shaped(g)
    decreases |steps|
  {
    if steps == [] then 0
    else
      var prefix, s := steps[..|steps| - 1], steps[|steps| - 1];
      Twice(g, prefix, h) + if PaysTwice(Run(g, prefix), s, h) then 1 else 0
  }

  lemma ReceiveFollows(g: Guarded, p: Packet, slot: nat, h: nat, n: nat, since: int)
    requires Shaped(g) && Follows(g, h, n, since) && since <= g.world.clock
    ensures var g' := Receive(g, p, slot);
            && Served(g, h) <= Served(g', h) <= Served(g, h) + 1
            && Follows(g', h, n + (Served(g', h) - Served(g, h))
                              + (if PaysTwice(g, Datagram(p, slot), h) then 1 else 0), since)
  {
    var (g1, ok) := Enter(g, p.from);
    EnterShaped(g, p.from);
    DatagramCounts(g1, p, slot, h);
    if h < |g.buckets| {
      EnterCharges(g, p.from, h);
      var now := g.world.clock;
      TB.CheckWithin(g.buckets[h], n, since, now);
      if ok {
        var m := if Named(g, p.from) == Some(h) then n + 1 else n;
        TB.CheckWithin(g1.buckets[h], m, since, now);
        var b := OnDatagram(g1, p, slot).buckets[h];
        if Served(OnDatagram(g1, p, slot), h) == Served(g, h) {
          TB.WithinLess(b, m, n, since, now);
        }
      }
    }
  }

  lemma AdvanceFollows(g: Guarded, s: GuardedStep, h: nat, n: nat, since: int)
    requires Shaped(g) && BucketsSane(g) && Follows(g, h, n, since) && since <= g.world.clock
    ensures var g' := Advance(g, s);
            && Served(g, h) <= Served(g', h)
            && Follows(g', h, n + (Served(g', h) - Served(g, h)) + (if PaysTwice(g, s, h) then 1 else 0), since)
  {
    match s
    case Datagram(p, slot) => ReceiveFollows(g, p, slot, h, n, since);
    case Other(step) =>
      OtherCounts(g, s, h);
      if h < |g.buckets| {
        TB.WithinLater(g.buckets[h], n, since, g.world.clock, Advance(g, s).world.clock);
      }
  }

  lemma {:induction false} BucketHistory(g: Guarded, steps: seq<GuardedStep>, h: nat)
    requires Shaped(g) && BucketsSane(g)
    ensures var g' := Run(g, steps);
            && Served(g, h) <= Served(g', h)
            && Follows(g', h, Served(g', h) - Served(g, h) + Twice(g, steps, h), g.world.clock)
    decreases |steps|
  {
    if steps == [] {
      if h < |g.buckets| {
        TB.SaneWithin(g.buckets[h], g.world.clock);
      }
    } else {
      var prefix, s := steps[..|steps| - 1], steps[|steps| - 1];
      BucketHistory(g, prefix, h);
      RunSane(g, prefix);
      var g1 := Run(g, prefix);
      AdvanceFollows(g1, s, h, Served(g1, h) - Served(g, h) + Twice(g, prefix, h), g.world.clock);
    }
  }

  /**
   Between any two moments of any run, D nanoseconds apart, the datagrams that the server
   dispatches for one session, those counted twice for which the session has the sender's
   entry, are at most (121_019_999_940 + 60 * D) / 1_000_000_000.
   */
  lemma SessionRateBound(c: Config, shards: nat, limit: nat, first: seq<GuardedStep>, later: seq<GuardedStep>, h: nat)
    ensures var g1 := Run(Launch(c, shards, limit), first);
            var g2 := Run(g1, later);
            var d := g2.world.clock - g1.world.clock;
            Served(g2, h) - Served(g1, h) + Twice(g1, later, h) <= (121_019_999_940 + 60 * d) / TB.NANOS
  {
    var g0 := Launch(c, shards, limit);
    RunSane(g0, first);
    var g1 := Run(g0, first);
    var g2 := Run(g1, later);
    BucketHistory(g1, later, h);
    if h < |g2.buckets| {
      TB.WithinBound(g2.buckets[h], Served(g2, h) - Served(g1, h) + Twice(g1, later, h),
                     g1.world.clock, g2.world.clock);
    }
  }

  /** Whatever is dispatched for the session in the run comes from a sender whose entry the session has. */
  ghost predicate FromOwnEntry(g: Guarded, steps: seq<GuardedStep>, h: nat)
    requires Shaped(g)
  {
    forall k | 0 <= k < |steps| ::
      var g1 := Run(g, steps[..k]);
      Served(Advance(g1, steps[k]), h) > Served(g1, h) ==> PaysTwice(g1, steps[k], h)
  }

  lemma FromOwnEntryPrefix(g: Guarded, steps: seq<GuardedStep>, h: nat)
    requires Shaped(g) && steps != [] && FromOwnEntry(g, steps, h)
    ensures FromOwnEntry(g, steps[..|steps| - 1], h)
  {
    var prefix := steps[..|steps| - 1];
    forall k | 0 <= k < |prefix|
      ensures prefix[..k] == steps[..k] && prefix[k] == steps[k]
    {
    }
  }

  lemma {:induction false} AllTwice(g: Guarded, steps: seq<GuardedStep>, h: nat)
    requires Shaped(g) && BucketsSane(g) && FromOwnEntry(g, steps, h)
    ensures Twice(g, steps, h) == Served(Run(g, steps), h) - Served(g, h)
    decreases |steps|
  {
    if steps != [] {
      var n := |steps| - 1;
      FromOwnEntryPrefix(g, steps, h);
      AllTwice(g, steps[..n], h);
      RunSane(g, steps[..n]);
      ServedAtMostOne(Run(g, steps[..n]), steps[n], h);
    }
  }

  lemma ServedAtMostOne(g: Guarded, s: GuardedStep, h: nat)
    requires Shaped(g)
    ensures Served(g, h) <= Served(Advance(g, s), h) <= Served(g, h) + 1
  {
    match s
    case Datagram(p, slot) =>
      EnterShaped(g, p.from);
      DatagramCounts(Enter(g, p.from).0, p, slot, h);
    case Other(step) => OtherCounts(g, s, h);
  }

  /**
   So a client that speaks from its own entry, as it does once it has registered there, gets
   half the rate of the bucket: 30 datagrams a second, and 60 at once.
   */
  lemma OwnEntryHalvesRate(
      c: Config, shards: nat, limit: nat, first: seq<GuardedStep>, later: seq<GuardedStep>, h: nat)
    requires FromOwnEntry(Run(Launch(c, shards, limit), first), later, h)
    ensures var g1 := Run(Launch(c, shards, limit), first);
            var g2 := Run(g1, later);
            var d := g2.world.clock - g1.world.clock;
            2 * (Served(g2, h) - Served(g1, h)) <= (121_019_999_940 + 60 * d) / TB.NANOS
  {
    RunSane(Launch(c, shards, limit), first);
    SessionRateBound(c, shards, limit, first, later, h);
    AllTwice(Run(Launch(c, shards, limit), first), later, h);
  }

  // ----------------------------------------------------------- the server's rate

  /** How many datagrams were dispatched in a second of the clock. */
  function CountIn(sent: seq<Event>, second: int): nat {
    if sent == [] then 0
    else
      var e := sent[|sent| - 1];
      CountIn(sent[..|sent| - 1], second)
      + if e.Dispatched? && e.at / NANOS_PER_SECOND == second then 1 else 0
  }

  lemma CountInAfter(sent: seq<Event>, e: Event, second: int)
    ensures CountIn(sent + [e], second)
            == CountIn(sent, second) + if e.Dispatched? && e.at / NANOS_PER_SECOND == second then 1 else 0
  {
    assert (sent + [e])[..|sent|] == sent;
  }

  /** The step is a datagram that its sender's session, if there is one, had a token for. */
  predicate LetIn(g: Guarded, s: GuardedStep) {
    s.Datagram? && Enter(g, s.packet.from).1
  }

  /** The calls that a run makes of the server-wide limiter. */
  function Calls(g: Guarded, steps: seq<GuardedStep>): seq<SL.Request>
    requires Shaped(g)
    decreases |steps|
  {
    if steps == [] then []
    else
      var g1, s := Run(g, steps[..|steps| - 1]), steps[|steps| - 1];
      Calls(g, steps[..|steps| - 1])
      + if LetIn(g1, s) then [SL.Request(Second(g1.world), ShardOf(g1.limiter, s.slot))] else []
  }

  lemma UdpCountsIn(w: World, p: Packet, userOk: bool, second: int)
    ensures var n, n' := CountIn(Sent(w.trace), second), CountIn(Sent(OnUdp(w, p, true, userOk).trace), second);
            n' <= n + if Second(w) == second then 1 else 0
  {
    match Screen(w, p)
    case Passed(i) =>
      DispatchSends(w, i, p);
      CountInAfter(Sent(w.trace), Dispatched(i, p.kind, p.from, p.token, w.clock), second);
    case Expired(i) => VoidQuiet(w, ClearToken(w, i), i);
    case Refused =>
  }

  lemma AdvanceCountsIn(g: Guarded, s: GuardedStep, second: int)
    requires Shaped(g)
    ensures var g' := Advance(g, s);
            var n, n' := CountIn(Sent(g.world.trace), second), CountIn(Sent(g'.world.trace), second);
            if LetIn(g, s) then
              var (l, ok) := SL.Call(g.limiter, Second(g.world), ShardOf(g.limiter, s.slot), g.limit);
              g'.limiter == l && n' <= n + if ok && Second(g.world) == second then 1 else 0
            else g'.limiter == g.limiter && n' == n
    ensures Advance(g, s).limit == g.limit
  {
    match s
    case Datagram(p, slot) =>
      UdpCountsIn(g.world, p, true, second);
      UdpCountsIn(g.world, p, false, second);
    case Other(step) =>
      if !step.UdpStep? {
        OtherSteps(g.world, step);
      }
  }

  /** The limiter has the history of a run of the limiter alone, which admitted all that was dispatched. */
  ghost predicate Accounts(g: Guarded, shards: nat, calls: seq<SL.Request>, second: int) {
    && SL.WellTimed(shards, calls) && (forall k | 0 <= k < |calls| :: calls[k].now <= Second(g.world))
    && var (l, oks) := SL.Run(shards, calls, g.limit);
    && l == g.limiter && |g.limiter.counts| == shards > 0
    && CountIn(Sent(g.world.trace), second) <= SL.Admitted(calls, oks, second)
  }

  lemma CalledAccounts(g: Guarded, g': Guarded, r: SL.Request, shards: nat, calls: seq<SL.Request>, second: int)
    requires Shaped(g) && Accounts(g, shards, calls, second) && r.idx < shards && r.now == Second(g.world)
    requires g'.limit == g.limit && Second(g.world) <= Second(g'.world)
    requires var (l, ok) := SL.Call(g.limiter, r.now, r.idx, g.limit);
             && g'.limiter == l && |l.counts| == shards
             && CountIn(Sent(g'.world.trace), second)
                <= CountIn(Sent(g.world.trace), second) + if ok && r.now == second then 1 else 0
    ensures Accounts(g', shards, calls + [r], second)
  {
    SL.RunAfter(shards, calls, r, g.limit, second);
  }

  lemma AdvanceAccounts(g: Guarded, s: GuardedStep, shards: nat, calls: seq<SL.Request>, second: int)
    requires Shaped(g) && Accounts(g, shards, calls, second)
    ensures var more := if LetIn(g, s) then [SL.Request(Second(g.world), ShardOf(g.limiter, s.slot))] else [];
            Accounts(Advance(g, s), shards, calls + more, second)
  {
    AdvanceShaped(g, s);
    AdvanceCountsIn(g, s, second);
    if LetIn(g, s) {
      var r := SL.Request(Second(g.world), ShardOf(g.limiter, s.slot));
      CalledAccounts(g, Advance(g, s), r, shards, calls, second);
    } else {
      assert calls + [] == calls;
    }
  }

  lemma {:induction false} LimiterHistory(g: Guarded, steps: seq<GuardedStep>, second: int)
    requires Shaped(g) && g.limiter == SL.Fresh(|g.limiter.counts|) && g.limiter.counts != [] && g.world.trace == []
    ensures Accounts(Run(g, steps), |g.limiter.counts|, Calls(g, steps), second) && Run(g, steps).limit == g.limit
    decreases |steps|
  {
    if steps != [] {
      var prefix, s := steps[..|steps| - 1], steps[|steps| - 1];
      LimiterHistory(g, prefix, second);
      AdvanceAccounts(Run(g, prefix), s, |g.limiter.counts|, Calls(g, prefix), second);
      AdvanceCountsIn(Run(g, prefix), s, second);
    }
  }

  /** With at least one shard the server dispatches in no second of any run more datagrams than its limit. */
  lemma ServerRateBound(c: Config, shards: nat, limit: nat, steps: seq<GuardedStep>, second: int)
    requires shards > 0
    ensures CountIn(Sent(Run(Launch(c, shards, limit), steps).world.trace), second) <= limit
  {
    var g := Launch(c, shards, limit);
    LimiterHistory(g, steps, second);
    SL.NeverOverAdmits(shards, Calls(g, steps), limit, second);
  }
}
