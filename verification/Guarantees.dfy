/** What the lifecycle promises in every run from a fresh server. */
module Guarantees {
  import opened Wrappers
  import opened Sessions
  import opened Pools
  import opened Worlds
  import opened Effects
  import opened Lifecycle

  lemma Reached(c: Config, steps: seq<Step>)
    ensures Inv(Run(Start(c), steps))
  {
    StartInv(c);
    RunKeepsInv(Start(c), steps);
  }

  // ------------------------------------------------------------ pool and table

  /**
   Every session of the pool is in exactly one place: once in the free queue and in
   the table under no id, or in the table under exactly its own id and not in the queue.
   */
  lemma FreeOrRegistered(c: Config, steps: seq<Step>, i: nat)
    requires i < |Run(Start(c), steps).sess|
    ensures var w := Run(Start(c), steps);
            && Distinct(w.pool.queue)
            && (i in w.pool.queue <==> forall id | id in w.table :: w.table[id] != i)
            && (i !in w.pool.queue <==> Registered(w, i))
            && (forall id | id in w.table && w.table[id] == i :: id == w.sess[i].id)
  {
    Reached(c, steps);
  }

  /** Sessions are conserved: those free and those registered make up the pool. */
  lemma SessionsConserved(c: Config, steps: seq<Step>)
    ensures var w := Run(Start(c), steps);
            |w.pool.queue| + |w.table| == |w.sess| == w.pool.size
  {
    Reached(c, steps);
    Conserved(Run(Start(c), steps));
  }

  lemma Conserved(w: World)
    requires Inv(w)
    ensures |w.pool.queue| + |w.table| == |w.sess|
  {
    TableInjective(w);
    forall i: nat
      ensures i in Used(w.table) <==> Registered(w, i)
      ensures i in w.pool.queue <==> i < |w.sess| && !Registered(w, i)
    {
      UsedIsRegistered(w, i);
    }
    Partition(w.pool.queue, w.table, |w.sess|);
  }

  /** Places below n, each either once in the queue or a value of the table. */
  lemma Partition(q: seq<nat>, m: map<int, nat>, n: nat)
    requires Distinct(q) && forall a, b | a in m && b in m && m[a] == m[b] :: a == b
    requires forall i: nat :: i in q <==> i < n && i !in Used(m)
    requires forall i: nat :: i in Used(m) ==> i < n
    ensures |q| + |m| == n
  {
    QueueAsSet(q);
    ValuesInjective(m);
    CountBelow(Members(q) + Used(m), n);
    assert Members(q) !! Used(m);
  }

  lemma TableInjective(w: World)
    requires TableInv(w)
    ensures forall a, b | a in w.table && b in w.table && w.table[a] == w.table[b] :: a == b
  {
  }

  lemma UsedIsRegistered(w: World, i: nat)
    requires TableInv(w)
    ensures i in Used(w.table) <==> Registered(w, i)
  {
    forall id | id in w.table
      ensures Registered(w, w.table[id])
    {
    }
    if Registered(w, i) {
      assert w.table[w.sess[i].id] == i;
    }
  }

  function Used(m: map<int, nat>): set<nat> {
    set id | id in m :: m[id]
  }

  function Members(q: seq<nat>): set<nat> {
    set i | i in q
  }

  lemma {:induction false} QueueAsSet(q: seq<nat>)
    requires Distinct(q)
    ensures |Members(q)| == |q|
  {
    if q != [] {
      var n := |q| - 1;
      QueueAsSet(q[..n]);
      assert q == q[..n] + [q[n]];
      assert Members(q) == Members(q[..n]) + {q[n]};
      assert q[n] !in q[..n];
    }
  }

  lemma {:induction false} ValuesInjective(m: map<int, nat>)
    requires forall a, b | a in m && b in m && m[a] == m[b] :: a == b
    ensures |Used(m)| == |m|
  {
    if |m| > 0 {
      var e :| e in m.Items;
      var k := e.0;
      ValuesInjective(m - {k});
      assert Used(m) == Used(m - {k}) + {m[k]};
    } else {
      assert Used(m) == {};
    }
  }

  lemma {:induction false} CountBelow(s: set<nat>, n: nat)
    requires forall i: nat :: i in s <==> i < n
    ensures |s| == n
  {
    if n > 0 {
      CountBelow(s - {n - 1}, n - 1);
    } else {
      assert s == {};
    }
  }

  /**
   A client that is accepted gets a session that was not registered, under an id never
   given before and under a new generation, shaking hands and alive from now on, with
   nickname, endpoint, token and zone of the last user gone; nobody else is touched. A
   client is turned away exactly when every session of the pool is registered and the pool
   is at its maximum.
   */
  ghost predicate AcceptsCleanly(w: World) {
    var w' := Accept(w);
    match Acquire(w.pool).1
    case Some(i) =>
      && !Registered(w, i) && Registered(w', i) && i < |w'.sess| && |w.sess| <= |w'.sess|
      && w'.sess[i].id == w.nextId && w.nextId !in w.given && w'.table == w.table[w.nextId := i]
      && w'.sess[i].nickname == "" && w'.sess[i].endpoint == None && w'.sess[i].token == ""
      && w'.sess[i].zoneId == -1 && w'.sess[i].state == Handshaking && w'.sess[i].lastAlive == w.clock
      && (i < |w.sess| ==> w'.sess[i].generation > w.sess[i].generation)
      && (forall j | 0 <= j < |w.sess| && j != i :: w'.sess[j] == w.sess[j])
      && (|w.table| < |w.sess| || w.pool.size < w.pool.max)
    case None =>
      && w'.sess == w.sess && w'.table == w.table && w'.pool == w.pool
      && w.pool.size >= w.pool.max && |w.table| == |w.sess|
  }

  lemma AcceptGivesCleanSession(c: Config, steps: seq<Step>)
    ensures AcceptsCleanly(Run(Start(c), steps))
  {
    Reached(c, steps);
    AcceptClean(Run(Start(c), steps));
  }

  lemma AcceptedRecord(w: World, i: nat)
    requires TableInv(w) && i <= |w.sess|
    ensures var w' := Accepted(w, i);
            && i < |w'.sess| && |w.sess| <= |w'.sess| && Registered(w', i)
            && w'.sess[i].id == w.nextId && w.nextId !in w.given && w'.table == w.table[w.nextId := i]
            && w'.sess[i].nickname == "" && w'.sess[i].endpoint == None && w'.sess[i].token == ""
            && w'.sess[i].zoneId == -1 && w'.sess[i].state == Handshaking && w'.sess[i].lastAlive == w.clock
            && (i < |w.sess| ==> w'.sess[i].generation > w.sess[i].generation)
            && (forall j | 0 <= j < |w.sess| && j != i :: w'.sess[j] == w.sess[j])
  {
  }

  lemma FreeNotRegistered(w: World, i: nat)
    requires Inv(w) && Acquire(w.pool).1 == Some(i)
    ensures !Registered(w, i) && (|w.table| < |w.sess| || w.pool.size < w.pool.max)
  {
    Conserved(w);
    if w.pool.queue != [] {
      assert w.pool.queue[0] in w.pool.queue;
    }
  }

  lemma AcceptClean(w: World)
    requires Inv(w)
    ensures AcceptsCleanly(w)
  {
    AcceptEffect(w);
    Conserved(w);
    var r := Acquire(w.pool).1;
    if r.Some? {
      FreeNotRegistered(w, r.value);
      AcceptedRecord(w, r.value);
    }
  }

  /** At rest no session is ever Active: handing out ends with a cleanup, which makes it Idle again. */
  lemma NobodyActive(c: Config, steps: seq<Step>, i: nat)
    requires i < |Run(Start(c), steps).sess|
    ensures Run(Start(c), steps).sess[i].life == Idle
  {
    Reached(c, steps);
  }

  // ------------------------------------------------------------------ closing

  lemma CloseTable(w: World, i: nat)
    requires Inv(w) && i < |w.sess|
    ensures var w' := CloseSession(w, i);
            && w'.zoneCap == w.zoneCap
            && w'.table == (if Registered(w, i) then w.table - {w.sess[i].id} else w.table)
            && w'.pool.queue == (if Registered(w, i) then w.pool.queue + [i] else w.pool.queue)
  {
    if Registered(w, i) {
      AfterCloseKeepsPool(w, i);
      CloseEffect(w, i);
    } else {
      IdFreeWhenUnregistered(w, i);
      CloseAgainEffect(w, i);
    }
  }

  lemma NowhereButQueue(w: World, i: nat)
    requires Inv(w) && i < |w.sess| && !Registered(w, i)
    ensures forall id | id in w.table :: w.table[id] != i
    ensures forall z, id | z in w.zones && id in w.zones[z] :: w.zones[z][id] != i
    ensures i in w.pool.queue && Distinct(w.pool.queue)
  {
    forall id | id in w.table
      ensures w.table[id] != i
    {
      assert Registered(w, w.table[id]);
    }
    forall z, id | z in w.zones && id in w.zones[z]
      ensures w.zones[z][id] != i
    {
      assert Registered(w, w.table[id]);
    }
  }

  lemma CloseRecord(w: World, i: nat)
    requires Inv(w) && i < |w.sess|
    ensures |CloseSession(w, i).sess| == |w.sess|
    ensures var s := CloseSession(w, i).sess[i];
            && s.state == Closed && s.life == Idle && s.generation > w.sess[i].generation
            && s.nickname == "" && s.endpoint == None && s.token == "" && s.zoneId == -1
  {
    if Registered(w, i) {
      AfterCloseKeepsPool(w, i);
      CloseEffect(w, i);
    } else {
      IdFreeWhenUnregistered(w, i);
      CloseAgainEffect(w, i);
    }
  }

  lemma CloseTwice(w: World, i: nat)
    requires Inv(w) && i < |w.sess| && !Registered(w, i)
    ensures CloseSession(w, i) == w.(sess := w.sess[i := GoneAgain(w.sess[i])], trace := w.trace + [Voided(i)])
  {
  }

  /**
   After a close the session's record is that of nobody, under a new generation; the session
   is under no id in the table and in no zone, and exactly once in the free queue; every
   other session keeps its record and its place. A second close changes nothing in pool,
   table, zones and indexes.
   */
  ghost predicate ClosesCleanly(w: World, i: nat)
    requires i < |w.sess|
  {
    var w' := CloseSession(w, i);
    && |w'.sess| == |w.sess|
    && w'.sess[i].state == Closed && w'.sess[i].life == Idle && w'.sess[i].generation > w.sess[i].generation
    && w'.sess[i].nickname == "" && w'.sess[i].endpoint == None && w'.sess[i].token == "" && w'.sess[i].zoneId == -1
    && (forall id | id in w'.table :: w'.table[id] != i)
    && (forall z, id | z in w'.zones && id in w'.zones[z] :: w'.zones[z][id] != i)
    && i in w'.pool.queue && Distinct(w'.pool.queue)
    && w'.pool.queue == (if Registered(w, i) then w.pool.queue + [i] else w.pool.queue)
    && w'.table == (if Registered(w, i) then w.table - {w.sess[i].id} else w.table)
    && (forall j | 0 <= j < |w.sess| && j != i :: w'.sess[j] == w.sess[j])
    && CloseSession(w', i) == w'.(sess := w'.sess[i := GoneAgain(w'.sess[i])], trace := w'.trace + [Voided(i)])
  }

  lemma CloseRemovesEverywhere(c: Config, steps: seq<Step>, i: nat)
    requires i < |Run(Start(c), steps).sess|
    ensures ClosesCleanly(Run(Start(c), steps), i)
  {
    Reached(c, steps);
    CloseRemoves(Run(Start(c), steps), i);
  }

  lemma CloseRemoves(w: World, i: nat)
    requires Inv(w) && i < |w.sess|
    ensures ClosesCleanly(w, i)
  {
    CloseKeepsInv(w, i);
    CloseOthers(w, i);
    CloseTable(w, i);
    CloseRecord(w, i);
    NowhereButQueue(CloseSession(w, i), i);
    CloseTwice(CloseSession(w, i), i);
  }

  // ------------------------------------------------------------------- logging in

  /** A successful login is two evictions, then the name and the zone. */
  lemma LoginOkSteps(w: World, i: nat, n: string)
    requires Inv(w) && Registered(w, i) && n != ""
    ensures var w1 := Evict(w, i, n);
            var w2 := Evict(w1, i, n);
            && Inv(w1) && Inv(w2) && w2.zoneCap == w.zoneCap && Registered(w2, i)
            && |w2.sess| == |w.sess| && w2.sess[i] == w.sess[i] && w2.nicks == w.nicks
            && w2.table == w1.table
            && LoginOk(w, i, n) == AssignZone(NameSession(w2, i, n), i, DEFAULT_ZONE)
  {
    AddAgainEffect(w, i);
    var w1 := Evict(w, i, n);
    EvictKeepsInv(w, i, n);
    EvictFreesNickname(w, i, n);
    EvictKeepsInv(w1, i, n);
    EvictFreesNickname(w1, i, n);
    if n in w.nicks && w.nicks[n] != i {
      CloseTable(w, w.nicks[n]);
      CloseOthers(w, w.nicks[n]);
      CloseTable(w1, w.nicks[n]);
    }
  }

  lemma EvictLeaves(w: World, i: nat, n: string, j: nat)
    requires Inv(w) && j < |w.sess| && j != i && Lookup(w.nicks, n) != Some(j)
    ensures var w' := Evict(w, i, n);
            |w'.sess| == |w.sess| && w'.nicks == w.nicks && w'.sess[j] == w.sess[j]
            && (Registered(w', j) <==> Registered(w, j))
  {
    if n in w.nicks && w.nicks[n] != i && w.nicks[n] < |w.sess| {
      CloseOthers(w, w.nicks[n]);
    }
  }

  /** Whom the index names for the nickname, if another than the one logging in, and still registered. */
  function Rival(w: World, i: nat, n: string): Option<nat> {
    if n in w.nicks && w.nicks[n] != i && Registered(w, w.nicks[n]) then Some(w.nicks[n]) else None
  }

  /**
   A login that completes removes from the table its rival, if there is one, and nobody
   else; it takes the name; it ends in the default zone unless that zone does not exist
   or is full; and every session but the rival and itself keeps its record.
   */
  lemma LoginEvictsExactly(w: World, i: nat, n: string, j: nat)
    requires Inv(w) && Registered(w, i) && n != "" && j < |w.sess|
    ensures var w' := LoginOk(w, i, n);
            && |w'.sess| == |w.sess| && Registered(w', i)
            && w'.table == (if Rival(w, i, n).Some? then w.table - {w.sess[Rival(w, i, n).value].id} else w.table)
            && w'.nicks == w.nicks[n := i]
            && w'.sess[i].nickname == n && w'.sess[i].state == Ready
            && (w'.sess[i].zoneId == DEFAULT_ZONE || DEFAULT_ZONE !in w'.zones
                || |w'.zones[DEFAULT_ZONE]| == w'.zoneCap)
            && (j != i && Lookup(w.nicks, n) != Some(j) ==> w'.sess[j] == w.sess[j])
  {
    LoginOkSteps(w, i, n);
    LoginTable(w, i, n);
    if j != i && Lookup(w.nicks, n) != Some(j) {
      EvictLeaves(w, i, n, j);
      EvictLeaves(Evict(w, i, n), i, n, j);
    }
    EnterEnds(Evict(Evict(w, i, n), i, n), i, n);
  }

  lemma LoginTable(w: World, i: nat, n: string)
    requires Inv(w) && Registered(w, i) && n != ""
    ensures Evict(w, i, n).table ==
            if Rival(w, i, n).Some? then w.table - {w.sess[Rival(w, i, n).value].id} else w.table
  {
    if n in w.nicks && w.nicks[n] != i {
      CloseTable(w, w.nicks[n]);
    }
  }

  lemma EnterEnds(w: World, i: nat, n: string)
    requires Inv(w) && Registered(w, i)
    ensures var w' := AssignZone(NameSession(w, i, n), i, DEFAULT_ZONE);
            && |w'.sess| == |w.sess| && w'.table == w.table && w'.nicks == w.nicks[n := i]
            && w'.sess[i].nickname == n && w'.sess[i].state == Ready && w'.sess[i].id == w.sess[i].id
            && (w'.sess[i].zoneId == DEFAULT_ZONE || DEFAULT_ZONE !in w'.zones
                || |w'.zones[DEFAULT_ZONE]| == w'.zoneCap)
            && (forall j | 0 <= j < |w.sess| && j != i :: w'.sess[j] == w.sess[j])
  {
  }

  // --------------------------------------------------------------- nicknames

  /** Who last completed a login under the nickname. */
  function LastLogin(w: World, steps: seq<Step>, n: string): Option<nat> {
    if steps == [] then None
    else
      var prefix, s := steps[..|steps| - 1], steps[|steps| - 1];
      if s.LoginOkStep? && s.nickname == n && Allowed(Run(w, prefix), s) then Some(s.i)
      else LastLogin(w, prefix, n)
  }

  lemma EvictNicks(w: World, i: nat, n: string)
    requires Inv(w)
    ensures Evict(w, i, n).nicks == w.nicks && Evict(w, i, n).zoneCap == w.zoneCap
  {
    if n in w.nicks {
      CloseNicks(w, w.nicks[n]);
    }
  }

  lemma CloseNicks(w: World, i: nat)
    requires Inv(w) && i < |w.sess|
    ensures CloseSession(w, i).nicks == w.nicks && CloseSession(w, i).zoneCap == w.zoneCap
  {
    CloseTable(w, i);
    CloseOthers(w, i);
  }

  lemma LoginBeginNicks(w: World, i: nat, n: string)
    requires Inv(w) && i < |w.sess|
    ensures LoginBegin(w, i, n).nicks == w.nicks && LoginBegin(w, i, n).zoneCap == w.zoneCap
  {
    CloseNicks(w, i);
    EvictNicks(w, i, n);
  }

  lemma LoginOkNicks(w: World, i: nat, n: string)
    requires Inv(w) && Registered(w, i) && n != ""
    ensures LoginOk(w, i, n).nicks == w.nicks[n := i] && LoginOk(w, i, n).zoneCap == w.zoneCap
  {
    LoginOkSteps(w, i, n);
    EnterEnds(Evict(Evict(w, i, n), i, n), i, n);
  }

  lemma NextNicks(w: World, s: Step)
    requires Inv(w)
    ensures Next(w, s).nicks ==
            if s.LoginOkStep? && Allowed(w, s) then w.nicks[s.nickname := s.i] else w.nicks
    ensures Next(w, s).zoneCap == w.zoneCap
  {
    if Allowed(w, s) {
      match s
      case Tick(n) =>
      case AliveStep(i) =>
      case AcceptStep => AcceptEffect(w);
      case LoginStep(i, n) =>
        if i < |w.sess| {
          LoginBeginNicks(w, i, n);
        }
      case LoginOkStep(i, n) => LoginOkNicks(w, i, n);
      case CloseStep(i) =>
        if i < |w.sess| {
          CloseNicks(w, i);
        }
      case UdpStep(p, g, u) => UdpSame(w, p, g, u);
    }
  }

  /** The nickname index names the last to log in under the nickname, whatever became of them. */
  lemma {:induction false} IndexNamesLastLogin(c: Config, steps: seq<Step>, n: string)
    ensures Lookup(Run(Start(c), steps).nicks, n) == LastLogin(Start(c), steps, n)
    ensures Run(Start(c), steps).zoneCap == c.zoneCap
    decreases |steps|
  {
    if steps != [] {
      var prefix := steps[..|steps| - 1];
      IndexNamesLastLogin(c, prefix, n);
      Reached(c, prefix);
      NextNicks(Run(Start(c), prefix), steps[|steps| - 1]);
    }
  }

  /**
   Whoever carries a nickname is registered, is the last to have logged in under it,
   and is the one the index finds; so no two sessions share a nickname.
   */
  lemma NicknamesUnique(c: Config, steps: seq<Step>, i: nat, j: nat)
    requires i < |Run(Start(c), steps).sess| && j < |Run(Start(c), steps).sess|
    requires Run(Start(c), steps).sess[i].nickname != ""
    ensures var w := Run(Start(c), steps);
            var n := w.sess[i].nickname;
            && Registered(w, i)
            && Lookup(w.nicks, n) == Some(i) && LastLogin(Start(c), steps, n) == Some(i)
            && (w.sess[j].nickname == n ==> i == j)
  {
    Reached(c, steps);
    IndexNamesLastLogin(c, steps, Run(Start(c), steps).sess[i].nickname);
  }

  // --------------------------------------------------------------------- zones

  /**
   A zone's members are exactly the ids of the registered sessions that carry its
   number, each naming the session that the table names, and never more than the
   capacity.
   */
  lemma ZonesMatchTable(c: Config, steps: seq<Step>, z: int, id: int)
    requires z in Run(Start(c), steps).zones
    ensures var w := Run(Start(c), steps);
            && (id in w.table ==> w.table[id] < |w.sess| && w.sess[w.table[id]].id == id)
            && (id in w.zones[z] <==> id in w.table && w.sess[w.table[id]].zoneId == z)
            && (id in w.zones[z] ==> w.zones[z][id] == w.table[id])
            && |w.zones[z]| <= c.zoneCap
  {
    Reached(c, steps);
    IndexNamesLastLogin(c, steps, "");
    var w := Run(Start(c), steps);
    if id in w.table {
      assert Registered(w, w.table[id]);
    }
  }

  /**
   Entering a zone does not leave the previous one: it keeps the zones in order exactly
   when it is refused or the session was in none.
   */
  lemma EnteringKeepsZonesExactly(w: World, i: nat, z: int)
    requires TableInv(w) && ZoneInv(w) && Registered(w, i)
    ensures ZoneInv(AssignZone(w, i, z)) <==>
            z !in w.zones || |w.zones[z]| >= w.zoneCap || w.sess[i].zoneId == -1 || w.sess[i].zoneId == z
  {
    var y := w.sess[i].zoneId;
    var w' := AssignZone(w, i, z);
    if y == -1 || y == z {
      AssignKeepsZones(w, i, z);
    } else if w' != w {
      assert w.sess[i].id in w'.zones[y] && w'.sess[i].zoneId == z;
      assert !MembersRegistered(w');
    }
  }
}
