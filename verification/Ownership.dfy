/**
 Who owns a pooled session while acceptors, logins and closers interleave. A step is
 what one thread does under one lock: taking from the pool, adding to the session
 table, removing from it; or one change of the life state, which the close gate reads
 without a lock. So a release is two steps under the pool's lock, the cleanup that
 makes the session Idle and the rest that marks it Released, and the last cleanup of a
 closer is a step of its own after the release.
 */
module Ownership {
  import opened Wrappers
  import opened Sessions
  import opened Pools

  datatype Phase = Began | Marked | Holding(held: nat) | Resetting(held: nat) | Cleaning
  {
    /** The closer has taken the session out of the table and not yet released it. */
    predicate Holds() {
      Holding? || Resetting?
    }
  }

  /** One call of close_session that got past the gate, on the session `target`. */
  datatype Closer = Closer(target: nat, phase: Phase)

  datatype Own = Own(
    pool: Pool,
    life: map<nat, LifeState>,  // of each session of the pool
    sid: map<nat, int>,         // its session id, -1 before the first checkout
    nextId: int,
    table: map<int, nat>,       // registered sessions by id
    hand: set<nat>,             // acquired, not yet added to the table
    closers: map<nat, Closer>,
    taken: multiset<nat>,       // history: checkouts and releases so far,
    returned: multiset<nat>,    // and which session each id was given to
    given: map<int, nat>)

  datatype Step =
    | Accept
    | Add(i: nat)
    | LoginAdd(i: nat)
    | BeginClose(c: nat, i: nat)
    | MarkClosed(c: nat)
    | RemoveFromTable(c: nat)
    | CleanForRelease(c: nat)
    | ReleaseToPool(c: nat)
    | Finish(c: nat)

  function Start(size: nat, max: nat): Own {
    var pool := Init(size, max);
    Own(pool, map i | i in pool.queue :: Idle, map i | i in pool.queue :: -1, 0,
        map[], {}, map[], multiset{}, multiset{}, map[])
  }

  /** The session is in the table under its present id. */
  predicate Registered(o: Own, i: nat) {
    i in o.sid && o.sid[i] in o.table && o.table[o.sid[i]] == i
  }

  ghost predicate Held(o: Own, i: nat) {
    exists c :: c in o.closers && o.closers[c].phase.Holds() && o.closers[c].phase.held == i
  }

  /** A closer is between the two steps of its release, which are under the pool's lock. */
  predicate PoolLocked(o: Own) {
    exists c :: c in o.closers && o.closers[c].phase.Resetting?
  }

  predicate Free(o: Own, i: nat) {
    i in o.pool.queue
  }

  /**
   A hand-out stores Active and then Idle; a closer that gets past the gate in between is
   as good as one that got past it just before, since the second store undoes either.
   */
  function DoAccept(o: Own): Own {
    var (p, r) := Acquire(o.pool);
    var o1 := o.(pool := p, nextId := o.nextId + 1);
    match r
    case None => o1
    case Some(i) =>
      o1.(hand := o.hand + {i}, taken := o.taken + multiset{i},
          life := o.life[i := Idle], sid := o.sid[i := o.nextId], given := o.given[o.nextId := i])
  }

  /** add_session: the table's entry under the session's id becomes the session. */
  function DoAdd(o: Own, i: nat): Own
    requires i in o.sid
  {
    o.(table := o.table[o.sid[i] := i])
  }

  function AtPhase(o: Own, c: nat, p: Phase): Own
    requires c in o.closers
  {
    o.(closers := o.closers[c := o.closers[c].(phase := p)])
  }

  function DoRemove(o: Own, c: nat): Own
    requires c in o.closers && o.closers[c].target in o.sid
  {
    var id := o.sid[o.closers[c].target];
    if id in o.table then AtPhase(o, c, Holding(o.table[id])).(table := o.table - {id})
    else AtPhase(o, c, Cleaning)
  }

  /** The first half of a release: nothing if the guard set has the session, else its cleanup. */
  function DoClean(o: Own, c: nat): Own
    requires c in o.closers && o.closers[c].phase.Holding?
  {
    var i := o.closers[c].phase.held;
    if !Release(o.pool, i).1 then AtPhase(o, c, Cleaning)
    else AtPhase(o, c, Resetting(i)).(life := o.life[i := Idle])
  }

  /** The second half: marked as released, and queued. */
  function DoRelease(o: Own, c: nat): Own
    requires c in o.closers && o.closers[c].phase.Resetting?
  {
    var i := o.closers[c].phase.held;
    AtPhase(o, c, Cleaning).(pool := Release(o.pool, i).0, life := o.life[i := Released],
                             returned := o.returned + multiset{i})
  }

  predicate Enabled(o: Own, s: Step) {
    match s
    case Accept => !PoolLocked(o)
    case Add(i) => i in o.hand && i in o.sid
    case LoginAdd(i) => Registered(o, i)
    case BeginClose(c, i) => c !in o.closers && i in o.life && (o.life[i] == Idle || o.life[i] == Active)
    case MarkClosed(c) => c in o.closers && o.closers[c].phase == Began
    case RemoveFromTable(c) => c in o.closers && o.closers[c].phase == Marked && o.closers[c].target in o.sid
    case CleanForRelease(c) => c in o.closers && o.closers[c].phase.Holding? && !PoolLocked(o)
    case ReleaseToPool(c) => c in o.closers && o.closers[c].phase.Resetting?
    case Finish(c) => c in o.closers && o.closers[c].phase == Cleaning
  }

  /** A step whose thread is not at that point, or that the close gate turns away, changes nothing. */
  function Next(o: Own, s: Step): Own {
    if !Enabled(o, s) then o
    else match s
      case Accept => DoAccept(o)
      case Add(i) => DoAdd(o, i).(hand := o.hand - {i})
      case LoginAdd(i) => DoAdd(o, i)
      case BeginClose(c, i) => o.(life := o.life[i := Closing], closers := o.closers[c := Closer(i, Began)])
      case MarkClosed(c) => AtPhase(o, c, Marked).(life := o.life[o.closers[c].target := Finalized])
      case RemoveFromTable(c) => DoRemove(o, c)
      case CleanForRelease(c) => DoClean(o, c)
      case ReleaseToPool(c) => DoRelease(o, c)
      case Finish(c) => o.(life := o.life[o.closers[c].target := Idle], closers := o.closers - {c})
  }

  function Run(size: nat, max: nat, steps: seq<Step>): Own {
    if steps == [] then Start(size, max)
    else Next(Run(size, max, steps[..|steps| - 1]), steps[|steps| - 1])
  }

  // ------------------------------------------------------------- ownership

  /** Where a session is: a ghost account kept beside the run. */
  datatype Place = InPool | InHand | InTable(id: int) | InCloser(c: nat)

  type Account = map<nat, Place>

  ghost function Ever(o: Own): set<nat> {
    set i | i in o.taken
  }

  ghost predicate ShapeInv(o: Own, acc: Account) {
    && (forall i: nat :: i in o.life <==> i < o.pool.size)
    && (forall i: nat :: i in o.sid <==> i < o.pool.size)
    && (forall i: nat :: i in acc <==> i < o.pool.size)
    && (forall c {:trigger o.closers[c]} | c in o.closers :: o.closers[c].target in o.sid)
  }

  ghost predicate QueueInv(o: Own, acc: Account) {
    && FreeListInv(o.pool, Ever(o))
    && (forall i {:trigger acc[i]} {:trigger i in o.pool.queue} | i in acc :: acc[i] == InPool <==> i in o.pool.queue)
    && (forall i {:trigger o.taken[i]} | i in acc :: o.taken[i] == o.returned[i] + (if acc[i] == InPool then 0 else 1))
    && (forall i | i in o.returned :: i in acc)
  }

  ghost predicate HandInv(o: Own, acc: Account) {
    && (forall i | i in o.hand :: i in acc && acc[i] == InHand)
    && (forall i {:trigger acc[i]} | i in acc && acc[i] == InHand :: i in o.hand)
  }

  ghost predicate TableInv(o: Own, acc: Account) {
    && (forall id | id in o.table :: o.table[id] in acc && acc[o.table[id]] == InTable(id))
    && (forall i {:trigger acc[i]} | i in acc && acc[i].InTable? :: acc[i].id in o.table && o.table[acc[i].id] == i)
  }

  ghost predicate CloserInv(o: Own, acc: Account) {
    && (forall c | c in o.closers && o.closers[c].phase.Holds() ::
          o.closers[c].phase.held in acc && acc[o.closers[c].phase.held] == InCloser(c))
    && (forall i {:trigger acc[i]} | i in acc && acc[i].InCloser? ::
          acc[i].c in o.closers && o.closers[acc[i].c].phase.Holds() && o.closers[acc[i].c].phase.held == i)
  }

  ghost predicate IdsInv(o: Own, acc: Account) {
    && 0 <= o.nextId
    && (forall id | id in o.given :: 0 <= id < o.nextId)
    && (forall i {:trigger o.sid[i]} | i in o.sid :: o.sid[i] == -1 || (o.sid[i] in o.given && o.given[o.sid[i]] == i))
    && (forall i {:trigger acc[i]} | i in o.sid && i in acc && acc[i] == InHand :: 0 <= o.sid[i])
    && (forall i {:trigger acc[i]} | i in o.sid && i in acc && acc[i].InTable? ::
          0 <= o.sid[i] && acc[i].id == o.sid[i])
  }

  ghost predicate Inv(o: Own, acc: Account) {
    && ShapeInv(o, acc) && QueueInv(o, acc) && HandInv(o, acc)
    && TableInv(o, acc) && CloserInv(o, acc) && IdsInv(o, acc)
  }

  // ---------------------------------------------------------- step by step

  lemma AcquireQueue(p: Pool, ever: set<nat>)
    requires FreeListInv(p, ever) && Acquire(p).1.Some?
    ensures var (p', r) := Acquire(p);
            && (forall j :: j in p'.queue <==> j in p.queue && j != r.value)
            && p'.size == (if r.value < p.size then p.size else p.size + 1)
            && r.value <= p.size
            && (r.value < p.size <==> r.value in p.queue)
  {
    var (p', r) := Acquire(p);
    if p.queue != [] {
      assert p.queue == [r.value] + p'.queue;
      assert r.value in p.queue;
    } else {
      assert p.size !in p.queue;
    }
  }

  lemma AcceptKeepsFreeList(o: Own, i: nat)
    requires FreeListInv(o.pool, Ever(o)) && Acquire(o.pool).1 == Some(i)
    ensures FreeListInv(DoAccept(o).pool, Ever(DoAccept(o)))
  {
    assert Ever(DoAccept(o)) == Ever(o) + {i};
    TakeKeepsFreeList(o.pool, Ever(o));
  }

  lemma AcceptKeepsQueue(o: Own, acc: Account, i: nat)
    requires ShapeInv(o, acc) && QueueInv(o, acc) && Acquire(o.pool).1 == Some(i)
    ensures QueueInv(DoAccept(o), acc[i := InHand])
  {
    AcceptKeepsFreeList(o, i);
    AcquireQueue(o.pool, Ever(o));
    AcceptKeepsCounts(o, acc, i);
  }

  lemma AcceptKeepsCounts(o: Own, acc: Account, i: nat)
    requires QueueInv(o, acc) && Acquire(o.pool).1 == Some(i)
    requires forall j: nat :: j in acc <==> j < o.pool.size
    requires i < o.pool.size <==> i in o.pool.queue
    ensures var o', acc' := DoAccept(o), acc[i := InHand];
            && (forall j {:trigger o'.taken[j]} | j in acc' ::
                  o'.taken[j] == o'.returned[j] + (if acc'[j] == InPool then 0 else 1))
            && (forall j | j in o'.returned :: j in acc')
  {
    if i !in acc {
      assert i !in Ever(o) && i !in o.returned;
      assert o.taken[i] == 0 && o.returned[i] == 0;
    }
  }

  // A part of the state that a step leaves alone stays in agreement with the
  // account when one session moves between places of the other parts.

  lemma QueueFrame(o: Own, o': Own, acc: Account, i: nat, p: Place)
    requires QueueInv(o, acc) && i in acc && acc[i] != InPool && p != InPool
    requires o'.pool == o.pool && o'.taken == o.taken && o'.returned == o.returned
    ensures QueueInv(o', acc[i := p])
  {
  }

  lemma HandFrame(o: Own, o': Own, acc: Account, i: nat, p: Place)
    requires HandInv(o, acc) && (i in acc ==> acc[i] != InHand) && p != InHand && o'.hand == o.hand
    ensures HandInv(o', acc[i := p])
  {
  }

  lemma TableFrame(o: Own, o': Own, acc: Account, i: nat, p: Place)
    requires TableInv(o, acc) && (i in acc ==> !acc[i].InTable?) && !p.InTable? && o'.table == o.table
    ensures TableInv(o', acc[i := p])
  {
  }

  lemma CloserFrame(o: Own, o': Own, acc: Account, i: nat, p: Place)
    requires CloserInv(o, acc) && (i in acc ==> !acc[i].InCloser?) && !p.InCloser? && o'.closers == o.closers
    ensures CloserInv(o', acc[i := p])
  {
  }

  lemma IdsFrame(o: Own, o': Own, acc: Account, i: nat, p: Place)
    requires IdsInv(o, acc) && o'.sid == o.sid && o'.nextId == o.nextId && o'.given == o.given
    requires p != InHand && !p.InTable?
    ensures IdsInv(o', acc[i := p])
  {
  }

  lemma AcceptKeepsIds(o: Own, acc: Account, i: nat)
    requires IdsInv(o, acc) && Acquire(o.pool).1 == Some(i)
    ensures IdsInv(DoAccept(o), acc[i := InHand])
  {
  }

  lemma AcceptKeepsHand(o: Own, acc: Account, i: nat)
    requires HandInv(o, acc) && Acquire(o.pool).1 == Some(i)
    ensures HandInv(DoAccept(o), acc[i := InHand])
  {
  }

  lemma AcceptKeepsShape(o: Own, acc: Account, i: nat)
    requires ShapeInv(o, acc) && QueueInv(o, acc) && Acquire(o.pool).1 == Some(i)
    ensures ShapeInv(DoAccept(o), acc[i := InHand])
    ensures i in acc ==> acc[i] == InPool
  {
    AcquireQueue(o.pool, Ever(o));
  }

  /** A step that leaves the pool's size and the records of the sessions in place keeps the shape. */
  lemma ShapeFrame(o: Own, o': Own, acc: Account, i: nat, p: Place)
    requires ShapeInv(o, acc) && i in acc
    requires o'.pool.size == o.pool.size && o'.sid == o.sid
    requires forall j :: j in o'.life <==> j in o.life
    requires forall c | c in o'.closers :: c in o.closers && o'.closers[c].target == o.closers[c].target
    ensures ShapeInv(o', acc[i := p])
  {
  }

  lemma AcceptKeepsInv(o: Own, acc: Account) returns (acc': Account)
    requires Inv(o, acc)
    ensures Inv(DoAccept(o), acc')
  {
    var r := Acquire(o.pool).1;
    if r.None? {
      acc' := acc;
      assert Ever(DoAccept(o)) == Ever(o);
    } else {
      var i := r.value;
      acc' := acc[i := InHand];
      AcceptKeepsQueue(o, acc, i);
      AcceptKeepsIds(o, acc, i);
      AcceptKeepsHand(o, acc, i);
      AcceptKeepsShape(o, acc, i);
      TableFrame(o, DoAccept(o), acc, i, InHand);
      CloserFrame(o, DoAccept(o), acc, i, InHand);
    }
  }

  lemma AddKeepsInv(o: Own, acc: Account, i: nat)
    requires Inv(o, acc) && i in o.hand
    ensures i in o.sid && Inv(DoAdd(o, i).(hand := o.hand - {i}), acc[i := InTable(o.sid[i])])
  {
    var o', p := DoAdd(o, i).(hand := o.hand - {i}), InTable(o.sid[i]);
    QueueFrame(o, o', acc, i, p);
    CloserFrame(o, o', acc, i, p);
    AddKeepsTable(o, acc, i);
    AddKeepsHand(o, acc, i);
    ShapeFrame(o, o', acc, i, p);
    TableSame(DoAdd(o, i), o', acc[i := p]);
  }

  lemma TableSame(o: Own, o': Own, acc: Account)
    requires TableInv(o, acc) && o'.table == o.table
    ensures TableInv(o', acc)
  {
  }

  lemma AddKeepsHand(o: Own, acc: Account, i: nat)
    requires HandInv(o, acc) && IdsInv(o, acc) && i in o.hand && i in o.sid
    ensures var o', acc' := DoAdd(o, i).(hand := o.hand - {i}), acc[i := InTable(o.sid[i])];
            HandInv(o', acc') && IdsInv(o', acc')
  {
  }

  lemma AddKeepsTable(o: Own, acc: Account, i: nat)
    requires IdsInv(o, acc) && TableInv(o, acc) && i in o.sid && i in acc && acc[i] == InHand
    requires forall j | j in acc :: j in o.sid
    ensures o.sid[i] !in o.table && TableInv(DoAdd(o, i), acc[i := InTable(o.sid[i])])
  {
  }

  /** In terms of the account, being registered is being in the table. */
  lemma RegisteredIsInTable(o: Own, acc: Account, i: nat)
    requires Inv(o, acc)
    ensures Registered(o, i) <==> i in acc && acc[i].InTable?
    ensures Held(o, i) <==> i in acc && acc[i].InCloser?
  {
  }

  lemma RemoveFoundKeepsInv(o: Own, acc: Account, c: nat, i: nat)
    requires Inv(o, acc) && Enabled(o, RemoveFromTable(c))
    requires var id := o.sid[o.closers[c].target]; id in o.table && o.table[id] == i
    ensures Inv(DoRemove(o, c), acc[i := InCloser(c)])
  {
    var o' := DoRemove(o, c);
    assert i in acc && acc[i].InTable?;
    QueueFrame(o, o', acc, i, InCloser(c));
    HandFrame(o, o', acc, i, InCloser(c));
    IdsFrame(o, o', acc, i, InCloser(c));
    RemoveKeepsClosers(o, acc, c);
    ShapeFrame(o, o', acc, i, InCloser(c));
  }

  lemma RemoveKeepsInv(o: Own, acc: Account, c: nat) returns (acc': Account)
    requires Inv(o, acc) && Enabled(o, RemoveFromTable(c))
    ensures Inv(DoRemove(o, c), acc')
  {
    var id := o.sid[o.closers[c].target];
    if id in o.table {
      RemoveFoundKeepsInv(o, acc, c, o.table[id]);
      acc' := acc[o.table[id] := InCloser(c)];
    } else {
      acc' := acc;
      PhaseKeepsInv(o, DoRemove(o, c), acc);
    }
  }

  lemma RemoveKeepsClosers(o: Own, acc: Account, c: nat)
    requires CloserInv(o, acc) && TableInv(o, acc) && Enabled(o, RemoveFromTable(c))
    requires var id := o.sid[o.closers[c].target]; id in o.table
    ensures var i := o.table[o.sid[o.closers[c].target]];
            CloserInv(DoRemove(o, c), acc[i := InCloser(c)]) && TableInv(DoRemove(o, c), acc[i := InCloser(c)])
  {
  }

  /** A closer never finds its session in the guard set: the double-release branch is not reached. */
  lemma HeldReleaseSucceeds(o: Own, acc: Account, c: nat)
    requires QueueInv(o, acc) && CloserInv(o, acc) && (forall i | i in acc :: i < o.pool.size)
    requires c in o.closers && o.closers[c].phase.Holds()
    ensures var i := o.closers[c].phase.held;
            Release(o.pool, i).1 && i in acc && i !in o.pool.queue && i in Ever(o) && i < o.pool.size
  {
  }

  lemma ReleaseKeepsQueue(o: Own, acc: Account, c: nat)
    requires QueueInv(o, acc) && CloserInv(o, acc) && (forall i | i in acc :: i < o.pool.size)
    requires c in o.closers && o.closers[c].phase.Resetting?
    ensures QueueInv(DoRelease(o, c), acc[o.closers[c].phase.held := InPool])
  {
    var i := o.closers[c].phase.held;
    var o' := DoRelease(o, c);
    HeldReleaseSucceeds(o, acc, c);
    GiveKeepsFreeListExactly(o.pool, Ever(o), i);
    assert Ever(o') == Ever(o);
    assert o'.pool.queue == o.pool.queue + [i];
  }

  lemma ReleaseKeepsClosers(o: Own, acc: Account, c: nat)
    requires CloserInv(o, acc) && c in o.closers && o.closers[c].phase.Resetting?
    ensures CloserInv(DoRelease(o, c), acc[o.closers[c].phase.held := InPool])
  {
    assert acc[o.closers[c].phase.held] == InCloser(c);
  }

  lemma ReleaseKeepsInv(o: Own, acc: Account, c: nat)
    requires Inv(o, acc) && Enabled(o, ReleaseToPool(c))
    ensures Inv(DoRelease(o, c), acc[o.closers[c].phase.held := InPool])
  {
    var i := o.closers[c].phase.held;
    var o' := DoRelease(o, c);
    HeldReleaseSucceeds(o, acc, c);
    ReleaseKeepsQueue(o, acc, c);
    ReleaseKeepsClosers(o, acc, c);
    HandFrame(o, o', acc, i, InPool);
    TableFrame(o, o', acc, i, InPool);
    IdsFrame(o, o', acc, i, InPool);
    ShapeFrame(o, o', acc, i, InPool);
  }

  /** Steps that change only a closer's phase and the life states move no session. */
  lemma PhaseKeepsInv(o: Own, o': Own, acc: Account)
    requires Inv(o, acc)
    requires o' == o.(life := o'.life, closers := o'.closers) && (forall i :: i in o'.life <==> i in o.life)
    requires forall c | c in o'.closers :: o'.closers[c].target in o.sid
    requires forall c | c in o'.closers && o'.closers[c].phase.Holds() ::
               c in o.closers && o.closers[c].phase.Holds() && o.closers[c].phase.held == o'.closers[c].phase.held
    requires forall c | c in o.closers && o.closers[c].phase.Holds() ::
               c in o'.closers && o'.closers[c].phase.Holds() && o.closers[c].phase.held == o'.closers[c].phase.held
    ensures Inv(o', acc)
  {
    assert Ever(o') == Ever(o);
  }

  lemma BeginKeepsInv(o: Own, acc: Account, c: nat, i: nat)
    requires Inv(o, acc) && Enabled(o, BeginClose(c, i))
    ensures Inv(Next(o, BeginClose(c, i)), acc)
  {
    PhaseKeepsInv(o, Next(o, BeginClose(c, i)), acc);
  }

  lemma MarkKeepsInv(o: Own, acc: Account, c: nat)
    requires Inv(o, acc) && Enabled(o, MarkClosed(c))
    ensures Inv(Next(o, MarkClosed(c)), acc)
  {
    PhaseKeepsInv(o, Next(o, MarkClosed(c)), acc);
  }

  lemma FinishKeepsInv(o: Own, acc: Account, c: nat)
    requires Inv(o, acc) && Enabled(o, Finish(c))
    ensures Inv(Next(o, Finish(c)), acc)
  {
    PhaseKeepsInv(o, Next(o, Finish(c)), acc);
  }

  lemma CleanKeepsInv(o: Own, acc: Account, c: nat)
    requires Inv(o, acc) && Enabled(o, CleanForRelease(c))
    ensures Inv(DoClean(o, c), acc)
  {
    HeldReleaseSucceeds(o, acc, c);
    PhaseKeepsInv(o, DoClean(o, c), acc);
  }

  lemma NextKeepsInv(o: Own, acc: Account, s: Step) returns (acc': Account)
    requires Inv(o, acc)
    ensures Inv(Next(o, s), acc')
  {
    acc' := acc;
    if Enabled(o, s) {
      match s
      case Accept => acc' := AcceptKeepsInv(o, acc);
      case Add(i) =>
        AddKeepsInv(o, acc, i);
        acc' := acc[i := InTable(o.sid[i])];
      case LoginAdd(i) => assert DoAdd(o, i).table == o.table;
      case RemoveFromTable(c) => acc' := RemoveKeepsInv(o, acc, c);
      case CleanForRelease(c) => CleanKeepsInv(o, acc, c);
      case ReleaseToPool(c) =>
        ReleaseKeepsInv(o, acc, c);
        acc' := acc[o.closers[c].phase.held := InPool];
      case BeginClose(c, i) => BeginKeepsInv(o, acc, c, i);
      case MarkClosed(c) => MarkKeepsInv(o, acc, c);
      case Finish(c) => FinishKeepsInv(o, acc, c);
    }
  }

  lemma StartInv(size: nat, max: nat)
    ensures Inv(Start(size, max), map i | i in Init(size, max).queue :: InPool)
  {
    FreshFreeList(size, max);
    var o := Start(size, max);
    assert Ever(o) == {};
    assert forall i: nat | i < size :: Init(size, max).queue[i] == i;
  }

  lemma {:induction false} RunKeepsInv(size: nat, max: nat, steps: seq<Step>) returns (acc: Account)
    ensures Inv(Run(size, max, steps), acc)
    decreases |steps|
  {
    if steps == [] {
      StartInv(size, max);
      acc := map i | i in Init(size, max).queue :: InPool;
    } else {
      acc := RunKeepsInv(size, max, steps[..|steps| - 1]);
      acc := NextKeepsInv(Run(size, max, steps[..|steps| - 1]), acc, steps[|steps| - 1]);
    }
  }

  // ------------------------------------------------------------ main results

  /** The places a session can be in, counted. */
  ghost function PlacesOf(o: Own, i: nat): nat {
    (if Free(o, i) then 1 else 0) + (if i in o.hand then 1 else 0)
    + (if Registered(o, i) then 1 else 0) + (if Held(o, i) then 1 else 0)
  }

  /** Every session of the pool is in one place only, which no two closers and no two ids share. */
  ghost predicate Owned(o: Own) {
    && (forall i: nat | i < o.pool.size :: PlacesOf(o, i) == 1)
    && (forall c, d | c in o.closers && d in o.closers && o.closers[c].phase.Holds() && o.closers[d].phase.Holds()
          && o.closers[c].phase.held == o.closers[d].phase.held :: c == d)
    && (forall a, b | a in o.table && b in o.table && o.table[a] == o.table[b] :: a == b)
  }

  lemma InvOwned(o: Own, acc: Account)
    requires Inv(o, acc)
    ensures Owned(o)
  {
  }

  /**
   However acceptors, logins and any number of closers interleave: every session
   of the pool is in exactly one place, and has been released once per checkout,
   the checkout going on now excepted.
   */
  lemma ExactlyOneOwner(size: nat, max: nat, steps: seq<Step>)
    ensures var o := Run(size, max, steps);
            && Owned(o)
            && forall i: nat | i < o.pool.size :: o.taken[i] == o.returned[i] + (if Free(o, i) then 0 else 1)
  {
    var acc := RunKeepsInv(size, max, steps);
    InvOwned(Run(size, max, steps), acc);
  }

  /** What the pool hands out is in nobody's possession, and a release always succeeds. */
  lemma HandOutAndReleaseAreSafe(size: nat, max: nat, steps: seq<Step>)
    ensures var o := Run(size, max, steps);
            && (var r := Acquire(o.pool).1;
                r.Some? ==> r.value !in o.hand && !Registered(o, r.value) && !Held(o, r.value))
            && (forall c | c in o.closers && o.closers[c].phase.Holds() :: Release(o.pool, o.closers[c].phase.held).1)
  {
    var acc := RunKeepsInv(size, max, steps);
    var o := Run(size, max, steps);
    var r := Acquire(o.pool).1;
    if r.Some? {
      AcquireQueue(o.pool, Ever(o));
      RegisteredIsInTable(o, acc, r.value);
    }
    forall c | c in o.closers && o.closers[c].phase.Holds()
      ensures Release(o.pool, o.closers[c].phase.held).1
    {
      HeldReleaseSucceeds(o, acc, c);
    }
  }

  /**
   A login that completes after its session was closed puts the session back into
   the table. Sole ownership survives exactly when the session is still registered.
   */
  lemma LateLoginBreaksOwnershipExactly(size: nat, max: nat, steps: seq<Step>, i: nat)
    requires i in Run(size, max, steps).sid
    ensures var o := Run(size, max, steps); Owned(DoAdd(o, i)) <==> Registered(o, i)
  {
    var acc := RunKeepsInv(size, max, steps);
    var o := Run(size, max, steps);
    var o' := DoAdd(o, i);
    InvOwned(o, acc);
    if Registered(o, i) {
      assert o' == o;
    } else {
      assert Registered(o', i);
      assert Free(o', i) <==> Free(o, i);
      assert Held(o', i) <==> Held(o, i);
      assert PlacesOf(o, i) == 1;
      assert PlacesOf(o', i) == 2;
    }
  }

  // -------------------------------------------------------------- the gate

  /** What a closer holds is the session it was called on. */
  predicate HeldIsTarget(closers: map<nat, Closer>) {
    forall c | c in closers && closers[c].phase.Holds() :: closers[c].phase.held == closers[c].target
  }

  lemma RemoveFindsTarget(o: Own, acc: Account, c: nat)
    requires IdsInv(o, acc) && TableInv(o, acc) && Enabled(o, RemoveFromTable(c))
    requires forall i | i in acc :: i in o.sid
    ensures var id := o.sid[o.closers[c].target];
            id in o.table ==> o.table[id] == o.closers[c].target
  {
    var id := o.sid[o.closers[c].target];
    if id in o.table {
      assert acc[o.table[id]] == InTable(id);
    }
  }

  lemma NextKeepsHeld(o: Own, acc: Account, s: Step)
    requires Inv(o, acc) && HeldIsTarget(o.closers)
    ensures HeldIsTarget(Next(o, s).closers)
  {
    if Enabled(o, s) && MovesCloser(s) {
      if s.RemoveFromTable? {
        RemoveFindsTarget(o, acc, s.c);
      }
      CloserMoves(o, s);
    } else {
      ClosersComeAndGo(o, s);
    }
  }

  /** The steps in which a closer goes on. */
  predicate MovesCloser(s: Step) {
    s.MarkClosed? || s.RemoveFromTable? || s.CleanForRelease? || s.ReleaseToPool?
  }

  /** The closers after the other steps. */
  lemma ClosersComeAndGo(o: Own, s: Step)
    requires !(Enabled(o, s) && MovesCloser(s))
    ensures Next(o, s).closers ==
            if Enabled(o, s) && s.BeginClose? then o.closers[s.c := Closer(s.i, Began)]
            else if Enabled(o, s) && s.Finish? then o.closers - {s.c}
            else o.closers
  {
  }

  /** A closer that goes on changes its phase only, and comes to hold what the table has under its target's id. */
  lemma CloserMoves(o: Own, s: Step)
    requires Enabled(o, s) && MovesCloser(s)
    ensures s.c in o.closers && s.c in Next(o, s).closers
    ensures var p := Next(o, s).closers[s.c].phase;
            && Next(o, s).closers == o.closers[s.c := o.closers[s.c].(phase := p)]
            && (p.Holds() && !s.RemoveFromTable? ==>
                  o.closers[s.c].phase.Holds() && p.held == o.closers[s.c].phase.held)
            && (p.Holds() && s.RemoveFromTable? ==>
                  var id := o.sid[o.closers[s.c].target]; id in o.table && p.held == o.table[id])
  {
  }

  lemma {:induction false} RunKeepsHeld(size: nat, max: nat, steps: seq<Step>)
    ensures HeldIsTarget(Run(size, max, steps).closers)
    decreases |steps|
  {
    if steps != [] {
      var prefix := steps[..|steps| - 1];
      RunKeepsHeld(size, max, prefix);
      var acc := RunKeepsInv(size, max, prefix);
      NextKeepsHeld(Run(size, max, prefix), acc, steps[|steps| - 1]);
    }
  }

  /** A closer's target exists, and its gate is shut except between the two steps of the closer's release. */
  predicate Shut(o: Own, c: nat) {
    && c in o.closers && o.closers[c].target in o.life
    && (o.closers[c].phase.Resetting?
        || (o.life[o.closers[c].target] != Idle && o.life[o.closers[c].target] != Active))
  }

  /** No two closers are past the gate of one session, and it stays shut for the one that is. */
  ghost predicate GateSound(o: Own) {
    && (forall c | c in o.closers :: Shut(o, c))
    && (forall c, d | c in o.closers && d in o.closers && o.closers[c].target == o.closers[d].target :: c == d)
  }

  /** The pool hands out a session that a closer is not done with. */
  ghost predicate HandsOutBusy(o: Own, s: Step) {
    && s.Accept? && Enabled(o, s) && Acquire(o.pool).1.Some?
    && exists c :: c in o.closers && o.closers[c].target == Acquire(o.pool).1.value
  }

  /** A closer begins on a session that another one is just releasing. */
  ghost predicate SlipsIn(o: Own, s: Step) {
    s.BeginClose? && Enabled(o, s) && exists c :: c in o.closers && o.closers[c].phase == Resetting(s.i)
  }

  lemma AcceptKeepsGateExactly(o: Own)
    requires GateSound(o) && Enabled(o, Accept)
    ensures GateSound(DoAccept(o)) <==> !HandsOutBusy(o, Accept)
  {
    var o' := DoAccept(o);
    if HandsOutBusy(o, Accept) {
      var c :| c in o.closers && o.closers[c].target == Acquire(o.pool).1.value;
      assert !Shut(o', c);
    } else {
      forall c | c in o'.closers
        ensures Shut(o', c)
      {
        assert Shut(o, c);
      }
    }
  }

  lemma BeginKeepsGateExactly(o: Own, c: nat, i: nat)
    requires GateSound(o) && HeldIsTarget(o.closers) && Enabled(o, BeginClose(c, i))
    ensures GateSound(Next(o, BeginClose(c, i))) <==> !SlipsIn(o, BeginClose(c, i))
  {
    var o' := Next(o, BeginClose(c, i));
    if SlipsIn(o, BeginClose(c, i)) {
      var d :| d in o.closers && o.closers[d].phase == Resetting(i);
      assert o'.closers[d].target == o'.closers[c].target && d != c;
    } else {
      forall d | d in o.closers
        ensures o.closers[d].target != i
      {
        assert Shut(o, d);
      }
      forall d | d in o'.closers
        ensures Shut(o', d)
      {
        assert d != c ==> Shut(o, d);
      }
    }
  }

  /** A closer that moves on to its next phase, or is done and leaves the gate to others. */
  lemma CloserKeepsGate(o: Own, s: Step)
    requires GateSound(o) && HeldIsTarget(o.closers) && Enabled(o, s) && (MovesCloser(s) || s.Finish?)
    ensures GateSound(Next(o, s))
  {
    var o' := Next(o, s);
    if s.Finish? {
      ClosersComeAndGo(o, s);
    } else {
      CloserMoves(o, s);
    }
    forall d | d in o'.closers
      ensures Shut(o', d)
    {
      assert Shut(o, d) && Shut(o, s.c);
      OnlyOwnGate(o, s, d);
    }
  }

  lemma OnlyOwnGate(o: Own, s: Step, d: nat)
    requires GateSound(o) && HeldIsTarget(o.closers) && Enabled(o, s) && d in o.closers
    requires MovesCloser(s) || s.Finish?
    ensures var i := o.closers[d].target;
            d != s.c ==> i in Next(o, s).life && i in o.life && Next(o, s).life[i] == o.life[i]
    ensures d == s.c && !s.Finish? ==> Shut(Next(o, s), d)
  {
    assert Shut(o, d) && Shut(o, s.c);
    assert d != s.c ==> o.closers[d].target != o.closers[s.c].target;
  }

  /** Only two steps open the gate too early: the hand-out of a busy session, and a closer that slips in. */
  lemma StepKeepsGateExactly(o: Own, s: Step)
    requires GateSound(o) && HeldIsTarget(o.closers)
    ensures GateSound(Next(o, s)) <==> !HandsOutBusy(o, s) && !SlipsIn(o, s)
  {
    if Enabled(o, s) {
      match s
      case Accept => AcceptKeepsGateExactly(o);
      case Add(i) => assert forall c :: Shut(Next(o, s), c) <==> Shut(o, c);
      case LoginAdd(i) => assert forall c :: Shut(Next(o, s), c) <==> Shut(o, c);
      case BeginClose(c, i) => BeginKeepsGateExactly(o, c, i);
      case _ => CloserKeepsGate(o, s);
    }
  }

  /**
   Along a run each session has at most one closer past its gate, and the gate stays shut
   for it outside the release, exactly when the pool never hands out a session before its
   last closer has finished and no closer begins on a session that is just being released.
   */
  lemma GateSoundExactly(size: nat, max: nat, steps: seq<Step>)
    ensures (forall k | 0 <= k <= |steps| :: GateSound(Run(size, max, steps[..k])))
            <==> (forall k | 0 <= k < |steps| :: Careful(size, max, steps, k))
  {
    if forall k | 0 <= k < |steps| :: Careful(size, max, steps, k) {
      forall k | 0 <= k <= |steps|
        ensures GateSound(Run(size, max, steps[..k]))
      {
        GateSoundUpTo(size, max, steps, k);
      }
    }
    if forall k | 0 <= k <= |steps| :: GateSound(Run(size, max, steps[..k])) {
      forall k | 0 <= k < |steps|
        ensures Careful(size, max, steps, k)
      {
        GateStep(size, max, steps, k);
      }
    }
  }

  ghost predicate Careful(size: nat, max: nat, steps: seq<Step>, k: nat)
    requires k < |steps|
  {
    !HandsOutBusy(Run(size, max, steps[..k]), steps[k]) && !SlipsIn(Run(size, max, steps[..k]), steps[k])
  }

  lemma GateStep(size: nat, max: nat, steps: seq<Step>, k: nat)
    requires k < |steps| && GateSound(Run(size, max, steps[..k]))
    ensures GateSound(Run(size, max, steps[..k + 1])) <==> Careful(size, max, steps, k)
  {
    RunKeepsHeld(size, max, steps[..k]);
    StepKeepsGateExactly(Run(size, max, steps[..k]), steps[k]);
    assert steps[..k + 1][..k] == steps[..k];
  }

  lemma {:induction false} GateSoundUpTo(size: nat, max: nat, steps: seq<Step>, k: nat)
    requires k <= |steps|
    requires forall m | 0 <= m < |steps| :: Careful(size, max, steps, m)
    ensures GateSound(Run(size, max, steps[..k]))
  {
    if k > 0 {
      GateSoundUpTo(size, max, steps, k - 1);
      GateStep(size, max, steps, k - 1);
    }
  }

  // ------------------------------------------------------------ two witnesses

  const OPENED: seq<Step> := [Accept, Add(0), BeginClose(1, 0)]

  const CLEANED: seq<Step> := [MarkClosed(1), RemoveFromTable(1), CleanForRelease(1)]

  const REUSED: seq<Step> := [ReleaseToPool(1), Accept, Add(0), BeginClose(2, 0)]

  const REOPENED: seq<Step> := [Finish(1), BeginClose(3, 0)]

  lemma {:induction false} RunAppend(size: nat, max: nat, a: seq<Step>, b: seq<Step>)
    ensures Run(size, max, a + b) == RunFrom(Run(size, max, a), b)
    decreases |b|
  {
    if b == [] {
      assert a + b == a;
    } else {
      var a' := a + [b[0]];
      assert a + b == a' + b[1..];
      assert a'[..|a|] == a;
      RunAppend(size, max, a', b[1..]);
    }
  }

  function RunFrom(o: Own, steps: seq<Step>): Own
    decreases |steps|
  {
    if steps == [] then o else RunFrom(Next(o, steps[0]), steps[1..])
  }

  const BEING_CLOSED: Own :=
    Own(Pool(1, 1, [], {}), map[0 := Closing], map[0 := 0], 1, map[0 := 0], {},
        map[1 := Closer(0, Began)], multiset{0}, multiset{}, map[0 := 0])

  /** One session handed out and being released by its closer: cleaned up, not yet marked. */
  const BEING_RELEASED: Own :=
    Own(Pool(1, 1, [], {}), map[0 := Idle], map[0 := 0], 1, map[], {},
        map[1 := Closer(0, Resetting(0))], multiset{0}, multiset{}, map[0 := 0])

  /** The next checkout of the session is being closed while the first closer still has its cleanup to do. */
  const CLOSED_AGAIN: Own :=
    Own(Pool(1, 1, [], {}), map[0 := Closing], map[0 := 1], 2, map[1 := 0], {},
        map[1 := Closer(0, Cleaning), 2 := Closer(0, Began)], multiset{0, 0}, multiset{0}, map[0 := 0, 1 := 0])

  lemma Opens()
    ensures RunFrom(Start(1, 1), OPENED) == BEING_CLOSED
  {
    var o0 := Start(1, 1);
    assert o0.pool == Pool(1, 1, [0], {});
    var o1 := Next(o0, Accept);
    assert o1.pool == Pool(1, 1, [], {});
    var o2 := Next(o1, Add(0));
    assert Next(o2, BeginClose(1, 0)) == BEING_CLOSED;
  }

  lemma Cleans()
    ensures RunFrom(BEING_CLOSED, CLEANED) == BEING_RELEASED
  {
    var o4 := Next(BEING_CLOSED, MarkClosed(1));
    var o5 := Next(o4, RemoveFromTable(1));
    assert o5 == BEING_RELEASED.(life := map[0 := Finalized], closers := map[1 := Closer(0, Holding(0))]);
    assert !PoolLocked(o5);
    assert Next(o5, CleanForRelease(1)) == BEING_RELEASED;
  }

  /** The session is back in the pool, its closer not yet through with the last cleanup. */
  const RELEASED: Own :=
    Own(Pool(1, 1, [0], {0}), map[0 := Released], map[0 := 0], 1, map[], {},
        map[1 := Closer(0, Cleaning)], multiset{0}, multiset{0}, map[0 := 0])

  lemma Releases()
    ensures Next(BEING_RELEASED, ReleaseToPool(1)) == RELEASED
  {
  }

  /** The session handed out again. */
  const IN_HAND: Own :=
    Own(Pool(1, 1, [], {}), map[0 := Idle], map[0 := 1], 2, map[], {0},
        map[1 := Closer(0, Cleaning)], multiset{0, 0}, multiset{0}, map[0 := 0, 1 := 0])

  lemma HandsOutAgain()
    ensures Next(RELEASED, Accept) == IN_HAND
  {
    assert Next(RELEASED, Accept).pool == Pool(1, 1, [], {});
  }

  lemma ClosesAgain()
    ensures RunFrom(IN_HAND, [Add(0), BeginClose(2, 0)]) == CLOSED_AGAIN
  {
    var o2 := Next(IN_HAND, Add(0));
    assert o2.table == map[1 := 0] && o2.hand == {};
  }

  lemma RunFromTwo(o: Own, steps: seq<Step>)
    requires |steps| >= 2
    ensures RunFrom(o, steps) == RunFrom(Next(Next(o, steps[0]), steps[1]), steps[1..][1..])
  {
  }

  lemma Reuses()
    ensures RunFrom(BEING_RELEASED, REUSED) == CLOSED_AGAIN
  {
    assert REUSED[1..] == [Accept, Add(0), BeginClose(2, 0)] && REUSED[1..][1..] == [Add(0), BeginClose(2, 0)];
    RunFromTwo(BEING_RELEASED, REUSED);
    Releases();
    HandsOutAgain();
    ClosesAgain();
  }

  lemma Reopens()
    ensures RunFrom(CLOSED_AGAIN, REOPENED).closers == map[2 := Closer(0, Began), 3 := Closer(0, Began)]
  {
    var o4 := Next(CLOSED_AGAIN, Finish(1));
    assert o4.life == map[0 := Idle] && o4.closers == map[2 := Closer(0, Began)];
  }

  lemma SlipIn()
    ensures RunFrom(BEING_RELEASED, [BeginClose(2, 0)])
            == BEING_RELEASED.(life := map[0 := Closing],
                               closers := map[1 := Closer(0, Resetting(0)), 2 := Closer(0, Began)])
  {
  }

  /** From the start, in parts. */
  lemma RunParts(a: seq<Step>, b: seq<Step>, c: seq<Step>, d: seq<Step>)
    ensures Run(1, 1, a + b + c + d) == RunFrom(RunFrom(RunFrom(RunFrom(Start(1, 1), a), b), c), d)
  {
    RunAppend(1, 1, [], a);
    assert [] + a == a;
    RunAppend(1, 1, a, b);
    RunAppend(1, 1, a + b, c);
    RunAppend(1, 1, a + b + c, d);
  }

  /**
   An input for the second condition: between the cleanup and the mark of a release the
   session is Idle, and another closer of the same checkout gets past the gate.
   */
  lemma GateOpenDuringRelease()
    ensures var o := Run(1, 1, OPENED + CLEANED + [BeginClose(2, 0)]);
            o.closers == map[1 := Closer(0, Resetting(0)), 2 := Closer(0, Began)] && o.taken == multiset{0}
  {
    RunParts(OPENED, CLEANED, [BeginClose(2, 0)], []);
    assert OPENED + CLEANED + [BeginClose(2, 0)] + [] == OPENED + CLEANED + [BeginClose(2, 0)];
    Opens();
    Cleans();
    SlipIn();
  }

  /**
   An input for the first: a closer that is slow to finish reopens the gate of the next
   checkout, and two closers of that checkout get past it. It is the table, not the gate,
   that makes the closer unique.
   */
  lemma GateAdmitsTwoClosers()
    ensures Run(1, 1, OPENED + CLEANED + REUSED + REOPENED).closers
            == map[2 := Closer(0, Began), 3 := Closer(0, Began)]
  {
    RunParts(OPENED, CLEANED, REUSED, REOPENED);
    Opens();
    Cleans();
    Reuses();
    Reopens();
  }
}
