/** Closing the longest-idle clients that have not logged in. */
module UnauthCleanup {
  import opened Guarantees
  import opened Lifecycle
  import opened Pools
  import opened Sessions
  import opened SessionTable
  import opened Worlds

  predicate Unauthenticated(w: World, i: nat) {
    Registered(w, i) && w.sess[i].Unauthenticated()
  }

  /** Close the sessions in the order given. */
  function CloseAll(w: World, victims: seq<nat>): World {
    if victims == [] then w
    else
      var w1 := CloseAll(w, victims[..|victims| - 1]);
      var v := victims[|victims| - 1];
      if v < |w1.sess| then CloseSession(w1, v) else w1
  }

  /** The sequence names every unauthenticated session of the table, each once. */
  ghost predicate Lists(w: World, order: seq<nat>) {
    Distinct(order) && forall i :: i in order <==> Unauthenticated(w, i)
  }

  ghost predicate OldestFirst(w: World, order: seq<nat>) {
    forall a, b | 0 <= a < b < |order| && order[a] < |w.sess| && order[b] < |w.sess| ::
      w.sess[order[a]].lastAlive <= w.sess[order[b]].lastAlive
  }

  function Excess(n: nat, max: nat): nat {
    if n > max then n - max else 0
  }

  /** Closing several sessions is a run of single closes. */
  lemma {:induction false} CloseAllIsRun(w: World, victims: seq<nat>)
    ensures CloseAll(w, victims) == Run(w, seq(|victims|, k requires 0 <= k < |victims| => CloseStep(victims[k])))
    decreases |victims|
  {
    var steps := seq(|victims|, k requires 0 <= k < |victims| => CloseStep(victims[k]));
    if victims != [] {
      var n := |victims| - 1;
      CloseAllIsRun(w, victims[..n]);
      assert steps[..n] == seq(n, k requires 0 <= k < n => CloseStep(victims[..n][k]));
    }
  }

  /** The victims leave the table; everyone else keeps place and record. */
  lemma {:induction false} CloseAllEffect(w: World, victims: seq<nat>)
    requires Inv(w) && forall k | 0 <= k < |victims| :: victims[k] < |w.sess|
    ensures var w' := CloseAll(w, victims);
            && Inv(w') && |w'.sess| == |w.sess|
            && (forall j: nat | j < |w.sess| :: Registered(w', j) <==> Registered(w, j) && j !in victims)
            && (forall j: nat | j < |w.sess| && j !in victims :: w'.sess[j] == w.sess[j])
    decreases |victims|
  {
    if victims != [] {
      var n := |victims| - 1;
      CloseAllEffect(w, victims[..n]);
      var w1 := CloseAll(w, victims[..n]);
      assert victims == victims[..n] + [victims[n]];
      CloseKeepsInv(w1, victims[n]);
      CloseOthers(w1, victims[n]);
    }
  }

  /** The entries of the table whose sessions have not logged in. */
  function UnauthTable(w: World): map<int, nat> {
    map id | id in w.table && w.table[id] < |w.sess| && w.sess[w.table[id]].Unauthenticated() :: w.table[id]
  }

  /** Where every entry of the table is under its session's own id, no session is listed twice. */
  lemma EnumeratedOnce(w: World, ids: seq<int>, order: seq<nat>)
    requires TableInv(w) && Enumerates(ids, order, UnauthTable(w))
    ensures Lists(w, order)
  {
    forall k | 0 <= k < |order|
      ensures Unauthenticated(w, order[k]) && w.sess[order[k]].id == ids[k]
    {
      var id := ids[k];
      assert id in UnauthTable(w) && UnauthTable(w)[id] == order[k] == w.table[id];
      assert w.sess[w.table[id]].id == id;
      assert Registered(w, w.table[id]);
    }
    forall i: nat | Unauthenticated(w, i)
      ensures i in order
    {
      assert w.sess[i].id in UnauthTable(w) && w.sess[i].id in ids;
      var k :| 0 <= k < |ids| && ids[k] == w.sess[i].id;
      assert order[k] == i;
    }
  }

  /** The registered sessions that are shaking hands or waiting for their login. */
  ghost function Waiting(w: World): set<nat> {
    set i: nat | i < |w.sess| && Registered(w, i) && (w.sess[i].state == Handshaking || w.sess[i].state == LoginWait)
  }

  /**
   What closing the excess from the oldest end must do: of the sessions that wait exactly
   min(n, max) go on waiting and the others leave the table; none that waits was last alive
   before one that had to leave; and nobody else is touched, logged in or not registered.
   */
  ghost predicate KeepsNewest(w: World, w': World, max: nat) {
    && Inv(w') && |w'.sess| == |w.sess|
    && Waiting(w') <= Waiting(w) && |Waiting(w')| == (if |Waiting(w)| < max then |Waiting(w)| else max)
    && (forall a, b | a in Waiting(w) && a !in Waiting(w') && b in Waiting(w') ::
          !Registered(w', a) && w.sess[a].lastAlive <= w.sess[b].lastAlive)
    && (forall j: nat | j < |w.sess| && (j !in Waiting(w) || j in Waiting(w')) ::
          w'.sess[j] == w.sess[j] && (Registered(w', j) <==> Registered(w, j)))
  }

  lemma CleanupKeepsNewest(w: World, order: seq<nat>, max: nat)
    requires Inv(w) && Lists(w, order) && (|order| > max ==> OldestFirst(w, order))
    ensures KeepsNewest(w, CloseAll(w, order[..Excess(|order|, max)]), max)
  {
    var k := Excess(|order|, max);
    var w' := CloseAll(w, order[..k]);
    ListedInRange(w, order);
    CloseAllEffect(w, order[..k]);
    SurvivorsListed(w, w', order, k);
    ListedWaiting(w, order);
    ListedWaiting(w', order[k..]);
    SplitMembers(order, k);
    if k > 0 {
      OlderClosed(w, order, k);
    }
  }

  lemma SplitMembers(order: seq<nat>, k: nat)
    requires Distinct(order) && k <= |order|
    ensures forall i :: i in Members(order[k..]) <==> i in Members(order) && i !in order[..k]
    ensures forall i | i in order[..k] :: i in Members(order)
  {
    forall i: nat
      ensures i in Members(order[k..]) <==> i in Members(order) && i !in order[..k]
      ensures i in order[..k] ==> i in Members(order)
    {
      SplitDistinct(order, k, i);
    }
  }

  /** The list has those that wait, and as many. */
  lemma ListedWaiting(w: World, order: seq<nat>)
    requires Lists(w, order)
    ensures Waiting(w) == Members(order) && |Waiting(w)| == |order|
  {
    QueueAsSet(order);
    forall i: nat
      ensures i in Waiting(w) <==> i in Members(order)
    {
      assert i in order <==> Unauthenticated(w, i);
    }
  }

  /** The same of a list taken from the table by its ids, in the states where no session is listed twice. */
  lemma TrimKeepsNewest(w: World, ids: seq<int>, order: seq<nat>, max: nat)
    requires Enumerates(ids, order, UnauthTable(w)) && (|order| > max ==> OldestFirst(w, order))
    ensures Inv(w) ==> KeepsNewest(w, CloseAll(w, order[..Excess(|order|, max)]), max)
  {
    if Inv(w) {
      EnumeratedOnce(w, ids, order);
      CleanupKeepsNewest(w, order, max);
    }
  }

  lemma ListedInRange(w: World, order: seq<nat>)
    requires Lists(w, order)
    ensures forall k | 0 <= k < |order| :: Unauthenticated(w, order[k])
  {
  }

  lemma SurvivorsListed(w: World, w': World, order: seq<nat>, k: nat)
    requires Lists(w, order) && k <= |order| && |w'.sess| == |w.sess|
    requires forall j: nat | j < |w.sess| :: Registered(w', j) <==> Registered(w, j) && j !in order[..k]
    requires forall j: nat | j < |w.sess| && j !in order[..k] :: w'.sess[j] == w.sess[j]
    ensures Lists(w', order[k..])
    ensures forall j | j in order[..k] :: Unauthenticated(w, j) && !Registered(w', j)
    ensures forall j | j in order[k..] :: Unauthenticated(w, j) && w'.sess[j] == w.sess[j]
  {
    forall i: nat
      ensures i in order[k..] <==> Unauthenticated(w', i)
      ensures i in order[..k] ==> Unauthenticated(w, i)
      ensures i in order[k..] ==> Unauthenticated(w, i) && i !in order[..k]
    {
      SplitDistinct(order, k, i);
      assert i in order <==> Unauthenticated(w, i);
    }
  }

  lemma OlderClosed(w: World, order: seq<nat>, k: nat)
    requires Lists(w, order) && OldestFirst(w, order) && k <= |order|
    ensures forall a, b | a in order[..k] && b in order[k..] ::
      a < |w.sess| && b < |w.sess| && w.sess[a].lastAlive <= w.sess[b].lastAlive
  {
    ListedInRange(w, order);
    forall a, b | a in order[..k] && b in order[k..]
      ensures a < |w.sess| && b < |w.sess| && w.sess[a].lastAlive <= w.sess[b].lastAlive
    {
      var x :| 0 <= x < k && order[..k][x] == a;
      var y :| 0 <= y < |order| - k && order[k..][y] == b;
      assert order[x] == a && order[k + y] == b;
    }
  }

  lemma SplitDistinct(order: seq<nat>, k: nat, i: nat)
    requires Distinct(order) && k <= |order|
    ensures i in order <==> i in order[..k] || i in order[k..]
    ensures i in order[k..] ==> i !in order[..k]
  {
  }
}
