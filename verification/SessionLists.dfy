/**
 Lists of session objects that enumerate a map from ids: the unauthenticated ones
 of the table's snapshot, and the same sorted by age.
 */
module SessionLists {
  import opened Wrappers
  import opened Sessions
  import opened SessionTable

  function Places(ss: seq<Session>): (places: seq<nat>)
    ensures |places| == |ss| && forall k | 0 <= k < |ss| :: places[k] == ss[k].index
  {
    seq(|ss|, k requires 0 <= k < |ss| => ss[k].index)
  }

  lemma InsertNew(ids: seq<int>, p: nat, id: int)
    requires p <= |ids| && id !in ids && forall i, j | 0 <= i < j < |ids| :: ids[i] != ids[j]
    ensures var ids' := ids[..p] + [id] + ids[p..];
            && (forall i, j | 0 <= i < j < |ids'| :: ids'[i] != ids'[j])
            && (forall i :: i in ids' <==> i in ids || i == id)
  {
    assert ids == ids[..p] + ids[p..];
  }

  /** An enumeration grows at any place by an id that its map does not have. */
  lemma EnumerateInsert<V>(ids: seq<int>, vs: seq<V>, m: map<int, V>, p: nat, id: int, v: V)
    requires Enumerates(ids, vs, m) && p <= |ids| && id !in m
    ensures Enumerates(ids[..p] + [id] + ids[p..], vs[..p] + [v] + vs[p..], m[id := v])
  {
    InsertNew(ids, p, id);
    var ids', vs' := ids[..p] + [id] + ids[p..], vs[..p] + [v] + vs[p..];
    forall x | 0 <= x < |ids'|
      ensures ids'[x] in m[id := v] && m[id := v][ids'[x]] == vs'[x]
    {
      if x != p {
        assert ids[if x < p then x else x - 1] in m;
      }
    }
  }

  /** The part of a table whose sessions have not logged in. */
  ghost function UnauthOf(table: map<int, Session>): map<int, Session>
    reads table.Values
  {
    map id | id in table && table[id].Value().Unauthenticated() :: table[id]
  }

  /** Of the sessions of a table, listed with their ids, the unauthenticated ones. */
  method FilterUnauth(ghost ids: seq<int>, ss: seq<Session>, ghost table: map<int, Session>)
    returns (found: seq<Session>, ghost kept: seq<int>)
    requires Enumerates(ids, ss, table)
    ensures forall k | 0 <= k < |found| ::
              found[k] in ss && (found[k].state == Handshaking || found[k].state == LoginWait)
    ensures forall k | 0 <= k < |ss| && (ss[k].state == Handshaking || ss[k].state == LoginWait) :: ss[k] in found
    ensures Enumerates(kept, found, UnauthOf(table))
  {
    found, kept := [], [];
    ghost var m: map<int, Session> := map[];
    var k := 0;
    while k < |ss|
      invariant k <= |ss| && Enumerates(kept, found, m)
      invariant forall i | 0 <= i < |found| :: found[i] in ss && found[i].Value().Unauthenticated()
      invariant forall i | 0 <= i < k && ss[i].Value().Unauthenticated() :: ss[i] in found && ids[i] in m
      invariant forall i | k <= i < |ids| :: ids[i] !in m
      invariant forall id | id in m :: id in table && m[id] == table[id] && table[id].Value().Unauthenticated()
    {
      if ss[k].Value().Unauthenticated() {
        AppendEnumerated(kept, found, m, ids[k], ss[k]);
        found, kept, m := found + [ss[k]], kept + [ids[k]], m[ids[k] := ss[k]];
      }
      k := k + 1;
    }
    FilteredAll(ids, ss, table, m);
  }

  /** A part of the table that has the unauthenticated entries of the whole listing is all of them. */
  lemma FilteredAll(ids: seq<int>, ss: seq<Session>, table: map<int, Session>, m: map<int, Session>)
    requires Enumerates(ids, ss, table)
    requires forall i | 0 <= i < |ss| && ss[i].Value().Unauthenticated() :: ids[i] in m
    requires forall id | id in m :: id in table && m[id] == table[id] && table[id].Value().Unauthenticated()
    ensures m == UnauthOf(table)
  {
    forall id
      ensures Lookup(m, id) == Lookup(UnauthOf(table), id)
    {
      if id in table {
        assert id in ids;
        var i :| 0 <= i < |ids| && ids[i] == id;
      }
    }
    SameLookups(m, UnauthOf(table));
  }

  lemma AppendEnumerated(ids: seq<int>, vs: seq<Session>, m: map<int, Session>, id: int, v: Session)
    requires Enumerates(ids, vs, m) && id !in m
    ensures Enumerates(ids + [id], vs + [v], m[id := v])
  {
    EnumerateInsert(ids, vs, m, |ids|, id, v);
    assert ids[..|ids|] + [id] + ids[|ids|..] == ids + [id] && vs[..|vs|] + [v] + vs[|vs|..] == vs + [v];
  }

  ghost predicate Ascending(ss: seq<Session>)
    reads ss
  {
    forall a, b | 0 <= a < b < |ss| :: ss[a].lastAlive <= ss[b].lastAlive
  }

  /** The sessions of a map, each once, in ascending order of the time they were last alive. */
  method SortByLastAlive(ghost ids: seq<int>, ss: seq<Session>, ghost m: map<int, Session>)
    returns (sorted: seq<Session>, ghost sortedIds: seq<int>)
    requires Enumerates(ids, ss, m)
    ensures Enumerates(sortedIds, sorted, m) && Ascending(sorted) && |sorted| == |ss|
  {
    sorted, sortedIds := [], [];
    ghost var done: map<int, Session> := map[];
    var k := 0;
    while k < |ss|
      invariant k <= |ss| && |sorted| == k
      invariant Enumerates(sortedIds, sorted, done) && Ascending(sorted)
      invariant forall i | 0 <= i < k :: ids[i] in done
      invariant forall i | k <= i < |ids| :: ids[i] !in done
      invariant forall id | id in done :: id in m && done[id] == m[id]
    {
      sorted, sortedIds := Insert(sortedIds, sorted, done, ids[k], ss[k]);
      done := done[ids[k] := ss[k]];
      k := k + 1;
    }
    forall id
      ensures Lookup(done, id) == Lookup(m, id)
    {
      if id in m {
        assert id in ids;
        var i :| 0 <= i < |ids| && ids[i] == id;
      }
    }
    SameLookups(done, m);
  }

  method Insert(ghost ids: seq<int>, sorted: seq<Session>, ghost m: map<int, Session>, ghost id: int, s: Session)
    returns (r: seq<Session>, ghost ids': seq<int>)
    requires Ascending(sorted) && Enumerates(ids, sorted, m) && id !in m
    ensures Ascending(r) && Enumerates(ids', r, m[id := s]) && |r| == |sorted| + 1
  {
    var p := 0;
    while p < |sorted| && sorted[p].lastAlive <= s.lastAlive
      invariant p <= |sorted|
      invariant forall x | 0 <= x < p :: sorted[x].lastAlive <= s.lastAlive
    {
      p := p + 1;
    }
    InsertAscending(sorted, p, s);
    EnumerateInsert(ids, sorted, m, p, id, s);
    r, ids' := sorted[..p] + [s] + sorted[p..], ids[..p] + [id] + ids[p..];
  }

  lemma InsertAscending(sorted: seq<Session>, p: nat, s: Session)
    requires Ascending(sorted) && p <= |sorted|
    requires forall x | 0 <= x < p :: sorted[x].lastAlive <= s.lastAlive
    requires p < |sorted| ==> s.lastAlive < sorted[p].lastAlive
    ensures Ascending(sorted[..p] + [s] + sorted[p..])
  {
  }
}
