/**
 Whom a login closes. The login message evicts once, the completion twice more; the
 nickname index decides whom, and its entries outlive the names they stand for.
 */
module Evictions {
  import opened Wrappers
  import opened Sessions
  import opened Pools
  import opened Worlds
  import opened Effects
  import opened Lifecycle
  import opened Guarantees

  // ------------------------------------------------- the message and the completion

  /** A nickname with which a login message goes on. */
  predicate Proper(n: string) {
    n != "" && n != "quit"
  }

  /** A whole login: the message, and the completion right after it. */
  function Login(w: World, i: nat, n: string): World
    requires i < |w.sess|
  {
    var w1 := LoginBegin(w, i, n);
    if i < |w1.sess| then LoginOk(w1, i, n) else w1
  }

  lemma LoginKeepsOther(w: World, i: nat, n: string, j: nat)
    requires Inv(w) && Registered(w, i) && Registered(w, j) && i != j && n != "" && Lookup(w.nicks, n) != Some(j)
    ensures var w' := LoginOk(w, i, n);
            && Inv(w') && Registered(w', i) && Registered(w', j) && w'.sess[i].nickname == n
            && w'.nicks == w.nicks[n := i]
  {
    LoginEvictsExactly(w, i, n, j);
    LoginOkKeepsInv(w, i, n);
  }

  /** The rival's record loses its id's place in the table. */
  lemma Evicted(w: World, j: nat, n: string, i: nat)
    requires Inv(w) && Registered(w, j) && n != "" && Rival(w, j, n) == Some(i)
    ensures !Registered(LoginOk(w, j, n), i)
  {
    LoginOkSteps(w, j, n);
    CloseOthers(w, i);
    CloseOthers(Evict(w, j, n), i);
    EnterEnds(Evict(Evict(w, j, n), j, n), j, n);
  }

  lemma LoginRemoves(w: World, i: nat, n: string, j: nat)
    requires Inv(w) && Registered(w, i) && n != "" && Registered(w, j)
    ensures !Registered(LoginOk(w, i, n), j) <==> Rival(w, i, n) == Some(j)
  {
    if Rival(w, i, n) == Some(j) {
      Evicted(w, i, n, j);
    } else if j != i {
      LoginEvictsExactly(w, i, n, j);
      UnrivalledStays(w, i, n, j);
    } else {
      LoginEvictsExactly(w, i, n, i);
    }
  }

  lemma UnrivalledStays(w: World, i: nat, n: string, j: nat)
    requires Inv(w) && Registered(w, i) && n != "" && Registered(w, j) && i != j && Rival(w, i, n) != Some(j)
    ensures Registered(LoginOk(w, i, n), j)
  {
    LoginEvictsExactly(w, i, n, j);
    assert Lookup(w.nicks, n) != Some(j);
    if Rival(w, i, n).Some? {
      assert w.sess[Rival(w, i, n).value].id != w.sess[j].id;
    }
  }

  /** The login message takes out of the table its rival, if there is one, and nobody else. */
  lemma MessageRemoves(w: World, i: nat, n: string, j: nat)
    requires Inv(w) && i < |w.sess| && Proper(n) && Registered(w, j)
    ensures !Registered(LoginBegin(w, i, n), j) <==> Rival(w, i, n) == Some(j)
  {
    if n in w.nicks && w.nicks[n] != i && w.nicks[n] < |w.sess| {
      CloseOthers(w, w.nicks[n]);
    }
  }

  /**
   The two login messages that do not go on: under the word quit the sender itself leaves the
   table, and nobody else does; under the empty nickname nothing happens.
   */
  lemma QuitLeaves(w: World, i: nat, j: nat)
    requires Inv(w) && i < |w.sess| && j < |w.sess|
    ensures Registered(LoginBegin(w, i, "quit"), j) <==> Registered(w, j) && j != i
    ensures LoginBegin(w, i, "") == w
  {
    CloseOthers(w, i);
  }

  lemma MessageKeeps(w: World, i: nat, n: string)
    requires Inv(w) && Registered(w, i) && Proper(n)
    ensures var w' := LoginBegin(w, i, n);
            Inv(w') && |w'.sess| == |w.sess| && Registered(w', i) && w'.nicks == w.nicks
  {
    EvictKeepsInv(w, i, n);
    EvictFreesNickname(w, i, n);
  }

  /** Right after the message the completion evicts nobody: the message has left it no rival. */
  lemma CompletionEvictsNobody(w: World, i: nat, n: string)
    requires Inv(w) && Registered(w, i) && Proper(n)
    ensures var w' := LoginBegin(w, i, n);
            i < |w'.sess| && Rival(w', i, n) == None && LoginOk(w', i, n).table == w'.table
  {
    var w' := LoginBegin(w, i, n);
    MessageKeeps(w, i, n);
    if Rival(w, i, n).Some? {
      MessageRemoves(w, i, n, Rival(w, i, n).value);
    } else if n in w.nicks && w.nicks[n] != i {
      CloseOthers(w, w.nicks[n]);
    }
    LoginEvictsExactly(w', i, n, i);
  }

  lemma LoginKeeps(w: World, i: nat, n: string, j: nat)
    requires Inv(w) && Registered(w, i) && Registered(w, j) && i != j && Proper(n) && Lookup(w.nicks, n) != Some(j)
    ensures var w' := Login(w, i, n);
            && Inv(w') && Registered(w', i) && Registered(w', j) && w'.sess[i].nickname == n
            && w'.nicks == w.nicks[n := i]
  {
    MessageKeeps(w, i, n);
    MessageRemoves(w, i, n, j);
    LoginKeepsOther(LoginBegin(w, i, n), i, n, j);
  }

  /**
   Index entries outlive the names they stand for. In any reachable state a session
   that logs in again under another nickname is still closed by the next login message
   under its old one, although by then it carries a nickname that nobody else asked for.
   */
  lemma RenamedSessionIsEvicted(w: World, i: nat, first: string, second: string, j: nat)
    requires Inv(w) && Registered(w, i) && Registered(w, j) && i != j
    requires Proper(first) && Proper(second) && first != second
    requires Lookup(w.nicks, first) != Some(j) && Lookup(w.nicks, second) != Some(j)
    ensures var w1 := Login(w, i, first);
            && i < |w1.sess|
            && var w2 := Login(w1, i, second);
            && Registered(w2, i) && w2.sess[i].nickname == second && Registered(w2, j)
            && !Registered(LoginBegin(w2, j, first), i)
  {
    TwoLogins(w, i, first, second, j);
    MessageRemoves(Login(Login(w, i, first), i, second), j, first, i);
  }

  lemma TwoLogins(w: World, i: nat, first: string, second: string, j: nat)
    requires Inv(w) && Registered(w, i) && Registered(w, j) && i != j
    requires Proper(first) && Proper(second) && first != second
    requires Lookup(w.nicks, first) != Some(j) && Lookup(w.nicks, second) != Some(j)
    ensures var w1 := Login(w, i, first);
            && i < |w1.sess|
            && var w2 := Login(w1, i, second);
            && Inv(w2) && Registered(w2, i) && Registered(w2, j) && w2.sess[i].nickname == second
            && Lookup(w2.nicks, first) == Some(i)
  {
    LoginKeeps(w, i, first, j);
    LoginKeeps(Login(w, i, first), i, second, j);
  }

  /**
   The commoner way: a client leaves, its pooled session goes to a stranger, and the next
   login message under the departed client's nickname closes the stranger, who has a new
   id and no nickname. So it goes in any reachable state with no other session free.
   */
  lemma ReusedSessionIsEvicted(w: World, i: nat, n: string, j: nat)
    requires Inv(w) && Registered(w, i) && Registered(w, j) && i != j
    requires w.sess[i].nickname == n && Proper(n) && w.pool.queue == []
    ensures var w1 := CloseSession(w, i);
            var w2 := Accept(w1);
            && i < |w2.sess| && j < |w2.sess|
            && Registered(w2, i) && w2.sess[i].id !in w.given && w2.sess[i].nickname == ""
            && Registered(w2, j) && !Registered(LoginBegin(w2, j, n), i)
  {
    var w1 := CloseSession(w, i);
    CloseKeepsInv(w, i);
    CloseOthers(w, i);
    CloseTable(w, i);
    CloseHistory(w, i);
    var w2 := Accept(w1);
    assert Acquire(w1.pool).1 == Some(i);
    AcceptClean(w1);
    AcceptKeepsInv(w1);
    NextNicks(w1, AcceptStep);
    NextIdIsNew(w1);
    assert Rival(w2, j, n) == Some(i);
    MessageRemoves(w2, j, n, i);
  }

  lemma CloseHistory(w: World, i: nat)
    requires Inv(w) && i < |w.sess|
    ensures CloseSession(w, i).given == w.given
  {
    if Registered(w, i) {
      AfterCloseKeepsPool(w, i);
      CloseEffect(w, i);
    } else {
      IdFreeWhenUnregistered(w, i);
      CloseAgainEffect(w, i);
    }
  }

  // --------------------------------------------- when an eviction is deserved

  /** The step closes the session or hands it out. */
  predicate Ends(w: World, s: Step, h: nat) {
    match s
    case AcceptStep => Acquire(w.pool).1 == Some(h)
    case CloseStep(i) => i == h
    case LoginStep(i, n) =>
      if n == "quit" then i == h else i < |w.sess| && n != "" && i != h && Lookup(w.nicks, n) == Some(h)
    case LoginOkStep(i, n) => Allowed(w, s) && i != h && Lookup(w.nicks, n) == Some(h)
    case _ => false
  }

  /** The step completes a login of the session. */
  predicate Names(w: World, s: Step, h: nat) {
    s.LoginOkStep? && s.i == h && Allowed(w, s)
  }

  lemma EvictNickname(w: World, i: nat, n: string, h: nat)
    requires Inv(w) && h < |w.sess|
    ensures var w' := Evict(w, i, n);
            && |w'.sess| == |w.sess|
            && w'.sess[h].nickname == if i != h && Lookup(w.nicks, n) == Some(h) then "" else w.sess[h].nickname
  {
    if n in w.nicks && w.nicks[n] != i && w.nicks[n] < |w.sess| {
      CloseOthers(w, w.nicks[n]);
    }
  }

  lemma LoginOkNickname(w: World, i: nat, n: string, h: nat)
    requires Inv(w) && Registered(w, i) && n != "" && h < |w.sess|
    ensures var w' := LoginOk(w, i, n);
            && |w'.sess| == |w.sess|
            && w'.sess[h].nickname ==
               if i == h then n else if Lookup(w.nicks, n) == Some(h) then "" else w.sess[h].nickname
  {
    LoginOkSteps(w, i, n);
    var w1 := Evict(w, i, n);
    EvictNickname(w, i, n, h);
    EvictNicks(w, i, n);
    EvictNickname(w1, i, n, h);
    EnterEnds(Evict(w1, i, n), i, n);
  }

  lemma AcceptNickname(w: World, h: nat)
    requires Inv(w) && h < |Accept(w).sess|
    ensures |w.sess| <= |Accept(w).sess|
    ensures if Acquire(w.pool).1 == Some(h) then Accept(w).sess[h].nickname == ""
            else h < |w.sess| && Accept(w).sess[h].nickname == w.sess[h].nickname
  {
    AcceptEffect(w);
    AcceptClean(w);
  }

  lemma LoginBeginNickname(w: World, i: nat, n: string, h: nat)
    requires Inv(w) && i < |w.sess|
    ensures var w' := LoginBegin(w, i, n);
            && |w'.sess| == |w.sess|
            && (h < |w.sess| ==>
                  w'.sess[h].nickname == if Ends(w, LoginStep(i, n), h) then "" else w.sess[h].nickname)
  {
    CloseOthers(w, i);
    EvictLength(w, i, n);
    if h < |w.sess| {
      EvictNickname(w, i, n, h);
    }
  }

  lemma CloseNickname(w: World, i: nat, h: nat)
    requires Inv(w) && i < |w.sess|
    ensures var w' := CloseSession(w, i);
            && |w'.sess| == |w.sess|
            && (h < |w.sess| ==> w'.sess[h].nickname == if i == h then "" else w.sess[h].nickname)
  {
    CloseOthers(w, i);
  }

  /** Time, keepalives and datagrams do not touch nicknames. */
  lemma QuietNickname(w: World, s: Step, h: nat)
    requires s.Tick? || s.AliveStep? || s.UdpStep?
    ensures var w' := Next(w, s);
            |w'.sess| == |w.sess| && (h < |w.sess| ==> w'.sess[h].nickname == w.sess[h].nickname)
  {
    if s.UdpStep? {
      UdpSame(w, s.packet, s.globalOk, s.userOk);
    }
  }

  /** What a step makes of a session's nickname. */
  function NicknameAfter(w: World, s: Step, h: nat): string {
    if Names(w, s, h) then s.nickname
    else if Ends(w, s, h) || h >= |w.sess| then ""
    else w.sess[h].nickname
  }

  lemma NextNickname(w: World, s: Step, h: nat)
    requires Inv(w) && h < |Next(w, s).sess|
    ensures h < |w.sess| || Ends(w, s, h)
    ensures Next(w, s).sess[h].nickname == NicknameAfter(w, s, h)
  {
    if Allowed(w, s) {
      match s
      case AcceptStep => AcceptNickname(w, h);
      case LoginStep(i, n) =>
        if i < |w.sess| {
          LoginBeginNickname(w, i, n, h);
        }
      case LoginOkStep(i, n) =>
        LoginOkLength(w, i, n);
        LoginOkNickname(w, i, n, h);
      case CloseStep(i) =>
        if i < |w.sess| {
          CloseNickname(w, i, h);
        }
      case _ => QuietNickname(w, s, h);
    }
  }

  lemma EvictLength(w: World, i: nat, n: string)
    requires Inv(w)
    ensures |Evict(w, i, n).sess| == |w.sess|
  {
    if n in w.nicks && w.nicks[n] != i && w.nicks[n] < |w.sess| {
      CloseOthers(w, w.nicks[n]);
    }
  }

  lemma LoginOkLength(w: World, i: nat, n: string)
    requires Inv(w) && Registered(w, i) && n != ""
    ensures |LoginOk(w, i, n).sess| == |w.sess|
  {
    LoginOkNickname(w, i, n, i);
  }

  /** The nickname of the session's last completed login, unless it was closed or handed out since. */
  function NameSince(w: World, steps: seq<Step>, h: nat): string {
    if steps == [] then ""
    else
      var prefix, s := steps[..|steps| - 1], steps[|steps| - 1];
      if Names(Run(w, prefix), s, h) then s.nickname
      else if Ends(Run(w, prefix), s, h) then ""
      else NameSince(w, prefix, h)
  }

  /** In every run a session carries the nickname of its own last completed login since its last close or hand-out. */
  lemma {:induction false} NicknameIsOwnLastLogin(c: Config, steps: seq<Step>, h: nat)
    requires h < |Run(Start(c), steps).sess|
    ensures Run(Start(c), steps).sess[h].nickname == NameSince(Start(c), steps, h)
    decreases |steps|
  {
    if steps != [] {
      var prefix, s := steps[..|steps| - 1], steps[|steps| - 1];
      var w := Run(Start(c), prefix);
      Reached(c, prefix);
      NextNickname(w, s, h);
      if !Ends(w, s, h) && !Names(w, s, h) {
        NicknameIsOwnLastLogin(c, prefix, h);
      }
    }
  }

  /** Step m of the run completes a login of the session, closes it or hands it out. */
  predicate Touches(c: Config, steps: seq<Step>, m: nat, h: nat)
    requires m < |steps|
  {
    Names(Run(Start(c), steps[..m]), steps[m], h) || Ends(Run(Start(c), steps[..m]), steps[m], h)
  }

  /** The session completed a login under the nickname, and was not closed, handed out or named again since. */
  ghost predicate Undisturbed(c: Config, steps: seq<Step>, n: string, h: nat) {
    exists k :: 0 <= k < |steps| && NamedAt(c, steps, k, n, h)
  }

  ghost predicate NamedAt(c: Config, steps: seq<Step>, k: nat, n: string, h: nat)
    requires k < |steps|
  {
    && steps[k] == LoginOkStep(h, n) && Names(Run(Start(c), steps[..k]), steps[k], h)
    && forall m | k < m < |steps| :: !Touches(c, steps, m, h)
  }

  lemma TouchesPrefix(c: Config, steps: seq<Step>, m: nat, h: nat)
    requires m + 1 < |steps|
    ensures Touches(c, steps[..|steps| - 1], m, h) <==> Touches(c, steps, m, h)
  {
    assert steps[..|steps| - 1][..m] == steps[..m];
  }

  lemma NamedAtPrefix(c: Config, steps: seq<Step>, k: nat, n: string, h: nat)
    requires k + 1 < |steps|
    ensures NamedAt(c, steps, k, n, h) <==>
            NamedAt(c, steps[..|steps| - 1], k, n, h) && !Touches(c, steps, |steps| - 1, h)
  {
    var prefix := steps[..|steps| - 1];
    assert prefix[..k] == steps[..k];
    forall m | k < m < |prefix|
      ensures Touches(c, prefix, m, h) <==> Touches(c, steps, m, h)
    {
      TouchesPrefix(c, steps, m, h);
    }
    if NamedAt(c, prefix, k, n, h) && !Touches(c, steps, |steps| - 1, h) {
      forall m | k < m < |steps|
        ensures !Touches(c, steps, m, h)
      {
        assert m < |prefix| ==> !Touches(c, prefix, m, h);
      }
    }
    if NamedAt(c, steps, k, n, h) {
      assert !Touches(c, steps, |steps| - 1, h);
    }
  }

  /** Undisturbed up to the last step: named in it, or before it and untouched by it. */
  lemma UndisturbedNext(c: Config, steps: seq<Step>, n: string, h: nat)
    requires steps != []
    ensures var last := |steps| - 1;
            Undisturbed(c, steps, n, h) <==>
            NamedAt(c, steps, last, n, h) || (!Touches(c, steps, last, h) && Undisturbed(c, steps[..last], n, h))
  {
    var last := |steps| - 1;
    if Undisturbed(c, steps, n, h) {
      var k :| 0 <= k < |steps| && NamedAt(c, steps, k, n, h);
      if k < last {
        NamedAtPrefix(c, steps, k, n, h);
      }
    }
    if !Touches(c, steps, last, h) && Undisturbed(c, steps[..last], n, h) {
      var k :| 0 <= k < last && NamedAt(c, steps[..last], k, n, h);
      NamedAtPrefix(c, steps, k, n, h);
    }
  }

  lemma {:induction false} NameSinceExactly(c: Config, steps: seq<Step>, n: string, h: nat)
    requires n != ""
    ensures NameSince(Start(c), steps, h) == n <==> Undisturbed(c, steps, n, h)
    decreases |steps|
  {
    if steps != [] {
      UndisturbedNext(c, steps, n, h);
      NameSinceExactly(c, steps[..|steps| - 1], n, h);
    }
  }

  /** A login message that goes on, or a completion. */
  predicate IsLogin(w: World, s: Step) {
    || (s.LoginStep? && s.i < |w.sess| && Proper(s.nickname))
    || (s.LoginOkStep? && Allowed(w, s))
  }

  /** Whoever the step takes out of the table carries the nickname. */
  ghost predicate RemovesOnlyCarriers(w: World, s: Step, n: string) {
    var w' := Next(w, s);
    forall j: nat | Registered(w, j) && !Registered(w', j) :: w.sess[j].nickname == n
  }

  lemma RivalIsCarrier(w: World, s: Step)
    requires Inv(w) && IsLogin(w, s)
    ensures RemovesOnlyCarriers(w, s, s.nickname) <==>
            (Rival(w, s.i, s.nickname).Some? ==> w.sess[Rival(w, s.i, s.nickname).value].nickname == s.nickname)
  {
    forall j: nat | Registered(w, j)
      ensures !Registered(Next(w, s), j) <==> Rival(w, s.i, s.nickname) == Some(j)
    {
      if s.LoginStep? {
        MessageRemoves(w, s.i, s.nickname, j);
      } else {
        LoginRemoves(w, s.i, s.nickname, j);
      }
    }
  }

  /**
   When an eviction is deserved. A login message under a nickname, and likewise its
   completion, takes out of the table only carriers of the nickname if and only if the
   last to log in under it is nobody, or the one logging in, or is no longer registered,
   or has been left alone since: not closed, not handed out to another client, not logged
   in again.
   */
  lemma LoginRemovesCarriersExactly(c: Config, steps: seq<Step>, s: Step)
    requires IsLogin(Run(Start(c), steps), s)
    ensures var w := Run(Start(c), steps);
            RemovesOnlyCarriers(w, s, s.nickname) <==>
            match LastLogin(Start(c), steps, s.nickname)
            case None => true
            case Some(h) => h == s.i || !Registered(w, h) || Undisturbed(c, steps, s.nickname, h)
  {
    var w := Run(Start(c), steps);
    Reached(c, steps);
    IndexNamesLastLogin(c, steps, s.nickname);
    RivalIsCarrier(w, s);
    var last := LastLogin(Start(c), steps, s.nickname);
    if last.Some? && Registered(w, last.value) {
      NicknameIsOwnLastLogin(c, steps, last.value);
      NameSinceExactly(c, steps, s.nickname, last.value);
    }
  }
}
