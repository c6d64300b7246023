/**
 Matching of database responses to requests. A request gets an id on the calling
 thread, is registered and sent on the router's strand, is sent again whenever its
 timer fires and retries are left, and leaves the table with a reply or with its
 last timeout. Senders do not throw here.
 */
module Router {
  import opened Wrappers
  import opened RequestIds

  const TWO_64: nat := 0x1_0000_0000_0000_0000

  /** What a caller asks for; the two flags say which callbacks it gave, in callback mode. */
  datatype Request = Request(
    sessionId: int, secure: bool, maxRetries: int, useCallbacks: bool, hasOnOk: bool, hasOnError: bool)

  datatype Pending = Pending(request: Request, retries: nat)

  datatype Event =
    | Registered(id: string, request: Request)
    | Sent(id: string)
    | Replied(id: string, success: bool)
    | TimedOut(id: string)
    | Called(id: string, ok: bool)   // a callback ran

  datatype Router = Router(
    pid: nat,
    plainSender: bool, secureSender: bool,   // whether the send functions are set
    seqNo: nat,                              // the 64-bit id counter
    posted: map<string, Request>,            // made, waiting for the strand
    pending: map<string, Pending>,
    sent: nat, ok: nat, timedOut: nat, retried: nat, failed: nat,
    issued: nat, trace: seq<Event>)          // history: ids made, and what happened

  function NewRouter(pid: nat, plainSender: bool, secureSender: bool): Router {
    Router(pid, plainSender, secureSender, 0, map[], map[], 0, 0, 0, 0, 0, 0, [])
  }

  function Log(r: Router, e: Event): Router {
    r.(trace := r.trace + [e])
  }

  function Issue(r: Router, q: Request): Router {
    var n := (r.seqNo + 1) % TWO_64;
    r.(seqNo := n, issued := r.issued + 1, posted := r.posted[MakeReqId(q.sessionId, r.pid, n) := q])
  }

  function SendNow(r: Router, id: string): Router {
    if id !in r.pending then r else Log(r.(sent := r.sent + 1), Sent(id))
  }

  function CanSend(r: Router, q: Request): bool {
    if q.secure then r.secureSender else r.plainSender
  }

  /** The strand runs a posted request: refuse it, or put it in the table and send it. */
  function RunPosted(r: Router, id: string): Router
    requires id in r.posted
  {
    var q := r.posted[id];
    var r1 := r.(posted := r.posted - {id});
    if q.useCallbacks && !CanSend(r, q) then
      if q.hasOnError then Log(r1, Called(id, false)) else r1
    else
      var r2 := if id in r.pending then r1
                else Log(r1.(pending := r.pending[id := Pending(q, 0)]), Registered(id, q));
      SendNow(r2, id)
  }

  function CallsFor(q: Request, success: bool): nat {
    if q.useCallbacks && (if success then q.hasOnOk else q.hasOnError) then 1 else 0
  }

  function Reply(r: Router, id: string, success: bool): Router {
    if id !in r.pending then r
    else
      var n := CallsFor(r.pending[id].request, success);
      var r1 := r.(pending := r.pending - {id},
                   ok := r.ok + if success then 1 else 0,
                   failed := r.failed + if success then 0 else 1);
      var r2 := Log(r1, Replied(id, success));
      if n == 1 then Log(r2, Called(id, success)) else r2
  }

  function Fire(r: Router, id: string): Router {
    if id !in r.pending then r
    else
      var p := r.pending[id];
      if p.retries < p.request.maxRetries then
        SendNow(r.(pending := r.pending[id := p.(retries := p.retries + 1)], retried := r.retried + 1), id)
      else
        Log(r.(pending := r.pending - {id}, timedOut := r.timedOut + 1, failed := r.failed + 1), TimedOut(id))
  }

  predicate IsDbResponse(kind: string) {
    kind == "db_query_result" || kind == "db_error" || kind == "dbmw_error" || kind == "db_error_msg"
  }

  /** A message from the middleware: only typed responses that carry an id concern the table. */
  function Handle(r: Router, kind: string, reqId: string): Router {
    if IsDbResponse(kind) && reqId != "" then Reply(r, reqId, kind == "db_query_result") else r
  }

  class DBmwRouter {
    const pid: nat
    const plainSender: bool
    const secureSender: bool
    var reqSeq: nat
    var posted: map<string, Request>
    var pending: map<string, Pending>
    var sentCount: nat
    var okCount: nat
    var timeoutCount: nat
    var retryCount: nat
    var failCount: nat
    ghost var issued: nat
    ghost var trace: seq<Event>

    ghost function Model(): Router
      reads this
    {
      Router(pid, plainSender, secureSender, reqSeq, posted, pending,
             sentCount, okCount, timeoutCount, retryCount, failCount, issued, trace)
    }

    constructor (pid: nat, plainSender: bool, secureSender: bool)
      ensures Model() == NewRouter(pid, plainSender, secureSender)
    {
      this.pid, this.plainSender, this.secureSender := pid, plainSender, secureSender;
      reqSeq, posted, pending := 0, map[], map[];
      sentCount, okCount, timeoutCount, retryCount, failCount := 0, 0, 0, 0, 0;
      issued, trace := 0, [];
    }

    method MakeId(sessionId: int) returns (id: string)
      modifies this`reqSeq, this`issued
      ensures reqSeq == (old(reqSeq) + 1) % TWO_64 && issued == old(issued) + 1
      ensures id == MakeReqId(sessionId, pid, reqSeq)
    {
      reqSeq := (reqSeq + 1) % TWO_64;
      issued := issued + 1;
      if sessionId >= 0 {
        return Decimal(sessionId) + "_" + Decimal(reqSeq);
      }
      return "srv-" + Decimal(pid) + "-" + Decimal(reqSeq);
    }

    /** The part of send_request and send_request_cb that runs on the calling thread. */
    method SendRequest(q: Request) returns (id: string)
      modifies this
      ensures Model() == Issue(old(Model()), q)
      ensures id == MakeReqId(q.sessionId, pid, reqSeq)
    {
      id := MakeId(q.sessionId);
      posted := posted[id := q];
    }

    /** The part that runs on the strand. */
    method OnStrand(id: string)
      requires id in posted
      modifies this
      ensures Model() == RunPosted(old(Model()), id)
    {
      var q := posted[id];
      posted := posted - {id};
      if q.useCallbacks {
        if (!q.secure && !plainSender) || (q.secure && !secureSender) {
          if q.hasOnError {
            trace := trace + [Called(id, false)];
          }
          return;
        }
      }
      if id !in pending {
        pending := pending[id := Pending(q, 0)];
        trace := trace + [Registered(id, q)];
      }
      SendNowLocked(id);
    }

    method SendNowLocked(id: string)
      modifies this`sentCount, this`trace
      ensures Model() == SendNow(old(Model()), id)
    {
      if id !in pending {
        return;
      }
      sentCount := sentCount + 1;
      trace := trace + [Sent(id)];
    }

    /** A timer has expired and its handler runs on the strand, in time or late. */
    method OnTimer(id: string)
      modifies this
      ensures Model() == Fire(old(Model()), id)
    {
      if id !in pending {
        return;
      }
      var p := pending[id];
      if p.retries < p.request.maxRetries {
        pending := pending[id := p.(retries := p.retries + 1)];
        retryCount := retryCount + 1;
        SendNowLocked(id);
      } else {
        timeoutCount := timeoutCount + 1;
        FulfillAndEraseLocked(id, false);
        trace := trace + [TimedOut(id)];
      }
    }

    method FulfillAndEraseLocked(id: string, success: bool)
      modifies this`pending, this`okCount, this`failCount
      ensures pending == old(pending) - {id}
      ensures okCount == old(okCount) + if id in old(pending) && success then 1 else 0
      ensures failCount == old(failCount) + if id in old(pending) && !success then 1 else 0
    {
      if id !in pending {
        assert pending - {id} == pending;
        return;
      }
      pending := pending - {id};
      if success {
        okCount := okCount + 1;
      } else {
        failCount := failCount + 1;
      }
    }

    method HandleJson(kind: string, reqId: string)
      modifies this
      ensures Model() == Handle(old(Model()), kind, reqId)
    {
      if kind == "db_query_result" || kind == "db_error" || kind == "dbmw_error" || kind == "db_error_msg" {
        if reqId != "" {
          if reqId !in pending {
            return;
          }
          var success := kind == "db_query_result";
          var p := pending[reqId];
          FulfillAndEraseLocked(reqId, success);
          trace := trace + [Replied(reqId, success)];
          if p.request.useCallbacks {
            if success && p.request.hasOnOk {
              trace := trace + [Called(reqId, true)];
            }
            if !success && p.request.hasOnError {
              trace := trace + [Called(reqId, false)];
            }
          }
          return;
        }
      }
    }
  }

  // ------------------------------------------------------------------- runs

  datatype Step =
    | IssueStep(request: Request)
    | StrandStep(id: string)
    | MessageStep(kind: string, id: string)
    | TimerStep(id: string)

  function Next(r: Router, s: Step): Router {
    match s
    case IssueStep(q) => Issue(r, q)
    case StrandStep(id) => if id in r.posted then RunPosted(r, id) else r
    case MessageStep(kind, id) => Handle(r, kind, id)
    case TimerStep(id) => Fire(r, id)
  }

  function Run(r: Router, steps: seq<Step>): Router {
    if steps == [] then r else Next(Run(r, steps[..|steps| - 1]), steps[|steps| - 1])
  }

  /** What a trace says, of one id or of all of them; the request is the one registered last. */
  datatype Tally = Tally(
    registered: nat, sent: nat, oks: nat, errors: nat, timeouts: nat, calls: nat, request: Option<Request>)

  const ZERO := Tally(0, 0, 0, 0, 0, 0, None)

  function Transmissions(maxRetries: int): nat {
    if maxRetries < 0 then 1 else maxRetries + 1
  }

  function Tallied(t: Tally, e: Event): Tally {
    match e
    case Registered(_, q) => t.(registered := t.registered + 1, request := Some(q))
    case Sent(_) => t.(sent := t.sent + 1)
    case Replied(_, s) => t.(oks := t.oks + (if s then 1 else 0), errors := t.errors + (if s then 0 else 1))
    case TimedOut(_) => t.(timeouts := t.timeouts + 1)
    case Called(_, _) => t.(calls := t.calls + 1)
  }

  function TallyOf(trace: seq<Event>, id: string): Tally {
    if trace == [] then ZERO
    else
      var e := trace[|trace| - 1];
      var t := TallyOf(trace[..|trace| - 1], id);
      if e.id == id then Tallied(t, e) else t
  }

  function TallyAll(trace: seq<Event>): Tally {
    if trace == [] then ZERO else Tallied(TallyAll(trace[..|trace| - 1]), trace[|trace| - 1])
  }

  /** The callbacks that the replies counted lead to: none without a reply. */
  function Owed(q: Request, t: Tally): nat {
    if t.oks > 0 then CallsFor(q, true) else if t.errors > 0 then CallsFor(q, false) else 0
  }

  /** A request that has left the table, or that was refused at once. */
  predicate Settled(t: Tally) {
    if t.registered == 0 then t == ZERO || t == ZERO.(calls := 1)
    else
      && t.registered == 1 && t.request.Some?
      && t.oks + t.errors + t.timeouts == 1
      && t.calls == Owed(t.request.value, t)
      && (t.timeouts == 1 ==> t.sent == Transmissions(t.request.value.maxRetries))
  }

  /** What is known of an id from where it is and what its tally says. */
  predicate Good(q: Option<Request>, p: Option<Pending>, seqNo: nat, issued: nat, t: Tally) {
    && (t != ZERO || q.Some? || p.Some? ==> seqNo <= issued)
    && (q.Some? ==> t == ZERO && p.None?)
    && (p.Some? ==>
          && t == ZERO.(registered := 1, sent := p.value.retries + 1, request := Some(p.value.request))
          && p.value.retries < Transmissions(p.value.request.maxRetries))
    && (q.None? && p.None? ==> Settled(t))
  }

  predicate PerId(r: Router, id: string) {
    Good(Lookup(r.posted, id), Lookup(r.pending, id), SequenceOf(id), r.issued, TallyOf(r.trace, id))
  }

  predicate Metrics(r: Router, t: Tally) {
    && t.registered == |r.pending| + r.ok + r.failed
    && r.sent == t.sent == t.registered + r.retried
    && r.ok == t.oks
    && r.failed == t.errors + t.timeouts
    && r.timedOut == t.timeouts
  }

  ghost predicate Inv(r: Router) {
    && r.seqNo == r.issued
    && (forall id :: PerId(r, id))
    && Metrics(r, TallyAll(r.trace))
  }

  /** A step concerns one id; what is known of the others stays. */
  lemma FrameOthers(r: Router, r': Router, id: string)
    requires forall j | j != id :: TallyOf(r'.trace, j) == TallyOf(r.trace, j)
    requires forall j | j != id :: Lookup(r'.posted, j) == Lookup(r.posted, j)
    requires forall j | j != id :: Lookup(r'.pending, j) == Lookup(r.pending, j)
    requires r.issued <= r'.issued
    ensures forall j | j != id :: PerId(r, j) ==> PerId(r', j)
  {
  }

  lemma IssueKeepsInv(r: Router, q: Request)
    requires Inv(r) && r.issued + 1 < TWO_64
    ensures Inv(Issue(r, q))
  {
    var r' := Issue(r, q);
    var id := MakeReqId(q.sessionId, r.pid, r'.seqNo);
    SequenceReadBack(q.sessionId, r.pid, r'.seqNo);
    assert PerId(r, id);
    FrameOthers(r, r', id);
  }

  /** The trace grows by events of one id. */
  lemma LogOne(r: Router, id: string, e: Event)
    requires e.id == id
    ensures forall j | j != id :: TallyOf(Log(r, e).trace, j) == TallyOf(r.trace, j)
    ensures TallyOf(Log(r, e).trace, id) == Tallied(TallyOf(r.trace, id), e)
    ensures TallyAll(Log(r, e).trace) == Tallied(TallyAll(r.trace), e)
  {
  }

  lemma DroppedKeepsInv(r: Router, id: string)
    requires Inv(r) && id in r.posted
    ensures Inv(r.(posted := r.posted - {id}))
    ensures PerId(r, id) && TallyOf(r.trace, id) == ZERO
  {
    var r1 := r.(posted := r.posted - {id});
    assert PerId(r, id);
    assert Lookup(r1.posted, id) == None;
    FrameOthers(r, r1, id);
    assert PerId(r1, id);
  }

  /** A callback for an id that is in neither table and has no history. */
  lemma RefusedKeepsInv(r: Router, id: string)
    requires Inv(r) && id !in r.posted && id !in r.pending && TallyOf(r.trace, id) == ZERO
    requires SequenceOf(id) <= r.issued
    ensures Inv(Log(r, Called(id, false)))
  {
    var r' := Log(r, Called(id, false));
    LogOne(r, id, Called(id, false));
    FrameOthers(r, r', id);
    assert PerId(r', id);
  }

  lemma RegistrationLogs(r: Router, id: string)
    requires id in r.posted && id !in r.pending
    requires !(r.posted[id].useCallbacks && !CanSend(r, r.posted[id]))
    ensures var r' := RunPosted(r, id);
            && (forall j | j != id :: TallyOf(r'.trace, j) == TallyOf(r.trace, j))
            && TallyOf(r'.trace, id) == Tallied(Tallied(TallyOf(r.trace, id), Registered(id, r.posted[id])), Sent(id))
            && TallyAll(r'.trace) == Tallied(Tallied(TallyAll(r.trace), Registered(id, r.posted[id])), Sent(id))
  {
  }

  lemma RegistrationPerId(r: Router, id: string)
    requires PerId(r, id) && id in r.posted && id !in r.pending
    requires !(r.posted[id].useCallbacks && !CanSend(r, r.posted[id]))
    ensures PerId(RunPosted(r, id), id)
    ensures forall j | j != id :: PerId(r, j) ==> PerId(RunPosted(r, id), j)
  {
    var r' := RunPosted(r, id);
    RegistrationLogs(r, id);
    FrameOthers(r, r', id);
    assert Lookup(r'.posted, id) == None && Lookup(r'.pending, id) == Some(Pending(r.posted[id], 0));
  }

  lemma RegistrationMetrics(r: Router, id: string)
    requires id in r.posted && id !in r.pending && Metrics(r, TallyAll(r.trace))
    requires !(r.posted[id].useCallbacks && !CanSend(r, r.posted[id]))
    ensures Metrics(RunPosted(r, id), TallyAll(RunPosted(r, id).trace))
  {
  }

  lemma RegistrationKeepsInv(r: Router, id: string)
    requires Inv(r) && id in r.posted
    requires !(r.posted[id].useCallbacks && !CanSend(r, r.posted[id]))
    ensures Inv(RunPosted(r, id))
  {
    assert PerId(r, id);
    RegistrationPerId(r, id);
    RegistrationMetrics(r, id);
  }

  /** The two things a reply logs, together. */
  function ReplyTally(t: Tally, id: string, success: bool, n: nat): Tally {
    var t1 := Tallied(t, Replied(id, success));
    if n == 1 then Tallied(t1, Called(id, success)) else t1
  }

  lemma ReplyLogs(r: Router, id: string, success: bool)
    requires id in r.pending
    ensures var r', n := Reply(r, id, success), CallsFor(r.pending[id].request, success);
            && (forall j | j != id :: TallyOf(r'.trace, j) == TallyOf(r.trace, j))
            && TallyOf(r'.trace, id) == ReplyTally(TallyOf(r.trace, id), id, success, n)
            && TallyAll(r'.trace) == ReplyTally(TallyAll(r.trace), id, success, n)
  {
    var n := CallsFor(r.pending[id].request, success);
    LogOne(r, id, Replied(id, success));
    var r2 := Log(r, Replied(id, success));
    if n == 1 {
      LogOne(r2, id, Called(id, success));
      assert Reply(r, id, success).trace == Log(r2, Called(id, success)).trace;
    } else {
      assert Reply(r, id, success).trace == r2.trace;
    }
  }

  lemma GoodReply(p: Pending, seqNo: nat, issued: nat, t: Tally, id: string, success: bool)
    requires Good(None, Some(p), seqNo, issued, t)
    ensures Good(None, None, seqNo, issued, ReplyTally(t, id, success, CallsFor(p.request, success)))
  {
  }

  /** A reply touches the table, two counters and the trace. */
  lemma ReplyFields(r: Router, id: string, success: bool)
    requires id in r.pending
    ensures var r' := Reply(r, id, success);
            && r' == r.(pending := r.pending - {id}, trace := r'.trace,
                        ok := r.ok + if success then 1 else 0, failed := r.failed + if success then 0 else 1)
            && |r'.pending| == |r.pending| - 1
  {
  }

  lemma ReplyMetrics(r: Router, t: Tally, id: string, success: bool, n: nat)
    requires id in r.pending && Metrics(r, t)
    ensures Metrics(Reply(r, id, success), ReplyTally(t, id, success, n))
  {
    ReplyFields(r, id, success);
    assert ReplyTally(t, id, success, n)
           == t.(oks := t.oks + (if success then 1 else 0), errors := t.errors + (if success then 0 else 1),
                 calls := ReplyTally(t, id, success, n).calls);
  }

  lemma ReplyPerId(r: Router, id: string, success: bool)
    requires PerId(r, id) && id in r.pending
    ensures PerId(Reply(r, id, success), id)
    ensures forall j | j != id :: PerId(r, j) ==> PerId(Reply(r, id, success), j)
  {
    var r' := Reply(r, id, success);
    ReplyFields(r, id, success);
    ReplyLogs(r, id, success);
    FrameOthers(r, r', id);
    assert Lookup(r.posted, id) == None && Lookup(r'.posted, id) == None && Lookup(r'.pending, id) == None;
    GoodReply(r.pending[id], SequenceOf(id), r.issued, TallyOf(r.trace, id), id, success);
  }

  lemma ReplyKeepsInv(r: Router, id: string, success: bool)
    requires Inv(r)
    ensures Inv(Reply(r, id, success))
  {
    if id in r.pending {
      assert PerId(r, id);
      ReplyPerId(r, id, success);
      ReplyLogs(r, id, success);
      ReplyMetrics(r, TallyAll(r.trace), id, success, CallsFor(r.pending[id].request, success));
    }
  }

  lemma RetryKeepsInv(r: Router, id: string)
    requires Inv(r) && id in r.pending && r.pending[id].retries < r.pending[id].request.maxRetries
    ensures Inv(Fire(r, id))
  {
    var p, r' := r.pending[id], Fire(r, id);
    assert PerId(r, id);
    LogOne(r, id, Sent(id));
    assert r'.trace == Log(r, Sent(id)).trace;
    FrameOthers(r, r', id);
    assert Lookup(r'.pending, id) == Some(p.(retries := p.retries + 1));
    assert PerId(r', id);
  }

  lemma GiveUpKeepsInv(r: Router, id: string)
    requires Inv(r) && id in r.pending && r.pending[id].retries >= r.pending[id].request.maxRetries
    ensures Inv(Fire(r, id))
  {
    var p, r' := r.pending[id], Fire(r, id);
    assert PerId(r, id);
    LogOne(r, id, TimedOut(id));
    assert r'.trace == Log(r, TimedOut(id)).trace;
    FrameOthers(r, r', id);
    assert Lookup(r'.pending, id) == None;
    assert PerId(r', id);
  }

  lemma RunPostedKeepsInv(r: Router, id: string)
    requires Inv(r) && id in r.posted
    ensures Inv(RunPosted(r, id))
  {
    var q := r.posted[id];
    if q.useCallbacks && !CanSend(r, q) {
      DroppedKeepsInv(r, id);
      if q.hasOnError {
        RefusedKeepsInv(r.(posted := r.posted - {id}), id);
      }
    } else {
      RegistrationKeepsInv(r, id);
    }
  }

  lemma FireKeepsInv(r: Router, id: string)
    requires Inv(r)
    ensures Inv(Fire(r, id))
  {
    if id in r.pending {
      if r.pending[id].retries < r.pending[id].request.maxRetries {
        RetryKeepsInv(r, id);
      } else {
        GiveUpKeepsInv(r, id);
      }
    }
  }

  lemma NextKeepsInv(r: Router, s: Step)
    requires Inv(r) && Next(r, s).issued < TWO_64
    ensures Inv(Next(r, s))
  {
    match s
    case IssueStep(q) => IssueKeepsInv(r, q);
    case StrandStep(id) => if id in r.posted { RunPostedKeepsInv(r, id); }
    case MessageStep(kind, id) => ReplyKeepsInv(r, id, kind == "db_query_result");
    case TimerStep(id) => FireKeepsInv(r, id);
  }

  lemma {:induction false} RunKeepsInv(pid: nat, plain: bool, secure: bool, steps: seq<Step>)
    requires Run(NewRouter(pid, plain, secure), steps).issued < TWO_64
    ensures Inv(Run(NewRouter(pid, plain, secure), steps))
    decreases |steps|
  {
    if steps != [] {
      var r := Run(NewRouter(pid, plain, secure), steps[..|steps| - 1]);
      IssuedGrows(r, steps[|steps| - 1]);
      RunKeepsInv(pid, plain, secure, steps[..|steps| - 1]);
      NextKeepsInv(r, steps[|steps| - 1]);
    }
  }

  lemma IssuedGrows(r: Router, s: Step)
    ensures r.issued <= Next(r, s).issued
  {
  }

  // ------------------------------------------------------------ main results

  /**
   After every step of every run: requests registered are those pending, those
   answered well and those failed; transmissions are registrations plus retries;
   timeouts are among the failures; and the counters are what happened.
   */
  lemma Conservation(pid: nat, plain: bool, secure: bool, steps: seq<Step>)
    requires Run(NewRouter(pid, plain, secure), steps).issued < TWO_64
    ensures var r := Run(NewRouter(pid, plain, secure), steps);
            var t := TallyAll(r.trace);
            && t.registered == |r.pending| + r.ok + r.failed
            && r.sent == t.sent == t.registered + r.retried
            && r.timedOut == t.timeouts && r.timedOut <= r.failed
            && r.ok == t.oks && r.failed == t.errors + t.timeouts
  {
    RunKeepsInv(pid, plain, secure, steps);
  }

  /**
   Every id is registered at most once, completes at most once, and runs at most
   one callback; once it has completed, replies and timer firings for it change
   nothing.
   */
  lemma AtMostOnce(pid: nat, plain: bool, secure: bool, steps: seq<Step>, id: string)
    requires Run(NewRouter(pid, plain, secure), steps).issued < TWO_64
    ensures var r := Run(NewRouter(pid, plain, secure), steps);
            var t := TallyOf(r.trace, id);
            && t.registered <= 1 && t.oks + t.errors + t.timeouts <= t.registered && t.calls <= 1
            && (t.oks + t.errors + t.timeouts == 1 || t.calls == 1 ==>
                  && (forall kind :: Next(r, MessageStep(kind, id)) == r)
                  && Next(r, TimerStep(id)) == r
                  && Next(r, StrandStep(id)) == r)
  {
    RunKeepsInv(pid, plain, secure, steps);
    assert PerId(Run(NewRouter(pid, plain, secure), steps), id);
  }

  /** An event of a trace is counted; a registration that is the only one of its id gives the request. */
  lemma {:induction false} EventCounted(trace: seq<Event>, k: nat)
    requires k < |trace|
    ensures var e := trace[k];
            var t := TallyOf(trace, e.id);
            && (e.Registered? ==> t.registered >= 1 && (t.registered == 1 ==> t.request == Some(e.request)))
            && (e.TimedOut? ==> t.timeouts >= 1)
            && (e.Replied? ==> (if e.success then t.oks else t.errors) >= 1)
    decreases |trace|
  {
    var n := |trace| - 1;
    if k < n {
      EventCounted(trace[..n], k);
    }
  }

  /** What is counted is in the trace. */
  lemma {:induction false} ReplyInTrace(trace: seq<Event>, id: string) returns (k: nat)
    requires TallyOf(trace, id).oks + TallyOf(trace, id).errors >= 1
    ensures k < |trace| && trace[k].Replied? && trace[k].id == id
    decreases |trace|
  {
    k := |trace| - 1;
    if !(trace[k].Replied? && trace[k].id == id) {
      k := ReplyInTrace(trace[..k], id);
    }
  }

  /** A request that was never answered was transmitted once and then once per retry it was given. */
  lemma UnansweredTransmissions(pid: nat, plain: bool, secure: bool, steps: seq<Step>, j: nat, k: nat)
    requires Run(NewRouter(pid, plain, secure), steps).issued < TWO_64
    requires var tr := Run(NewRouter(pid, plain, secure), steps).trace;
             j < |tr| && k < |tr| && tr[j].Registered? && tr[k] == TimedOut(tr[j].id)
    ensures var r := Run(NewRouter(pid, plain, secure), steps);
            var e := r.trace[j];
            && TallyOf(r.trace, e.id).sent == Transmissions(e.request.maxRetries)
            && TallyOf(r.trace, e.id).calls == 0
            && e.id !in r.pending
  {
    var r := Run(NewRouter(pid, plain, secure), steps);
    RunKeepsInv(pid, plain, secure, steps);
    assert PerId(r, r.trace[j].id);
    EventCounted(r.trace, j);
    EventCounted(r.trace, k);
  }

  /** A registered request runs the callback it was given for the outcome of its reply, and nothing else. */
  lemma CallbacksFollowTheReply(pid: nat, plain: bool, secure: bool, steps: seq<Step>, j: nat)
    requires Run(NewRouter(pid, plain, secure), steps).issued < TWO_64
    requires var tr := Run(NewRouter(pid, plain, secure), steps).trace; j < |tr| && tr[j].Registered?
    ensures var tr := Run(NewRouter(pid, plain, secure), steps).trace;
            var q, id := tr[j].request, tr[j].id;
            && (forall k | 0 <= k < |tr| && tr[k].Replied? && tr[k].id == id ::
                  TallyOf(tr, id).calls == CallsFor(q, tr[k].success))
            && ((forall k | 0 <= k < |tr| && tr[k].id == id :: !tr[k].Replied?) ==> TallyOf(tr, id).calls == 0)
  {
    var r := Run(NewRouter(pid, plain, secure), steps);
    var id := r.trace[j].id;
    RunKeepsInv(pid, plain, secure, steps);
    assert PerId(r, id);
    EventCounted(r.trace, j);
    forall k | 0 <= k < |r.trace| && r.trace[k].Replied? && r.trace[k].id == id
      ensures TallyOf(r.trace, id).calls == CallsFor(r.trace[j].request, r.trace[k].success)
    {
      EventCounted(r.trace, k);
    }
    if TallyOf(r.trace, id).oks + TallyOf(r.trace, id).errors >= 1 {
      var k := ReplyInTrace(r.trace, id);
    }
  }

  /**
   A request with a callback for either outcome does not always get one: once it is
   registered it gets exactly one if it completes with a reply, and none otherwise.
   */
  lemma CallbackExactlyOnReply(pid: nat, plain: bool, secure: bool, steps: seq<Step>, j: nat)
    requires Run(NewRouter(pid, plain, secure), steps).issued < TWO_64
    requires var tr := Run(NewRouter(pid, plain, secure), steps).trace;
             && j < |tr| && tr[j].Registered?
             && tr[j].request.useCallbacks && tr[j].request.hasOnOk && tr[j].request.hasOnError
    ensures var tr := Run(NewRouter(pid, plain, secure), steps).trace;
            var t := TallyOf(tr, tr[j].id);
            && t.calls <= 1
            && (t.calls == 1 <==> exists k :: 0 <= k < |tr| && tr[k].Replied? && tr[k].id == tr[j].id)
  {
    CallbacksFollowTheReply(pid, plain, secure, steps, j);
  }

  /** The first request of a router, issued and run on the strand. */
  lemma FirstRequest(pid: nat, q: Request)
    requires q.sessionId == -1
    ensures var id := MakeReqId(-1, pid, 1);
            var r0 := NewRouter(pid, true, true);
            Next(Next(r0, IssueStep(q)), StrandStep(id))
            == r0.(seqNo := 1, issued := 1, pending := map[id := Pending(q, 0)], sent := 1,
                   trace := [Registered(id, q), Sent(id)])
  {
    var id := MakeReqId(-1, pid, 1);
    var r1 := Issue(NewRouter(pid, true, true), q);
    assert r1.posted == map[id := q];
    assert r1.posted - {id} == map[];
    assert [] + [Registered(id, q)] + [Sent(id)] == [Registered(id, q), Sent(id)];
  }

  lemma ThreeSteps(r: Router, a: Step, b: Step, c: Step)
    ensures Run(r, [a, b, c]) == Next(Next(Next(r, a), b), c)
  {
    RunAfter(r, [], a);
    RunAfter(r, [a], b);
    RunAfter(r, [a, b], c);
    assert [] + [a] == [a] && [a] + [b] == [a, b] && [a, b] + [c] == [a, b, c];
  }

  /** An input for it: with both callbacks and no retries, the first timer expiry ends the request and runs neither. */
  lemma TimeoutRunsNoCallback(pid: nat)
    ensures var q := Request(-1, false, 0, true, true, true);
            var id := MakeReqId(-1, pid, 1);
            var r := Run(NewRouter(pid, true, true), [IssueStep(q), StrandStep(id), TimerStep(id)]);
            && r.trace == [Registered(id, q), Sent(id), TimedOut(id)]
            && TallyOf(r.trace, id).calls == 0 && r.pending == map[] && r.failed == r.timedOut == 1
  {
    var q, id := Request(-1, false, 0, true, true, true), MakeReqId(-1, pid, 1);
    ThreeSteps(NewRouter(pid, true, true), IssueStep(q), StrandStep(id), TimerStep(id));
    FirstRequest(pid, q);
    NoCalls([Registered(id, q), Sent(id), TimedOut(id)], id);
  }

  lemma {:induction false} NoCalls(trace: seq<Event>, id: string)
    requires forall k | 0 <= k < |trace| :: !trace[k].Called?
    ensures TallyOf(trace, id).calls == 0
    decreases |trace|
  {
    if trace != [] {
      NoCalls(trace[..|trace| - 1], id);
    }
  }

  lemma RunAfter(r: Router, steps: seq<Step>, s: Step)
    ensures Run(r, steps + [s]) == Next(Run(r, steps), s)
  {
    assert (steps + [s])[..|steps|] == steps;
  }

  // ------------------------------------------- which message, and which sender

  /**
   What a message does to the request that it names, told from its kind: only
   "db_query_result" is a success, the three error kinds are failures, and a message of any
   other kind, or without an id, or for a request that is gone, changes nothing.
   */
  lemma MessageOutcome(r: Router, kind: string, id: string)
    ensures var r' := Next(r, MessageStep(kind, id));
            if id == "" || id !in r.pending then r' == r
            else
              var q := r.pending[id].request;
              if kind == "db_query_result" then
                r' == r.(pending := r.pending - {id}, ok := r.ok + 1,
                         trace := r.trace + [Replied(id, true)]
                                  + if q.useCallbacks && q.hasOnOk then [Called(id, true)] else [])
              else if kind == "db_error" || kind == "dbmw_error" || kind == "db_error_msg" then
                r' == r.(pending := r.pending - {id}, failed := r.failed + 1,
                         trace := r.trace + [Replied(id, false)]
                                  + if q.useCallbacks && q.hasOnError then [Called(id, false)] else [])
              else r' == r
  {
    if id != "" && id in r.pending && kind == "db_query_result" {
      assert r.trace + [Replied(id, true)] + [] == r.trace + [Replied(id, true)];
    } else if id != "" && id in r.pending {
      assert r.trace + [Replied(id, false)] + [] == r.trace + [Replied(id, false)];
    }
  }

  /** The step is a message that answers the pending request as the flag says. */
  predicate Answers(r: Router, s: Step, id: string, success: bool) {
    && s.MessageStep? && s.id == id && id in r.pending
    && if success then s.kind == "db_query_result"
       else s.kind == "db_error" || s.kind == "dbmw_error" || s.kind == "db_error_msg"
  }

  /** The step is the strand turning down a request in callback mode for which no sender is set. */
  predicate TurnsDown(r: Router, s: Step, id: string) {
    && s.StrandStep? && s.id == id && id in r.posted
    && r.posted[id].useCallbacks && r.posted[id].hasOnError
    && !(if r.posted[id].secure then r.secureSender else r.plainSender)
  }

  /** Where an event at place k of the trace can come from, if step s is the one that wrote it. */
  predicate Explained(r: Router, s: Step, trace: seq<Event>, k: nat)
    requires k < |trace|
  {
    match trace[k]
    case Replied(id, success) => Answers(r, s, id, success) && k == |r.trace|
    case Called(id, ok) =>
      || (k > 0 && k - 1 == |r.trace| && trace[k - 1] == Replied(id, ok) && Answers(r, s, id, ok))
      || (!ok && k == |r.trace| && TurnsDown(r, s, id))
    case Registered(id, q) =>
      s == StrandStep(id) && id in r.posted && r.posted[id] == q && k == |r.trace|
    case Sent(id) =>
      || (s == StrandStep(id) && id in r.posted)
      || (s == TimerStep(id) && id in r.pending && r.pending[id].retries < r.pending[id].request.maxRetries)
    case TimedOut(id) =>
      s == TimerStep(id) && id in r.pending && r.pending[id].retries >= r.pending[id].request.maxRetries
  }

  lemma StrandExplained(r: Router, id: string, k: nat)
    requires id in r.posted && |r.trace| <= k < |RunPosted(r, id).trace|
    ensures Explained(r, StrandStep(id), RunPosted(r, id).trace, k)
  {
  }

  lemma TimerExplained(r: Router, id: string, k: nat)
    requires |r.trace| <= k < |Fire(r, id).trace|
    ensures Explained(r, TimerStep(id), Fire(r, id).trace, k)
  {
  }

  lemma NewEventExplained(r: Router, s: Step, k: nat)
    requires |r.trace| <= k < |Next(r, s).trace|
    ensures Explained(r, s, Next(r, s).trace, k)
  {
    match s
    case IssueStep(q) =>
    case StrandStep(id) => StrandExplained(r, id, k);
    case MessageStep(kind, id) => MessageOutcome(r, kind, id);
    case TimerStep(id) => TimerExplained(r, id, k);
  }

  lemma TraceGrows(r: Router, s: Step)
    ensures r.trace <= Next(r, s).trace
  {
  }

  /**
   In every run a reply is recorded by the message that answers the request, as a success
   if that message is a "db_query_result" and as a failure if it is of one of the error
   kinds; a callback runs right after the reply that it was given for, with that reply's flag,
   or is the error callback of a request that the strand turns down; a registration is of the
   request that was posted; and a timeout is the expiry of the timer with no retry left.
   */
  lemma {:induction false} EventsExplained(r0: Router, steps: seq<Step>, k: nat) returns (m: nat)
    requires |r0.trace| <= k < |Run(r0, steps).trace|
    ensures m < |steps| && Explained(Run(r0, steps[..m]), steps[m], Run(r0, steps).trace, k)
    decreases |steps|
  {
    var n := |steps| - 1;
    var r := Run(r0, steps[..n]);
    TraceGrows(r, steps[n]);
    if k < |r.trace| {
      m := EventsExplained(r0, steps[..n], k);
      assert steps[..n][..m] == steps[..m];
    } else {
      m := n;
      NewEventExplained(r, steps[n], k);
    }
  }

  /** The step issues the request, under the id made from the counter after it has moved on. */
  predicate Issues(r: Router, s: Step, id: string, q: Request) {
    s == IssueStep(q) && id == MakeReqId(q.sessionId, r.pid, (r.seqNo + 1) % TWO_64)
  }

  lemma PostedNext(r: Router, s: Step, id: string)
    requires id in Next(r, s).posted
    ensures var q := Next(r, s).posted[id]; Issues(r, s, id, q) || (id in r.posted && q == r.posted[id])
  {
  }

  /** What waits for the strand was issued in the run, as it is. */
  lemma {:induction false} PostedWasIssued(r0: Router, steps: seq<Step>, id: string) returns (m: nat)
    requires r0.posted == map[] && id in Run(r0, steps).posted
    ensures m < |steps| && Issues(Run(r0, steps[..m]), steps[m], id, Run(r0, steps).posted[id])
    ensures Run(r0, steps[..m]).pid == r0.pid
    decreases |steps|
  {
    var n := |steps| - 1;
    var r := Run(r0, steps[..n]);
    PostedNext(r, steps[n], id);
    SettingsFixed(r0, steps[..n]);
    if Issues(r, steps[n], id, Run(r0, steps).posted[id]) {
      m := n;
    } else {
      m := PostedWasIssued(r0, steps[..n], id);
      assert steps[..n][..m] == steps[..m];
    }
  }

  predicate SameSettings(r: Router, r': Router) {
    r'.plainSender == r.plainSender && r'.secureSender == r.secureSender && r'.pid == r.pid
  }

  lemma NextSettings(r: Router, s: Step)
    ensures SameSettings(r, Next(r, s))
  {
  }

  lemma {:induction false} SettingsFixed(r: Router, steps: seq<Step>)
    ensures SameSettings(r, Run(r, steps))
    decreases |steps|
  {
    if steps != [] {
      SettingsFixed(r, steps[..|steps| - 1]);
      NextSettings(Run(r, steps[..|steps| - 1]), steps[|steps| - 1]);
    }
  }

  /**
   A posted request needs the sender of its own kind if it is in callback mode, the secure
   one or the plain one, and none otherwise: then it is registered and sent. If that sender
   is not set it is dropped, with its error callback if it has one.
   */
  lemma SenderNeeded(pid: nat, plain: bool, secure: bool, steps: seq<Step>, id: string)
    requires Run(NewRouter(pid, plain, secure), steps).issued < TWO_64
    requires id in Run(NewRouter(pid, plain, secure), steps).posted
    ensures var r := Run(NewRouter(pid, plain, secure), steps);
            var r' := Next(r, StrandStep(id));
            var q := r.posted[id];
            && r'.posted == r.posted - {id}
            && if !q.useCallbacks || (q.secure && secure) || (!q.secure && plain) then
                 && r'.pending == r.pending[id := Pending(q, 0)] && id !in r.pending
                 && r'.trace == r.trace + [Registered(id, q), Sent(id)]
               else
                 && r'.pending == r.pending
                 && r'.trace == r.trace + if q.hasOnError then [Called(id, false)] else []
  {
    var r := Run(NewRouter(pid, plain, secure), steps);
    RunKeepsInv(pid, plain, secure, steps);
    SettingsFixed(NewRouter(pid, plain, secure), steps);
    assert PerId(r, id);
    assert r.trace + [Registered(id, r.posted[id])] + [Sent(id)]
           == r.trace + [Registered(id, r.posted[id]), Sent(id)];
    assert r.trace + [] == r.trace;
  }

  // ------------------------------------------------------------ termination

  /** Timer expiries that a pending request can still see. */
  function Attempts(p: Pending): nat {
    if p.request.maxRetries > p.retries then p.request.maxRetries - p.retries + 1 else 1
  }

  ghost function Budget(m: map<string, Pending>): nat {
    if m == map[] then 0
    else
      var id :| id in m;
      Attempts(m[id]) + Budget(m - {id})
  }

  lemma {:induction false} BudgetTake(m: map<string, Pending>, id: string)
    requires id in m
    ensures Budget(m) == Attempts(m[id]) + Budget(m - {id})
    decreases |m|
  {
    var x :| x in m && Budget(m) == Attempts(m[x]) + Budget(m - {x});
    if x != id {
      BudgetTake(m - {x}, id);
      BudgetTake(m - {id}, x);
      assert m - {x} - {id} == m - {id} - {x};
    }
  }

  lemma BudgetPut(m: map<string, Pending>, id: string, p: Pending)
    requires id in m
    ensures Budget(m[id := p]) == Budget(m) - Attempts(m[id]) + Attempts(p)
  {
    BudgetTake(m, id);
    BudgetTake(m[id := p], id);
    assert m[id := p] - {id} == m - {id};
  }

  lemma BudgetZeroIsEmpty(m: map<string, Pending>)
    ensures Budget(m) == 0 <==> m == map[]
  {
  }

  /** Every expiry of a live timer uses up one attempt, whether it retries or gives up. */
  lemma ExpiryUsesOneAttempt(r: Router, id: string)
    requires id in r.pending
    ensures Budget(Fire(r, id).pending) == Budget(r.pending) - 1
  {
    var p := r.pending[id];
    BudgetTake(r.pending, id);
    if p.retries < p.request.maxRetries {
      BudgetPut(r.pending, id, p.(retries := p.retries + 1));
    }
  }

  lemma ReplyFreesAttempts(r: Router, id: string, success: bool)
    ensures Budget(Reply(r, id, success).pending) ==
            if id in r.pending then Budget(r.pending) - Attempts(r.pending[id]) else Budget(r.pending)
  {
    if id in r.pending {
      BudgetTake(r.pending, id);
    }
  }

  predicate NoNewRequests(steps: seq<Step>) {
    forall k | 0 <= k < |steps| :: steps[k].MessageStep? || steps[k].TimerStep?
  }

  /** Timer steps of the run that found their request pending. */
  function LiveExpiries(r: Router, steps: seq<Step>): nat {
    if steps == [] then 0
    else
      var init, s := steps[..|steps| - 1], steps[|steps| - 1];
      LiveExpiries(r, init) + if s.TimerStep? && s.id in Run(r, init).pending then 1 else 0
  }

  /**
   Without new requests the table drains: live expiries and what is left of the
   budget never exceed the budget at the start, they make it up exactly when no
   reply arrives, and at a budget of zero the table is empty.
   */
  lemma {:induction false} TableDrains(r: Router, steps: seq<Step>)
    requires NoNewRequests(steps)
    ensures LiveExpiries(r, steps) + Budget(Run(r, steps).pending) <= Budget(r.pending)
    ensures (forall k | 0 <= k < |steps| :: steps[k].TimerStep?) ==>
            LiveExpiries(r, steps) + Budget(Run(r, steps).pending) == Budget(r.pending)
    ensures LiveExpiries(r, steps) == Budget(r.pending) ==> Run(r, steps).pending == map[]
    decreases |steps|
  {
    if steps != [] {
      var init, s := steps[..|steps| - 1], steps[|steps| - 1];
      TableDrains(r, init);
      var r1 := Run(r, init);
      match s {
        case TimerStep(id) =>
          if id in r1.pending {
            ExpiryUsesOneAttempt(r1, id);
          }
        case MessageStep(kind, id) => ReplyFreesAttempts(r1, id, kind == "db_query_result");
      }
    }
    BudgetZeroIsEmpty(Run(r, steps).pending);
  }
}
