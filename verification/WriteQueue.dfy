/**
 The outgoing side of a session: a bounded queue of messages, at most one
 asynchronous write of the current generation, oldest-first eviction when the
 queue is full, and a generation number that voids completions of earlier lives.
 */
module WriteQueue {
  import opened Framing

  type Msg = seq<byte>

  datatype Limits = Limits(maxQueue: nat, overflowLimit: nat)

  /** An asynchronous write that has been started and has not completed. */
  datatype Flight = Flight(gen: nat, msg: Msg)

  /**
   `open` is false from the moment the session is closed until it is reset for a
   new client; `registered` says whether closing it returns it to the pool.
   */
  datatype Writer = Writer(
    queue: seq<Msg>, gen: nat, open: bool, registered: bool, overflow: nat,
    flights: map<nat, Flight>, nextOp: nat)

  function Close(w: Writer): Writer {
    w.(queue := [], open := false, registered := false, gen := w.gen + if w.registered then 2 else 1)
  }

  function Reset(w: Writer): Writer {
    w.(queue := [], open := true, registered := true, gen := w.gen + 2)
  }

  function StartWrite(w: Writer): Writer {
    if !w.open || w.queue == [] then w
    else w.(flights := w.flights[w.nextOp := Flight(w.gen, w.queue[0])], nextOp := w.nextOp + 1)
  }

  function Enqueue(lim: Limits, w: Writer, m: Msg): Writer
    requires lim.maxQueue > 0
  {
    if |w.queue| < lim.maxQueue then w.(queue := w.queue + [m], overflow := 0)
    else
      var full := w.(queue := w.queue[1..], overflow := w.overflow + 1);
      if full.overflow >= lim.overflowLimit then Close(full)
      else full.(queue := full.queue + [m])
  }

  function Post(lim: Limits, w: Writer, m: Msg): Writer
    requires lim.maxQueue > 0
  {
    var w1 := Enqueue(lim, w, m);
    if w.queue == [] then StartWrite(w1) else w1
  }

  function Complete(w: Writer, op: nat, ok: bool): Writer
    requires op in w.flights
  {
    var landed := w.(flights := w.flights - {op});
    if w.flights[op].gen != w.gen then landed
    else if !ok then Close(landed)
    else StartWrite(landed.(queue := if w.queue == [] then [] else w.queue[1..]))
  }

  class SessionWriter {
    const limits: Limits
    var writeQueue: seq<Msg>
    var writeInProgress: bool
    var generation: nat
    var open: bool
    var registered: bool
    var overflowCount: nat
    var flights: map<nat, Flight>
    var nextOp: nat

    ghost function Model(): Writer
      reads this
    {
      Writer(writeQueue, generation, open, registered, overflowCount, flights, nextOp)
    }

    constructor (limits: Limits)
      ensures this.limits == limits
      ensures Model() == Writer([], 0, true, false, 0, map[], 0)
    {
      this.limits := limits;
      writeQueue, writeInProgress, generation := [], false, 0;
      open, registered, overflowCount, flights, nextOp := true, false, 0, map[], 0;
    }

    method PostWrite(msg: Msg)
      requires limits.maxQueue > 0
      modifies this
      ensures Model() == Post(limits, old(Model()), msg)
    {
      var idle := |writeQueue| == 0;
      EnqueueWrite(msg);
      if idle {
        writeInProgress := true;
        DoWriteQueue();
      }
    }

    method EnqueueWrite(msg: Msg)
      requires limits.maxQueue > 0
      modifies this
      ensures Model() == Enqueue(limits, old(Model()), msg)
    {
      if |writeQueue| >= limits.maxQueue {
        writeQueue := writeQueue[1..];
        overflowCount := overflowCount + 1;
        if overflowCount >= limits.overflowLimit {
          CloseSession();
          return;
        }
      } else {
        overflowCount := 0;
      }
      writeQueue := writeQueue + [msg];
    }

    method DoWriteQueue()
      modifies this
      ensures Model() == StartWrite(old(Model()))
    {
      if !open {
        return;
      }
      if |writeQueue| == 0 {
        writeInProgress := false;
        return;
      }
      flights := flights[nextOp := Flight(generation, writeQueue[0])];
      nextOp := nextOp + 1;
    }

    /** The completion handler of one started write; `ok` is false for a socket error. */
    method OnWriteDone(op: nat, ok: bool)
      requires op in flights
      modifies this
      ensures Model() == Complete(old(Model()), op, ok)
    {
      var myGeneration := flights[op].gen;
      flights := flights - {op};
      if myGeneration != generation {
        return;
      }
      if !ok {
        CloseSession();
        return;
      }
      if |writeQueue| > 0 {
        writeQueue := writeQueue[1..];
      }
      DoWriteQueue();
    }

    method CloseSession()
      modifies this
      ensures Model() == Close(old(Model()))
    {
      open := false;
      if registered {
        registered := false;
        Cleanup();
      }
      Cleanup();
    }

    method Cleanup()
      modifies this
      ensures Model() == old(Model()).(queue := [], gen := old(generation) + 1)
    {
      while |writeQueue| > 0
        invariant Model() == old(Model()).(queue := writeQueue)
        decreases |writeQueue|
      {
        writeQueue := writeQueue[1..];
      }
      generation := generation + 1;
    }

    /** Reset followed by the cleanup that the pool performs when it hands the session out. */
    method Acquire()
      modifies this
      ensures Model() == Reset(old(Model()))
    {
      writeQueue := [];
      open := true;
      generation := generation + 1;
      Cleanup();
      registered := true;
    }
  }

  // ------------------------------------------------------------- whole runs

  /**
   What has happened since the session was last reset: the messages posted, the
   post numbers of the writes started and their messages, the number of
   overflows during each of those writes, and how many of them completed.
   */
  datatype History = History(
    posted: seq<Msg>, started: seq<nat>, sent: seq<Msg>, drops: seq<nat>, completed: nat)

  datatype Step =
    | PostStep(msg: Msg)
    | CompleteStep(op: nat, ok: bool)
    | CloseStep
    | ResetStep

  const EMPTY := History([], [], [], [], 0)

  function Next(lim: Limits, w: Writer, s: Step): Writer
    requires lim.maxQueue > 0
  {
    match s
    case PostStep(m) => Post(lim, w, m)
    case CompleteStep(op, ok) => if op in w.flights then Complete(w, op, ok) else w
    case CloseStep => Close(w)
    case ResetStep => Reset(w)
  }

  /** The history after a step is read off the writer before and after it. */
  function Record(lim: Limits, w: Writer, h: History, s: Step): History
    requires lim.maxQueue > 0
  {
    var w' := Next(lim, w, s);
    if s.ResetStep? then EMPTY
    else if !w.open || !w'.open then h
    else
      var h1 := match s
        case PostStep(m) =>
          var h0 := h.(posted := h.posted + [m]);
          if |w.queue| >= lim.maxQueue && h.drops != [] then
            h0.(drops := h.drops[|h.drops| - 1 := h.drops[|h.drops| - 1] + 1])
          else h0
        case CompleteStep(op, ok) =>
          if op in w.flights && w.flights[op].gen == w.gen then h.(completed := h.completed + 1) else h
        case _ => h;
      if w'.nextOp == w.nextOp || w.nextOp !in w'.flights then h1
      else h1.(started := h1.started + [if |h1.posted| >= |w'.queue| then |h1.posted| - |w'.queue| else 0],
               sent := h1.sent + [w'.flights[w.nextOp].msg],
               drops := h1.drops + [0])
  }

  function Run(lim: Limits, steps: seq<Step>): (Writer, History)
    requires lim.maxQueue > 0
  {
    if steps == [] then (Writer([], 0, true, false, 0, map[], 0), EMPTY)
    else
      var (w, h) := Run(lim, steps[..|steps| - 1]);
      var s := steps[|steps| - 1];
      (Next(lim, w, s), Record(lim, w, h, s))
  }

  function Sum(s: seq<nat>): nat {
    if s == [] then 0 else Sum(s[..|s| - 1]) + s[|s| - 1]
  }

  /** The write `op` belongs to the present life of the session. */
  predicate Live(w: Writer, op: nat) {
    op in w.flights && w.flights[op].gen == w.gen
  }

  ghost predicate FlightsInv(w: Writer) {
    && (forall op | op in w.flights :: w.flights[op].gen <= w.gen && op < w.nextOp)
    && (forall a, b | Live(w, a) && Live(w, b) :: a == b)
    && (!w.open || w.queue == [] ==> forall op | op in w.flights :: !Live(w, op))
  }

  ghost predicate QueueInv(lim: Limits, w: Writer, h: History) {
    && |w.queue| <= lim.maxQueue
    && |w.queue| <= |h.posted|
    && w.queue == h.posted[|h.posted| - |w.queue|..]
    && |h.posted| == |w.queue| + h.completed + Sum(h.drops)
    && |h.started| == |h.sent| == |h.drops|
    && |h.started| == h.completed + (if w.queue == [] then 0 else 1)
    && (w.queue != [] ==> exists op :: Live(w, op) && w.flights[op].msg == h.sent[|h.sent| - 1])
  }

  ghost predicate OrderInv(h: History) {
    && |h.started| == |h.sent| == |h.drops|
    && forall k | 0 <= k < |h.started| ::
         && h.started[k] == k + Sum(h.drops[..k])
         && h.started[k] < |h.posted|
         && h.sent[k] == h.posted[h.started[k]]
  }

  ghost predicate Inv(lim: Limits, w: Writer, h: History) {
    FlightsInv(w) && (w.open ==> QueueInv(lim, w, h) && OrderInv(h))
  }

  lemma SumZeroAdded(s: seq<nat>)
    ensures Sum(s + [0]) == Sum(s)
    ensures forall k | 0 <= k <= |s| :: (s + [0])[..k] == s[..k]
  {
  }

  lemma PostKeepsFlights(lim: Limits, w: Writer, m: Msg)
    requires lim.maxQueue > 0 && FlightsInv(w)
    ensures FlightsInv(Post(lim, w, m))
  {
    var w' := Post(lim, w, m);
    if w.queue == [] {
      assert forall op | op in w.flights :: !Live(w, op);
    } else {
      assert forall op | op in w.flights :: Live(w', op) ==> Live(w, op);
    }
  }

  lemma CompleteKeepsFlights(w: Writer, op: nat, ok: bool)
    requires FlightsInv(w) && op in w.flights
    ensures FlightsInv(Complete(w, op, ok))
  {
    var w' := Complete(w, op, ok);
    assert forall a | a in w.flights && Live(w, op) && Live(w, a) :: a == op;
    assert forall a | a in w'.flights && a in w.flights :: Live(w', a) ==> Live(w, a) && a != op;
  }

  lemma NextInOrder(h: History, posted: seq<Msg>, lo: nat, m: Msg, completed: nat)
    requires OrderInv(h) && h.posted <= posted
    requires lo < |posted| && posted[lo] == m && lo == |h.started| + Sum(h.drops)
    ensures OrderInv(History(posted, h.started + [lo], h.sent + [m], h.drops + [0], completed))
  {
    SumZeroAdded(h.drops);
    assert h.drops[..|h.drops|] == h.drops;
  }

  lemma PostIdleShape(lim: Limits, w: Writer, h: History, m: Msg)
    requires lim.maxQueue > 0 && w.open && w.queue == []
    ensures Post(lim, w, m) == w.(queue := [m], overflow := 0, nextOp := w.nextOp + 1,
                                  flights := w.flights[w.nextOp := Flight(w.gen, m)])
    ensures Record(lim, w, h, PostStep(m)) ==
            History(h.posted + [m], h.started + [|h.posted|], h.sent + [m], h.drops + [0], h.completed)
  {
  }

  /** Posting to an idle session starts a write. */
  lemma PostIdle(lim: Limits, w: Writer, h: History, m: Msg)
    requires lim.maxQueue > 0 && Inv(lim, w, h) && w.open && w.queue == []
    ensures var w', h' := Post(lim, w, m), Record(lim, w, h, PostStep(m));
            QueueInv(lim, w', h') && OrderInv(h')
  {
    PostIdleShape(lim, w, h, m);
    SumZeroAdded(h.drops);
    NextInOrder(h, h.posted + [m], |h.posted|, m, h.completed);
    assert Live(Post(lim, w, m), w.nextOp);
  }

  lemma PostRoom(lim: Limits, w: Writer, h: History, m: Msg)
    requires lim.maxQueue > 0 && Inv(lim, w, h) && w.open && 0 < |w.queue| < lim.maxQueue
    ensures var w', h' := Post(lim, w, m), Record(lim, w, h, PostStep(m));
            QueueInv(lim, w', h') && OrderInv(h')
  {
  }

  /** Overflow evicts the message being written from the queue, not from the wire. */
  lemma PostFull(lim: Limits, w: Writer, h: History, m: Msg)
    requires lim.maxQueue > 0 && Inv(lim, w, h) && w.open && |w.queue| >= lim.maxQueue
    requires Post(lim, w, m).open
    ensures var w', h' := Post(lim, w, m), Record(lim, w, h, PostStep(m));
            QueueInv(lim, w', h') && OrderInv(h')
  {
    PostFullShape(lim, w, h, m);
    PostFullQueue(lim, w, h, m);
    BumpKeepsOrder(h, m);
  }

  lemma PostFullShape(lim: Limits, w: Writer, h: History, m: Msg)
    requires lim.maxQueue > 0 && QueueInv(lim, w, h) && w.open && |w.queue| >= lim.maxQueue
    requires Post(lim, w, m).open
    ensures Post(lim, w, m) == w.(queue := w.queue[1..] + [m], overflow := w.overflow + 1)
    ensures h.drops != [] && Record(lim, w, h, PostStep(m)) == Bumped(h, m)
  {
  }

  lemma PostFullQueue(lim: Limits, w: Writer, h: History, m: Msg)
    requires lim.maxQueue > 0 && QueueInv(lim, w, h) && OrderInv(h) && w.open && |w.queue| >= lim.maxQueue
    requires h.drops != []
    ensures QueueInv(lim, w.(queue := w.queue[1..] + [m], overflow := w.overflow + 1), Bumped(h, m))
  {
    var op :| Live(w, op) && w.flights[op].msg == h.sent[|h.sent| - 1];
    assert Live(w.(queue := w.queue[1..] + [m], overflow := w.overflow + 1), op);
    BumpKeepsOrder(h, m);
  }

  function Bumped(h: History, m: Msg): History
    requires h.drops != []
  {
    var n := |h.drops| - 1;
    h.(posted := h.posted + [m], drops := h.drops[n := h.drops[n] + 1])
  }

  lemma BumpKeepsOrder(h: History, m: Msg)
    requires OrderInv(h) && h.drops != []
    ensures OrderInv(Bumped(h, m)) && Sum(Bumped(h, m).drops) == Sum(h.drops) + 1
  {
  }

  lemma PostKeepsInv(lim: Limits, w: Writer, h: History, m: Msg)
    requires lim.maxQueue > 0 && Inv(lim, w, h)
    ensures Inv(lim, Post(lim, w, m), Record(lim, w, h, PostStep(m)))
  {
    PostKeepsFlights(lim, w, m);
    if w.open && Post(lim, w, m).open {
      if w.queue == [] {
        PostIdle(lim, w, h, m);
      } else if |w.queue| < lim.maxQueue {
        PostRoom(lim, w, h, m);
      } else {
        PostFull(lim, w, h, m);
      }
    }
  }

  /** The write in flight has completed and nothing else is waiting. */
  lemma CompleteLast(lim: Limits, w: Writer, h: History, op: nat)
    requires lim.maxQueue > 0 && Inv(lim, w, h) && w.open && Live(w, op) && |w.queue| == 1
    ensures var w', h' := Complete(w, op, true), Record(lim, w, h, CompleteStep(op, true));
            QueueInv(lim, w', h') && OrderInv(h')
  {
  }

  /** The write in flight has completed: the front of the queue goes, and the next write starts. */
  lemma CompleteNext(lim: Limits, w: Writer, h: History, op: nat)
    requires lim.maxQueue > 0 && Inv(lim, w, h) && w.open && Live(w, op) && |w.queue| > 1
    ensures var w', h' := Complete(w, op, true), Record(lim, w, h, CompleteStep(op, true));
            QueueInv(lim, w', h') && OrderInv(h')
  {
    var w', h' := Complete(w, op, true), Record(lim, w, h, CompleteStep(op, true));
    CompleteNextShape(lim, w, h, op);
    SumZeroAdded(h.drops);
    NextInOrder(h, h.posted, |h.posted| - |w.queue| + 1, w.queue[1], h.completed + 1);
    assert Live(w', w.nextOp);
  }

  lemma CompleteNextShape(lim: Limits, w: Writer, h: History, op: nat)
    requires lim.maxQueue > 0 && Inv(lim, w, h) && w.open && Live(w, op) && |w.queue| > 1
    ensures var lo := |h.posted| - |w.queue| + 1;
            Record(lim, w, h, CompleteStep(op, true))
            == History(h.posted, h.started + [lo], h.sent + [w.queue[1]], h.drops + [0], h.completed + 1)
  {
  }

  lemma CompleteStale(lim: Limits, w: Writer, h: History, op: nat, ok: bool)
    requires lim.maxQueue > 0 && Inv(lim, w, h) && op in w.flights && (!w.open || !Live(w, op))
    ensures Complete(w, op, ok) == w.(flights := w.flights - {op})
    ensures Record(lim, w, h, CompleteStep(op, ok)) == h
    ensures w.open ==> QueueInv(lim, Complete(w, op, ok), h)
  {
    assert !Live(w, op);
    var w' := Complete(w, op, ok);
    assert w.nextOp !in w'.flights;
    if w.open && w.queue != [] {
      var cur :| Live(w, cur) && w.flights[cur].msg == h.sent[|h.sent| - 1];
      assert Live(w', cur);
    }
  }

  lemma CompleteKeepsInv(lim: Limits, w: Writer, h: History, op: nat, ok: bool)
    requires lim.maxQueue > 0 && Inv(lim, w, h) && op in w.flights
    ensures Inv(lim, Complete(w, op, ok), Record(lim, w, h, CompleteStep(op, ok)))
  {
    CompleteKeepsFlights(w, op, ok);
    if w.open && Complete(w, op, ok).open {
      if Live(w, op) {
        assert w.queue != [];
        if |w.queue| == 1 {
          CompleteLast(lim, w, h, op);
        } else {
          CompleteNext(lim, w, h, op);
        }
      } else {
        CompleteStale(lim, w, h, op, ok);
      }
    }
  }

  lemma {:induction false} RunKeepsInv(lim: Limits, steps: seq<Step>)
    requires lim.maxQueue > 0
    ensures var (w, h) := Run(lim, steps); Inv(lim, w, h)
    decreases |steps|
  {
    if steps != [] {
      RunKeepsInv(lim, steps[..|steps| - 1]);
      var (w, h) := Run(lim, steps[..|steps| - 1]);
      match steps[|steps| - 1]
      case PostStep(m) => PostKeepsInv(lim, w, h, m);
      case CompleteStep(op, ok) => if op in w.flights { CompleteKeepsInv(lim, w, h, op, ok); }
      case CloseStep =>
      case ResetStep =>
    }
  }

  lemma {:induction false} SumMonotone(s: seq<nat>, i: nat, j: nat)
    requires i <= j <= |s|
    ensures Sum(s[..i]) <= Sum(s[..j])
    decreases j
  {
    if i < j {
      SumMonotone(s, i, j - 1);
      assert s[..j][..j - 1] == s[..j - 1];
    }
  }

  /**
   In every run, whenever the session is open: the queue is a suffix of what was
   posted and within its maximum; it is nonempty exactly when a write of this
   generation is in flight, and there is never a second one; every message
   posted is queued, completed or accounted for by one overflow.
   */
  lemma QueueRefinement(lim: Limits, steps: seq<Step>)
    requires lim.maxQueue > 0
    ensures var (w, h) := Run(lim, steps);
            w.open ==>
              && |w.queue| <= lim.maxQueue
              && |w.queue| <= |h.posted| && w.queue == h.posted[|h.posted| - |w.queue|..]
              && (w.queue != [] <==> exists op :: Live(w, op))
              && (forall a, b | Live(w, a) && Live(w, b) :: a == b)
              && |h.posted| == |w.queue| + h.completed + Sum(h.drops)
  {
    RunKeepsInv(lim, steps);
  }

  /**
   Writes start in the order of posting. Between one write and the next exactly
   as many messages are passed over as there were overflows during that write,
   and when the session is idle that is all that was not sent.
   */
  lemma WriteOrder(lim: Limits, steps: seq<Step>)
    requires lim.maxQueue > 0
    ensures var (w, h) := Run(lim, steps);
            w.open ==>
              && |h.started| == |h.sent| == |h.drops|
              && (forall k | 0 <= k < |h.started| ::
                    h.started[k] < |h.posted| && h.sent[k] == h.posted[h.started[k]])
              && (h.started != [] ==> h.started[0] == 0)
              && (forall k | 0 <= k < |h.started| - 1 :: h.started[k + 1] == h.started[k] + 1 + h.drops[k])
              && (forall i, j | 0 <= i < j < |h.started| :: h.started[i] < h.started[j])
              && (w.queue == [] ==> |h.posted| == |h.sent| + Sum(h.drops))
  {
    RunKeepsInv(lim, steps);
    var (w, h) := Run(lim, steps);
    if w.open {
      InOrder(h);
    }
  }

  lemma InOrder(h: History)
    requires OrderInv(h)
    ensures h.started != [] ==> h.started[0] == 0
    ensures forall k | 0 <= k < |h.started| - 1 :: h.started[k + 1] == h.started[k] + 1 + h.drops[k]
    ensures forall i, j | 0 <= i < j < |h.started| :: h.started[i] < h.started[j]
  {
    forall i, j | 0 <= i < j < |h.started|
      ensures h.started[i] < h.started[j]
    {
      SumMonotone(h.drops, i, j);
    }
    forall k | 0 <= k < |h.started| - 1
      ensures h.started[k + 1] == h.started[k] + 1 + h.drops[k]
    {
      assert h.drops[..k + 1][..k] == h.drops[..k];
    }
  }

  /** A completion of an earlier generation changes nothing but the set of outstanding writes. */
  lemma StaleCompletionIgnored(lim: Limits, steps: seq<Step>, op: nat, ok: bool)
    requires lim.maxQueue > 0
    requires var w := Run(lim, steps).0; op in w.flights && (!w.open || !Live(w, op))
    ensures var (w, h) := Run(lim, steps);
            && Next(lim, w, CompleteStep(op, ok)) == w.(flights := w.flights - {op})
            && Record(lim, w, h, CompleteStep(op, ok)) == h
  {
    RunKeepsInv(lim, steps);
    var (w, h) := Run(lim, steps);
    CompleteStale(lim, w, h, op, ok);
  }

  /**
   An overflow is not the loss of the oldest message: with room for one, the message being
   written is the one taken off the queue, yet it is sent; the completion takes off the
   message posted meanwhile, which is never written.
   */
  lemma NewerMessageIsLost(a: Msg, b: Msg)
    ensures var (w, h) := Run(Limits(1, 10), [PostStep(a), PostStep(b), CompleteStep(0, true)]);
            && w.open && w.queue == [] && w.flights == map[]
            && h.posted == [a, b] && h.sent == [a] && h.drops == [1] && h.completed == 1
  {
    var lim := Limits(1, 10);
    var w0 := Writer([], 0, true, false, 0, map[], 0);
    var w1 := w0.(queue := [a], flights := map[0 := Flight(0, a)], nextOp := 1);
    var w2 := w1.(queue := [b], overflow := 1);
    var h1, h2 := History([a], [0], [a], [0], 0), History([a, b], [0], [a], [1], 0);
    RunAfter(lim, [], PostStep(a));
    assert [] + [PostStep(a)] == [PostStep(a)];
    assert Next(lim, w0, PostStep(a)) == w1;
    assert Record(lim, w0, EMPTY, PostStep(a)) == h1;
    RunAfter(lim, [PostStep(a)], PostStep(b));
    assert [PostStep(a)] + [PostStep(b)] == [PostStep(a), PostStep(b)];
    assert Next(lim, w1, PostStep(b)) == w2;
    assert Record(lim, w1, h1, PostStep(b)) == h2;
    RunAfter(lim, [PostStep(a), PostStep(b)], CompleteStep(0, true));
    assert [PostStep(a), PostStep(b)] + [CompleteStep(0, true)] == [PostStep(a), PostStep(b), CompleteStep(0, true)];
    assert Next(lim, w2, CompleteStep(0, true)) == w2.(queue := [], flights := map[]);
    assert Record(lim, w2, h2, CompleteStep(0, true)) == h2.(completed := 1);
  }

  lemma RunAfter(lim: Limits, steps: seq<Step>, s: Step)
    requires lim.maxQueue > 0
    ensures var (w, h) := Run(lim, steps);
            Run(lim, steps + [s]) == (Next(lim, w, s), Record(lim, w, h, s))
  {
    assert (steps + [s])[..|steps|] == steps;
  }

  // --------------------------------------------------- what closes the session

  /** Live writes completed without an error since the session was last reset. */
  function Successes(lim: Limits, steps: seq<Step>): nat
    requires lim.maxQueue > 0
  {
    if steps == [] then 0
    else
      var prefix, s := steps[..|steps| - 1], steps[|steps| - 1];
      if s.ResetStep? then 0
      else Successes(lim, prefix) + if s.CompleteStep? && s.ok && Live(Run(lim, prefix).0, s.op) then 1 else 0
  }

  /** A closed session stays closed and starts no write until it is reset. */
  lemma ClosedStays(lim: Limits, w: Writer, s: Step)
    requires lim.maxQueue > 0 && !w.open && !s.ResetStep?
    ensures !Next(lim, w, s).open && Next(lim, w, s).nextOp == w.nextOp
  {
  }

  lemma CompletedNext(lim: Limits, w: Writer, h: History, s: Step)
    requires lim.maxQueue > 0 && w.open && Next(lim, w, s).open && !s.ResetStep?
    ensures Record(lim, w, h, s).completed ==
            h.completed + if s.CompleteStep? && s.ok && Live(w, s.op) then 1 else 0
  {
  }

  /** On an open session the writes counted as completed are those that were completed without an error. */
  lemma {:induction false} CompletedExactly(lim: Limits, steps: seq<Step>)
    requires lim.maxQueue > 0
    ensures var (w, h) := Run(lim, steps); w.open ==> h.completed == Successes(lim, steps)
    decreases |steps|
  {
    if steps != [] {
      var prefix, s := steps[..|steps| - 1], steps[|steps| - 1];
      var (w, h) := Run(lim, prefix);
      CompletedExactly(lim, prefix);
      if !s.ResetStep? && Next(lim, w, s).open {
        if !w.open {
          ClosedStays(lim, w, s);
        }
        CompletedNext(lim, w, h, s);
      }
    }
  }

  lemma {:induction false} ClosedUntilReset(lim: Limits, steps: seq<Step>, later: seq<Step>)
    requires lim.maxQueue > 0 && !Run(lim, steps).0.open
    requires forall k | 0 <= k < |later| :: !later[k].ResetStep?
    ensures var w, w' := Run(lim, steps).0, Run(lim, steps + later).0; !w'.open && w'.nextOp == w.nextOp
    decreases |later|
  {
    if later == [] {
      assert steps + later == steps;
    } else {
      var n := |later| - 1;
      ClosedUntilReset(lim, steps, later[..n]);
      ClosedStays(lim, Run(lim, steps + later[..n]).0, later[n]);
      RunAfter(lim, steps + later[..n], later[n]);
      assert steps + later[..n] + [later[n]] == steps + later;
    }
  }

  lemma FailureCloses(w: Writer, op: nat)
    requires FlightsInv(w) && Live(w, op)
    ensures var w' := Complete(w, op, false);
            && !w'.open && w'.queue == [] && w'.nextOp == w.nextOp && forall x: nat :: !Live(w', x)
  {
    CompleteKeepsFlights(w, op, false);
  }

  /**
   In every run a current write that fails closes the session: nothing is left in the queue,
   no write is current, and none is started again until the session is reset.
   */
  lemma FailedWriteCloses(lim: Limits, steps: seq<Step>, op: nat, later: seq<Step>)
    requires lim.maxQueue > 0 && Run(lim, steps).0.open && Live(Run(lim, steps).0, op)
    requires forall k | 0 <= k < |later| :: !later[k].ResetStep?
    ensures var w := Run(lim, steps).0;
            var w1 := Run(lim, steps + [CompleteStep(op, false)]).0;
            var w2 := Run(lim, steps + [CompleteStep(op, false)] + later).0;
            && !w1.open && w1.queue == [] && w1.nextOp == w.nextOp && (forall x: nat :: !Live(w1, x))
            && !w2.open && w2.nextOp == w.nextOp && (forall x: nat :: !Live(w2, x))
  {
    RunKeepsInv(lim, steps);
    FailureCloses(Run(lim, steps).0, op);
    RunAfter(lim, steps, CompleteStep(op, false));
    ClosedUntilReset(lim, steps + [CompleteStep(op, false)], later);
    RunKeepsInv(lim, steps + [CompleteStep(op, false)] + later);
  }

  /** Posts that found the queue at its maximum, since the last post that found room. */
  function Streak(lim: Limits, steps: seq<Step>): nat
    requires lim.maxQueue > 0
  {
    if steps == [] then 0
    else
      var prefix, s := steps[..|steps| - 1], steps[|steps| - 1];
      if !s.PostStep? then Streak(lim, prefix)
      else if |Run(lim, prefix).0.queue| < lim.maxQueue then 0
      else Streak(lim, prefix) + 1
  }

  lemma NextOverflow(lim: Limits, w: Writer, s: Step)
    requires lim.maxQueue > 0
    ensures Next(lim, w, s).overflow ==
            if !s.PostStep? then w.overflow else if |w.queue| < lim.maxQueue then 0 else w.overflow + 1
  {
  }

  lemma {:induction false} OverflowIsStreak(lim: Limits, steps: seq<Step>)
    requires lim.maxQueue > 0
    ensures Run(lim, steps).0.overflow == Streak(lim, steps)
    decreases |steps|
  {
    if steps != [] {
      OverflowIsStreak(lim, steps[..|steps| - 1]);
      NextOverflow(lim, Run(lim, steps[..|steps| - 1]).0, steps[|steps| - 1]);
    }
  }

  /**
   What opens and closes a session, in every run: a reset opens it; a close, the failure of a
   current write, or a post that finds the queue at its maximum, as the last of at least the
   limit of such posts in a row, closes it; nothing else does either.
   */
  lemma OpenExactly(lim: Limits, steps: seq<Step>, s: Step)
    requires lim.maxQueue > 0
    ensures var w := Run(lim, steps).0;
            Run(lim, steps + [s]).0.open <==>
            || s.ResetStep?
            || (w.open
                && !s.CloseStep?
                && !(s.CompleteStep? && !s.ok && Live(w, s.op))
                && !(s.PostStep? && |w.queue| >= lim.maxQueue && Streak(lim, steps + [s]) >= lim.overflowLimit))
  {
    OverflowIsStreak(lim, steps);
    OverflowIsStreak(lim, steps + [s]);
    RunAfter(lim, steps, s);
  }

  /** After a reset, in whatever state the session was, the next message posted is written at once. */
  lemma ResetWritesAtOnce(lim: Limits, steps: seq<Step>, m: Msg)
    requires lim.maxQueue > 0
    ensures var op := Run(lim, steps).0.nextOp;
            var (w, h) := Run(lim, steps + [ResetStep] + [PostStep(m)]);
            && w.open && w.queue == [m] && Live(w, op) && w.flights[op].msg == m
            && h == History([m], [0], [m], [0], 0)
  {
    RunAfter(lim, steps, ResetStep);
    RunAfter(lim, steps + [ResetStep], PostStep(m));
    var (w, h) := Run(lim, steps + [ResetStep]);
    PostIdleShape(lim, w, h, m);
  }

  // ------------------------------------------------------------- on the wire

  function WireItems(msgs: seq<Msg>): seq<Item> {
    seq(|msgs|, i requires 0 <= i < |msgs| => Item([], msgs[i]))
  }

  /**
   What the peer's parser makes of the bytes written, however they are cut into
   reads: the messages sent, each once, in order, as far as their bytes have
   arrived.
   */
  lemma PeerReceivesWhatWasSent(lim: Limits, steps: seq<Step>, chunks: seq<seq<byte>>)
    requires lim.maxQueue > 0
    requires var (w, h) := Run(lim, steps);
             && w.open
             && (forall m | m in h.posted :: 1 <= |m| <= MAX_PACKET_SIZE)
             && Flatten(chunks) <= Stream(WireItems(h.sent))
    ensures var h := Run(lim, steps).1;
            var d := Feed([], chunks);
            && d.msgs <= h.sent && !d.cleared
            && (Flatten(chunks) == Stream(WireItems(h.sent)) ==> d.msgs == h.sent)
  {
    RunKeepsInv(lim, steps);
    var h := Run(lim, steps).1;
    var items := WireItems(h.sent);
    forall it | it in items ensures Recoverable(it) {
      var k :| 0 <= k < |items| && items[k] == it;
      assert h.sent[k] == h.posted[h.started[k]];
    }
    FramedRoundTrip(items, chunks);
    assert Bodies(items) == h.sent;
  }
}
