/**
 Length-prefixed framing: the printer puts a four-byte big-endian length before
 every body, the parser takes bodies out of a growing receive buffer and scans
 forward over noise when the bytes in front are not a possible length.
 */
module Framing {
  import opened Wrappers

  type byte = x: int | 0 <= x < 256

  const MAX_PACKET_SIZE: nat := 262144
  const MAX_RESYNC_SCAN: nat := 16384
  const ABSOLUTE_MAX_BUFFER: nat := 524288
  const TWO_32: nat := 0x1_0000_0000

  // ---------------------------------------------------------------- printer

  /** The low 32 bits of n, most significant byte first. */
  function EncodeLength(n: nat): seq<byte> {
    var u := n % TWO_32;
    [u / 16777216, u / 65536 % 256, u / 256 % 256, u % 256]
  }

  function Frame(body: seq<byte>): seq<byte> {
    EncodeLength(|body|) + body
  }

  lemma Digits(a: int, b: int, c: int, d: int)
    requires 0 <= a < 256 && 0 <= b < 256 && 0 <= c < 256 && 0 <= d < 256
    ensures var n := 16777216 * a + 65536 * b + 256 * c + d;
            && 0 <= n < 0x1_0000_0000
            && n / 16777216 == a && n / 65536 % 256 == b && n / 256 % 256 == c && n % 256 == d
  {
    var n := 16777216 * a + 65536 * b + 256 * c + d;
    assert n / 65536 == 256 * a + b;
    assert n / 256 == 256 * (256 * a + b) + c;
  }

  /** A frame in bytes: a body of size a b c d, read in base 256, has these four bytes before it. */
  lemma FrameBytes(body: seq<byte>, a: byte, b: byte, c: byte, d: byte)
    requires |body| == 16777216 * a + 65536 * b + 256 * c + d
    ensures Frame(body) == [a, b, c, d] + body
  {
    Digits(a, b, c, d);
  }

  // ----------------------------------------------------------------- parser

  function LengthAt(b: seq<byte>, i: nat): nat
    requires i + 4 <= |b|
  {
    (b[i] as int) * 16777216 + (b[i + 1] as int) * 65536 + (b[i + 2] as int) * 256 + b[i + 3] as int
  }

  /** Offset i is within reach of the scan and four bytes there read as an acceptable length. */
  predicate Candidate(b: seq<byte>, i: nat) {
    i <= MAX_RESYNC_SCAN && i + 4 <= |b| && 0 < LengthAt(b, i) <= MAX_PACKET_SIZE
  }

  /** The least candidate offset at or after `from`. */
  function FirstCandidate(b: seq<byte>, from: nat): (r: Option<nat>)
    ensures r.Some? ==> from <= r.value && Candidate(b, r.value)
    ensures r.Some? ==> forall j | from <= j < r.value :: !Candidate(b, j)
    ensures r.None? ==> forall j | from <= j :: !Candidate(b, j)
    decreases |b| - from
  {
    if from + 4 > |b| then None
    else if Candidate(b, from) then Some(from)
    else FirstCandidate(b, from + 1)
  }

  datatype Extraction = Extraction(msg: Option<seq<byte>>, rest: seq<byte>, cleared: bool)

  /** What one call of the parser yields, in terms of the least candidate offset of the whole buffer. */
  function Extract(b: seq<byte>): (x: Extraction)
    ensures x.msg.Some? ==> 1 <= |x.msg.value| <= MAX_PACKET_SIZE && |x.rest| + 5 <= |b|
    ensures x.msg.Some? ==> !x.cleared
    ensures x.msg.None? ==> |x.rest| <= ABSOLUTE_MAX_BUFFER
    ensures |x.rest| <= |b|
  {
    match FirstCandidate(b, 0)
    case Some(i) => ExtractAt(b, i)
    case None =>
      if |b| > ABSOLUTE_MAX_BUFFER then Extraction(None, [], true)
      else Extraction(None, b, false)
  }

  datatype Drained = Drained(msgs: seq<seq<byte>>, rest: seq<byte>, cleared: bool)

  /** Calling the parser until it yields nothing. */
  function Drain(b: seq<byte>): (d: Drained)
    ensures |d.rest| <= ABSOLUTE_MAX_BUFFER
    ensures forall m | m in d.msgs :: 1 <= |m| <= MAX_PACKET_SIZE
    ensures 5 * |d.msgs| + |d.rest| <= |b|
    decreases |b|
  {
    var x := Extract(b);
    match x.msg
    case None => Drained([], x.rest, x.cleared)
    case Some(m) =>
      var d := Drain(x.rest);
      Drained([m] + d.msgs, d.rest, d.cleared)
  }

  /**
   A connection that reads the chunks one after another, draining after each.
   It stops reading once the parser has given up on the stream.
   */
  function Feed(b: seq<byte>, chunks: seq<seq<byte>>): Drained
    decreases |chunks|
  {
    if chunks == [] then Drained([], b, false)
    else
      var d := Drain(b + chunks[0]);
      if d.cleared then d
      else
        Prepend(d.msgs, Feed(d.rest, chunks[1..]))
  }

  function Flatten(chunks: seq<seq<byte>>): seq<byte> {
    if chunks == [] then [] else chunks[0] + Flatten(chunks[1..])
  }

  /** The least candidate is determined by its two defining properties. */
  lemma FirstCandidateIs(b: seq<byte>, i: nat)
    requires Candidate(b, i) && forall j | 0 <= j < i :: !Candidate(b, j)
    ensures FirstCandidate(b, 0) == Some(i)
  {
  }

  /** What the parser does at its candidate: take the message out, or drop the noise and wait. */
  function ExtractAt(b: seq<byte>, i: nat): Extraction
    requires i + 4 <= |b|
  {
    var n := LengthAt(b, i);
    if i + 4 + n <= |b| then Extraction(Some(b[i + 4..i + 4 + n]), b[i + 4 + n..], false)
    else Extraction(None, b[i..], false)
  }

  lemma ExtractIs(b: seq<byte>, i: nat)
    requires Candidate(b, i) && forall j | 0 <= j < i :: !Candidate(b, j)
    ensures Extract(b) == ExtractAt(b, i)
  {
  }

  lemma ExtractFails(b: seq<byte>)
    requires forall j: nat | j <= MAX_RESYNC_SCAN :: !Candidate(b, j)
    ensures Extract(b) == if |b| > ABSOLUTE_MAX_BUFFER then Extraction(None, [], true) else Extraction(None, b, false)
  {
  }

  /** The outcome of a drain that has already delivered `msgs` and just got `opt`, leaving `b`. */
  ghost function Resume(msgs: seq<seq<byte>>, opt: Option<seq<byte>>, b: seq<byte>, cleared: bool): Drained {
    match opt
    case None => Drained(msgs, b, cleared)
    case Some(m) => var d := Drain(b); Drained(msgs + [m] + d.msgs, d.rest, d.cleared)
  }

  lemma ResumeStep(msgs: seq<seq<byte>>, m: seq<byte>, b: seq<byte>)
    ensures var x := Extract(b);
            Resume(msgs, Some(m), b, false) == Resume(msgs + [m], x.msg, x.rest, x.cleared)
  {
  }

  lemma ResumeStart(b: seq<byte>)
    ensures var x := Extract(b); Drain(b) == Resume([], x.msg, x.rest, x.cleared)
  {
  }

  lemma SliceOfSlice(b: seq<byte>, i: nat, lo: nat, hi: nat)
    requires lo <= hi && i + hi <= |b|
    ensures b[i..][lo..hi] == b[i + lo..i + hi]
    ensures b[i..][hi..] == b[i + hi..]
  {
  }

  /** The receive buffer of a connection. */
  class MessageBufferManager {
    var buffer: seq<byte>
    var lastClearByInvalidLength: bool

    constructor ()
      ensures buffer == [] && !lastClearByInvalidLength
    {
      buffer := [];
      lastClearByInvalidLength := false;
    }

    method Append(data: seq<byte>, len: nat)
      requires len <= |data|
      modifies this`buffer
      ensures buffer == old(buffer) + data[..len]
    {
      buffer := buffer + data[..len];
    }

    method Clear()
      modifies this`buffer
      ensures buffer == []
    {
      buffer := [];
    }

    method ExtractMessage() returns (msg: Option<seq<byte>>)
      modifies this
      ensures Extraction(msg, buffer, lastClearByInvalidLength) == Extract(old(buffer))
    {
      lastClearByInvalidLength := false;
      if |buffer| < 4 {
        ExtractFails(buffer);
        return None;
      }
      var len0 := LengthAt(buffer, 0);
      if 0 < len0 <= MAX_PACKET_SIZE {
        ExtractIs(buffer, 0);
        if |buffer| >= 4 + len0 {
          msg := Some(buffer[4..4 + len0]);
          buffer := buffer[4 + len0..];
          return;
        }
        assert buffer[0..] == buffer;
        return None;
      }
      msg := Resync();
    }

    /** The scan past a prefix that cannot be a length. */
    method Resync() returns (msg: Option<seq<byte>>)
      requires |buffer| >= 4 && !Candidate(buffer, 0) && !lastClearByInvalidLength
      modifies this
      ensures Extraction(msg, buffer, lastClearByInvalidLength) == Extract(old(buffer))
    {
      var scanLimit := if |buffer| < MAX_RESYNC_SCAN + 4 then |buffer| else MAX_RESYNC_SCAN + 4;
      var i := 1;
      while i + 4 <= scanLimit
        invariant 1 <= i
        invariant forall j | 0 <= j < i :: !Candidate(buffer, j)
        invariant buffer == old(buffer) && !lastClearByInvalidLength
        decreases scanLimit - i
      {
        var cand := LengthAt(buffer, i);
        if 0 < cand <= MAX_PACKET_SIZE {
          ExtractIs(buffer, i);
          if |buffer| >= i + 4 + cand {
            ghost var b := buffer;
            buffer := buffer[i..];
            msg := Some(buffer[4..4 + cand]);
            buffer := buffer[4 + cand..];
            SliceOfSlice(b, i, 4, 4 + cand);
            return;
          }
          buffer := buffer[i..];
          return None;
        }
        i := i + 1;
      }
      ExtractFails(buffer);
      if |buffer| > ABSOLUTE_MAX_BUFFER {
        buffer := [];
        lastClearByInvalidLength := true;
      }
      return None;
    }

    /** One completed read: append the bytes, then take out messages until there are no more. */
    method Receive(data: seq<byte>, len: nat) returns (msgs: seq<seq<byte>>)
      requires len <= |data|
      modifies this
      ensures Drained(msgs, buffer, lastClearByInvalidLength) == Drain(old(buffer) + data[..len])
    {
      Append(data, len);
      msgs := [];
      ghost var all := Drain(buffer);
      ResumeStart(buffer);
      var opt := ExtractMessage();
      while opt.Some?
        invariant all == Resume(msgs, opt, buffer, lastClearByInvalidLength)
        invariant opt.Some? ==> !lastClearByInvalidLength
        decreases if opt.Some? then 1 + |buffer| else 0
      {
        ResumeStep(msgs, opt.value, buffer);
        msgs := msgs + [opt.value];
        opt := ExtractMessage();
      }
    }
  }

  // ------------------------------------------------- chunking does not matter

  /** Bytes that arrive later do not change which offset a candidate was found at. */
  lemma CandidateStable(b: seq<byte>, c: seq<byte>, i: nat)
    requires i + 4 <= |b|
    ensures LengthAt(b + c, i) == LengthAt(b, i)
    ensures Candidate(b + c, i) <==> Candidate(b, i)
  {
  }

  lemma FirstCandidateStable(b: seq<byte>, c: seq<byte>)
    requires FirstCandidate(b, 0).Some?
    ensures FirstCandidate(b + c, 0) == FirstCandidate(b, 0)
  {
    var i := FirstCandidate(b, 0).value;
    forall j: nat | j <= i
      ensures Candidate(b + c, j) <==> Candidate(b, j)
    {
      CandidateStable(b, c, j);
    }
    FirstCandidateIs(b + c, i);
  }

  /** A message that was complete stays the next one. */
  lemma WholeStable(b: seq<byte>, c: seq<byte>, i: nat)
    requires i + 4 <= |b| && i + 4 + LengthAt(b, i) <= |b|
    ensures ExtractAt(b + c, i) == Extraction(ExtractAt(b, i).msg, ExtractAt(b, i).rest + c, false)
  {
    CandidateStable(b, c, i);
    var n := LengthAt(b, i);
    assert (b + c)[i + 4..i + 4 + n] == b[i + 4..i + 4 + n];
    assert (b + c)[i + 4 + n..] == b[i + 4 + n..] + c;
  }

  /** Dropping the noise in front of a candidate early changes nothing about what it yields later. */
  lemma NoiseDropStable(t: seq<byte>, i: nat)
    requires Candidate(t, i)
    ensures Extract(t[i..]) == ExtractAt(t, i)
  {
    var u := t[i..];
    var n := LengthAt(t, i);
    assert LengthAt(u, 0) == n;
    ExtractIs(u, 0);
    if i + 4 + n <= |t| {
      assert u[4..4 + n] == t[i + 4..i + 4 + n];
      assert u[4 + n..] == t[i + 4 + n..];
    } else {
      assert u[0..] == u;
    }
  }

  lemma ExtractStable(b: seq<byte>, c: seq<byte>)
    ensures Extract(b).msg.Some? ==>
        Extract(b + c) == Extraction(Extract(b).msg, Extract(b).rest + c, false)
    ensures Extract(b).cleared ==> Extract(b + c) == Extraction(None, [], true)
    ensures Extract(b).msg.None? && !Extract(b).cleared ==>
        Extract(b + c) == Extract(Extract(b).rest + c)
  {
    match FirstCandidate(b, 0)
    case Some(i) =>
      FirstCandidateStable(b, c);
      if i + 4 + LengthAt(b, i) <= |b| {
        WholeStable(b, c, i);
      } else {
        NoiseDropStable(b + c, i);
        assert (b + c)[i..] == b[i..] + c;
      }
    case None =>
      if |b| > ABSOLUTE_MAX_BUFFER {
        forall j: nat | j <= MAX_RESYNC_SCAN
          ensures !Candidate(b + c, j)
        {
          CandidateStable(b, c, j);
        }
        ExtractFails(b + c);
      }
  }

  /** The first message of a drain, and the drain of what follows it. */
  lemma DrainHead(b: seq<byte>, m: seq<byte>, rest: seq<byte>)
    requires Extract(b) == Extraction(Some(m), rest, false)
    ensures Drain(b) == Prepend([m], Drain(rest))
  {
  }

  lemma DrainSame(b: seq<byte>, c: seq<byte>)
    requires Extract(b) == Extract(c)
    ensures Drain(b) == Drain(c)
  {
  }

  function Prepend(msgs: seq<seq<byte>>, d: Drained): Drained {
    Drained(msgs + d.msgs, d.rest, d.cleared)
  }

  lemma PrependTwice(a: seq<seq<byte>>, b: seq<seq<byte>>, d: Drained)
    ensures Prepend(a, Prepend(b, d)) == Prepend(a + b, d)
  {
  }

  lemma PrependNone(d: Drained)
    ensures Prepend([], d) == d
  {
  }

  /** Draining b + c at once is draining b, then draining what is left of it together with c. */
  lemma {:induction false} DrainAppend(b: seq<byte>, c: seq<byte>)
    ensures Drain(b).cleared ==> Drain(b + c) == Drain(b)
    ensures !Drain(b).cleared ==> Drain(b + c) == Prepend(Drain(b).msgs, Drain(Drain(b).rest + c))
    decreases |b|
  {
    ExtractStable(b, c);
    var x := Extract(b);
    if x.msg.Some? {
      DrainAppend(x.rest, c);
      DrainHead(b, x.msg.value, x.rest);
      DrainHead(b + c, x.msg.value, x.rest + c);
      PrependTwice([x.msg.value], Drain(x.rest).msgs, Drain(Drain(x.rest).rest + c));
    } else if !x.cleared {
      DrainSame(b + c, x.rest + c);
      PrependNone(Drain(x.rest + c));
    }
  }

  /**
   For every byte stream and every way of cutting it into reads, the connection
   delivers the same messages, keeps the same bytes and gives up or not, exactly
   as if the whole stream had arrived in a single read.
   */
  lemma {:induction false} ChunkingIrrelevant(b: seq<byte>, chunks: seq<seq<byte>>)
    requires Drain(b) == Drained([], b, false)
    ensures Feed(b, chunks) == Drain(b + Flatten(chunks))
    decreases |chunks|
  {
    if chunks == [] {
      assert b + Flatten(chunks) == b;
    } else {
      var bc := b + chunks[0];
      var d := Drain(bc);
      assert b + Flatten(chunks) == bc + Flatten(chunks[1..]);
      DrainAppend(bc, Flatten(chunks[1..]));
      if !d.cleared {
        DrainIdempotent(bc);
        ChunkingIrrelevant(d.rest, chunks[1..]);
      }
    }
  }

  /** What a drain leaves behind holds no further message until more bytes arrive. */
  lemma {:induction false} DrainIdempotent(b: seq<byte>)
    requires !Drain(b).cleared
    ensures var d := Drain(b); Drain(d.rest) == Drained([], d.rest, false)
  {
    var d := Drain(b);
    DrainAppend(b, []);
    assert b + [] == b && d.rest + [] == d.rest;
    var e := Drain(d.rest);
    assert |d.msgs + e.msgs| == |d.msgs|;
    assert e.msgs == [];
  }

  // -------------------------------------------------------------- round trip

  /** Bytes a sender puts on the wire for one message: noise, then the frame. */
  datatype Item = Item(noise: seq<byte>, body: seq<byte>)

  predicate Recoverable(it: Item) {
    && |it.noise| <= MAX_RESYNC_SCAN
    && (forall k | 0 <= k < |it.noise| :: it.noise[k] != 0)
    && 1 <= |it.body| <= MAX_PACKET_SIZE
  }

  function ItemBytes(it: Item): seq<byte> {
    it.noise + Frame(it.body)
  }

  function Stream(items: seq<Item>): seq<byte> {
    if items == [] then [] else ItemBytes(items[0]) + Stream(items[1..])
  }

  function Bodies(items: seq<Item>): seq<seq<byte>> {
    seq(|items|, i requires 0 <= i < |items| => items[i].body)
  }

  /** How many items lie wholly within the first n bytes of the stream. */
  function Arrived(items: seq<Item>, n: nat): (k: nat)
    ensures k <= |items|
    decreases |items|
  {
    if items == [] || n < |ItemBytes(items[0])| then 0
    else 1 + Arrived(items[1..], n - |ItemBytes(items[0])|)
  }

  lemma EncodedLength(body: seq<byte>)
    ensures |Frame(body)| == 4 + |body|
    ensures LengthAt(Frame(body), 0) == |body| % TWO_32
  {
    var u := |body| % TWO_32;
    var q := u / 65536;
    assert u / 16777216 == q / 256;
    assert u / 256 == q * 256 + u / 256 % 256;
  }

  /** A length prefix cannot begin inside noise that has no zero byte. */
  lemma NoiseHasNoCandidate(it: Item, p: seq<byte>, j: nat)
    requires Recoverable(it) && j < |it.noise| && j < |p| && p[j] == it.noise[j]
    ensures !Candidate(p, j)
  {
  }

  /** An item that has wholly arrived is what the parser returns next, whatever follows it. */
  lemma ExtractItem(it: Item, c: seq<byte>)
    requires Recoverable(it)
    ensures Extract(ItemBytes(it) + c) == Extraction(Some(it.body), c, false)
  {
    var n := |it.noise|;
    var b := ItemBytes(it) + c;
    EncodedLength(it.body);
    assert b[n..] == Frame(it.body) + c;
    assert LengthAt(b, n) == LengthAt(b[n..], 0) == LengthAt(Frame(it.body), 0) == |it.body|;
    forall j: nat | j < n ensures !Candidate(b, j) {
      NoiseHasNoCandidate(it, b, j);
    }
    FirstCandidateIs(b, n);
    assert b[n + 4..n + 4 + |it.body|] == it.body;
    assert b[n + 4 + |it.body|..] == c;
  }

  /** Of an item that has not wholly arrived nothing is delivered, and the parser does not give up. */
  lemma ExtractPartialItem(it: Item, p: seq<byte>)
    requires Recoverable(it) && p < ItemBytes(it)
    ensures Extract(p).msg.None? && !Extract(p).cleared
  {
    var n := |it.noise|;
    var whole := ItemBytes(it);
    EncodedLength(it.body);
    assert whole[n..] == Frame(it.body);
    forall j: nat | j < n && j < |p| ensures !Candidate(p, j) {
      assert whole[j] == it.noise[j];
      NoiseHasNoCandidate(it, p, j);
    }
    if n + 4 <= |p| {
      assert LengthAt(p, n) == LengthAt(whole, n) == LengthAt(whole[n..], 0) == |it.body|;
      FirstCandidateIs(p, n);
    } else {
      assert FirstCandidate(p, 0).None?;
    }
  }

  lemma DrainPartialItem(it: Item, p: seq<byte>)
    requires Recoverable(it) && p < ItemBytes(it)
    ensures Drain(p).msgs == [] && !Drain(p).cleared
  {
    ExtractPartialItem(it, p);
  }

  lemma DrainNothing()
    ensures Drain([]) == Drained([], [], false)
  {
  }

  /** What is claimed of a drain of the first bytes p of the stream of the items. */
  ghost predicate DeliversPrefix(items: seq<Item>, p: seq<byte>) {
    && Drain(p).msgs == Bodies(items)[..Arrived(items, |p|)]
    && !Drain(p).cleared
    && (p == Stream(items) ==> Arrived(items, |p|) == |items| && Drain(p).rest == [])
  }

  lemma DeliversNext(items: seq<Item>, p: seq<byte>)
    requires items != [] && Recoverable(items[0])
    requires p <= Stream(items) && |ItemBytes(items[0])| <= |p|
    ensures var q := p[|ItemBytes(items[0])|..];
            q <= Stream(items[1..]) && (DeliversPrefix(items[1..], q) ==> DeliversPrefix(items, p))
  {
    var head, tail := ItemBytes(items[0]), items[1..];
    PrefixSplit(head, Stream(tail), p);
    var q := p[|head|..];
    DrainItem(items[0], q);
    assert Arrived(items, |p|) == 1 + Arrived(tail, |q|);
    BodiesSplit(items, Arrived(tail, |q|));
  }

  /** A drain of any prefix of a stream delivers the bodies that are wholly in it, and nothing else. */
  lemma {:induction false} DrainStreamPrefix(items: seq<Item>, p: seq<byte>)
    requires forall it | it in items :: Recoverable(it)
    requires p <= Stream(items)
    ensures DeliversPrefix(items, p)
    decreases |items|
  {
    if items == [] {
      DrainNothing();
    } else {
      var n := |ItemBytes(items[0])|;
      if |p| < n {
        assert p == ItemBytes(items[0])[..|p|];
        DrainPartialItem(items[0], p);
      } else {
        DeliversNext(items, p);
        DrainStreamPrefix(items[1..], p[n..]);
      }
    }
  }

  lemma BodiesSplit(items: seq<Item>, k: nat)
    requires items != [] && k < |items|
    ensures [items[0].body] + Bodies(items[1..])[..k] == Bodies(items)[..k + 1]
  {
  }

  lemma PrefixSplit(head: seq<byte>, tail: seq<byte>, p: seq<byte>)
    requires p <= head + tail && |head| <= |p|
    ensures p == head + p[|head|..] && p[|head|..] <= tail
    ensures p == head + tail ==> p[|head|..] == tail
  {
  }

  /** Draining a buffer that starts with a whole item. */
  lemma DrainItem(it: Item, c: seq<byte>)
    requires Recoverable(it)
    ensures Drain(ItemBytes(it) + c) == Prepend([it.body], Drain(c))
  {
    ExtractItem(it, c);
    DrainHead(ItemBytes(it) + c, it.body, c);
  }

  /**
   The receiver's side of the protocol: at any moment, however the bytes sent so
   far were cut into reads, the messages delivered are the bodies of the frames
   that have wholly arrived, in order; when all of the stream has arrived they
   are all the bodies and the buffer is empty. The connection is never given up.
   */
  lemma FramedRoundTrip(items: seq<Item>, chunks: seq<seq<byte>>)
    requires forall it | it in items :: Recoverable(it)
    requires Flatten(chunks) <= Stream(items)
    ensures var d := Feed([], chunks);
            && d.msgs == Bodies(items)[..Arrived(items, |Flatten(chunks)|)]
            && !d.cleared
            && (Flatten(chunks) == Stream(items) ==> d.msgs == Bodies(items) && d.rest == [])
  {
    assert FirstCandidate([], 0).None?;
    ChunkingIrrelevant([], chunks);
    assert [] + Flatten(chunks) == Flatten(chunks);
    DrainStreamPrefix(items, Flatten(chunks));
  }

  /** A frame is read back as its body exactly when the body has an acceptable size. */
  lemma FrameReadBackExactly(body: seq<byte>)
    ensures Extract(Frame(body)).msg == Some(body) <==> 1 <= |body| <= MAX_PACKET_SIZE
  {
    if 1 <= |body| <= MAX_PACKET_SIZE {
      ExtractItem(Item([], body), []);
      assert ItemBytes(Item([], body)) + [] == Frame(body);
    }
  }

  /** Zero-free noise before a frame is skipped exactly when it is within the reach of the scan. */
  lemma ResyncReachExactly(noise: seq<byte>, body: seq<byte>)
    requires forall k | 0 <= k < |noise| :: noise[k] != 0
    requires 1 <= |body| <= MAX_PACKET_SIZE
    ensures Extract(noise + Frame(body)).msg == Some(body) <==> |noise| <= MAX_RESYNC_SCAN
  {
    var b := noise + Frame(body);
    if |noise| <= MAX_RESYNC_SCAN {
      ExtractItem(Item(noise, body), []);
      assert b + [] == b;
    } else {
      assert FirstCandidate(b, 0).None?;
    }
  }

  /** The parser only ever drops bytes from the front of the buffer, or all of them. */
  lemma ExtractTakesFromTheFront(b: seq<byte>)
    ensures var x := Extract(b);
            && x.rest == b[|b| - |x.rest|..]
            && (x.msg.Some? ==>
                var end := |b| - |x.rest|;
                |x.msg.value| + 4 <= end && x.msg.value == b[end - |x.msg.value|..end])
  {
  }
}
