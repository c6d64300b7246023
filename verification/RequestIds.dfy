/**
 Request ids: "<session>_<seq>" for requests made for a session, and
 "srv-<pid>-<seq>" for requests the server makes on its own behalf.
 */
module RequestIds {

  const INT_MAX: nat := 2147483647

  predicate IsDigit(c: char) {
    '0' <= c <= '9'
  }

  function DigitValue(c: char): nat
    requires IsDigit(c)
  {
    (c - '0') as nat
  }

  function Digit(d: nat): (c: char)
    requires d < 10
    ensures IsDigit(c) && DigitValue(c) == d
  {
    '0' + d as char
  }

  /** std::to_string of an unsigned number. */
  function Decimal(n: nat): (s: string)
    ensures s != [] && forall i | 0 <= i < |s| :: IsDigit(s[i])
  {
    if n < 10 then [Digit(n)] else Decimal(n / 10) + [Digit(n % 10)]
  }

  predicate AllDigits(s: string) {
    forall i | 0 <= i < |s| :: IsDigit(s[i])
  }

  function Value(s: string): nat
    requires AllDigits(s)
  {
    if s == [] then 0 else Value(s[..|s| - 1]) * 10 + DigitValue(s[|s| - 1])
  }

  function MakeReqId(sessionId: int, pid: nat, seqNo: nat): string {
    if sessionId >= 0 then Decimal(sessionId) + "_" + Decimal(seqNo)
    else "srv-" + Decimal(pid) + "-" + Decimal(seqNo)
  }

  /** The longest prefix, and the longest suffix, made of digits. */
  function LeadingDigits(s: string): (r: string)
    ensures AllDigits(r) && r <= s
  {
    if s == [] || !IsDigit(s[0]) then [] else [s[0]] + LeadingDigits(s[1..])
  }

  function TrailingDigits(s: string): (r: string)
    ensures AllDigits(r)
  {
    if s == [] || !IsDigit(s[|s| - 1]) then [] else TrailingDigits(s[..|s| - 1]) + [s[|s| - 1]]
  }

  /** The session a response belongs to: the number in front, unless there is none or it is too large for an int. */
  function ExtractSessionId(reqId: string): int {
    var digits := LeadingDigits(reqId);
    if digits == [] || Value(digits) > INT_MAX then -1 else Value(digits)
  }

  method ExtractSessionIdFromReq(reqId: string) returns (sid: int)
    ensures sid == ExtractSessionId(reqId)
  {
    var digits := "";
    var i := 0;
    while i < |reqId| && IsDigit(reqId[i])
      invariant 0 <= i <= |reqId|
      invariant digits + LeadingDigits(reqId[i..]) == LeadingDigits(reqId)
    {
      assert reqId[i..][1..] == reqId[i + 1..];
      digits := digits + [reqId[i]];
      i := i + 1;
    }
    assert digits == LeadingDigits(reqId);
    if digits == "" {
      return -1;
    }
    sid := StringToInt(digits);
  }

  /** std::stoi on a run of digits, with its range error turned into -1. */
  method StringToInt(digits: string) returns (r: int)
    requires digits != "" && AllDigits(digits)
    ensures r == if Value(digits) > INT_MAX then -1 else Value(digits)
  {
    var v := 0;
    var i := 0;
    while i < |digits|
      invariant 0 <= i <= |digits| && v == Value(digits[..i])
    {
      assert digits[..i + 1][..i] == digits[..i];
      v := v * 10 + DigitValue(digits[i]);
      i := i + 1;
    }
    assert digits[..|digits|] == digits;
    r := if v > INT_MAX then -1 else v;
  }

  lemma {:induction false} ValueOfDecimal(n: nat)
    ensures Value(Decimal(n)) == n
  {
    if n >= 10 {
      ValueOfDecimal(n / 10);
      assert Decimal(n)[..|Decimal(n)| - 1] == Decimal(n / 10);
    } else {
      assert Decimal(n)[..0] == [];
    }
  }

  /** A run of digits at the end of a string, with a non-digit in front of it, is found exactly. */
  lemma {:induction false} TrailingAfter(front: string, c: char, digits: string)
    requires !IsDigit(c) && AllDigits(digits)
    ensures TrailingDigits(front + [c] + digits) == digits
    decreases |digits|
  {
    var s := front + [c] + digits;
    if digits == [] {
      assert s[|s| - 1] == c;
    } else {
      var n := |digits| - 1;
      TrailingAfter(front, c, digits[..n]);
      assert s[..|s| - 1] == front + [c] + digits[..n];
      assert s[|s| - 1] == digits[n];
      assert digits == digits[..n] + [digits[n]];
    }
  }

  lemma {:induction false} LeadingBefore(digits: string, c: char, back: string)
    requires !IsDigit(c) && AllDigits(digits)
    ensures LeadingDigits(digits + [c] + back) == digits
    decreases |digits|
  {
    var s := digits + [c] + back;
    if digits == [] {
      assert s[0] == c;
    } else {
      LeadingBefore(digits[1..], c, back);
      assert s[1..] == digits[1..] + [c] + back;
      assert digits == [digits[0]] + digits[1..];
    }
  }

  /** The sequence number an id was made from can be read back from it. */
  function SequenceOf(id: string): nat {
    Value(TrailingDigits(id))
  }

  lemma SequenceReadBack(sessionId: int, pid: nat, seqNo: nat)
    ensures SequenceOf(MakeReqId(sessionId, pid, seqNo)) == seqNo
  {
    ValueOfDecimal(seqNo);
    if sessionId >= 0 {
      TrailingAfter(Decimal(sessionId), '_', Decimal(seqNo));
    } else {
      TrailingAfter("srv-" + Decimal(pid), '-', Decimal(seqNo));
      assert "srv-" + Decimal(pid) + "-" + Decimal(seqNo) == "srv-" + Decimal(pid) + ['-'] + Decimal(seqNo);
    }
  }

  /** Ids made from different sequence numbers differ, whatever mix of sessions and processes made them. */
  lemma IdsDistinct(s1: int, p1: nat, n1: nat, s2: int, p2: nat, n2: nat)
    requires n1 != n2
    ensures MakeReqId(s1, p1, n1) != MakeReqId(s2, p2, n2)
  {
    SequenceReadBack(s1, p1, n1);
    SequenceReadBack(s2, p2, n2);
  }

  lemma SessionIdPrefix(sessionId: nat, pid: nat, seqNo: nat)
    ensures LeadingDigits(MakeReqId(sessionId, pid, seqNo)) == Decimal(sessionId)
  {
    LeadingBefore(Decimal(sessionId), '_', Decimal(seqNo));
    assert Decimal(sessionId) + "_" + Decimal(seqNo) == Decimal(sessionId) + ['_'] + Decimal(seqNo);
  }

  lemma Regroup(a: string, b: string, c: string, d: string)
    ensures (a + b + c + d)[|a|..] == b + c + d
  {
  }

  lemma ServerIdPrefix(sessionId: int, pid: nat, seqNo: nat)
    requires sessionId < 0
    ensures var id := MakeReqId(sessionId, pid, seqNo);
            |id| > 4 && id[0] == 's' && LeadingDigits(id[4..]) == Decimal(pid)
  {
    Regroup("srv-", Decimal(pid), ['-'], Decimal(seqNo));
    LeadingBefore(Decimal(pid), '-', Decimal(seqNo));
  }

  /**
   Ids coincide only if they were made from the same sequence number and for the same
   session, or both on the server's own behalf by the same process.
   */
  lemma IdsEqualExactly(s1: int, p1: nat, n1: nat, s2: int, p2: nat, n2: nat)
    ensures MakeReqId(s1, p1, n1) == MakeReqId(s2, p2, n2) <==>
            n1 == n2 && if s1 >= 0 then s1 == s2 else s2 < 0 && p1 == p2
  {
    SequenceReadBack(s1, p1, n1);
    SequenceReadBack(s2, p2, n2);
    if s1 >= 0 && s2 >= 0 {
      SessionIdPrefix(s1, p1, n1);
      SessionIdPrefix(s2, p2, n2);
      ValueOfDecimal(s1);
      ValueOfDecimal(s2);
    } else if s1 < 0 && s2 < 0 {
      ServerIdPrefix(s1, p1, n1);
      ServerIdPrefix(s2, p2, n2);
      ValueOfDecimal(p1);
      ValueOfDecimal(p2);
    } else if s1 < 0 {
      ServerIdPrefix(s1, p1, n1);
      assert IsDigit(MakeReqId(s2, p2, n2)[0]);
    } else {
      ServerIdPrefix(s2, p2, n2);
      assert IsDigit(MakeReqId(s1, p1, n1)[0]);
    }
  }

  /** The session an id was made for is read back exactly when it is an int; every other id gives -1. */
  lemma SessionReadBack(sessionId: int, pid: nat, seqNo: nat)
    ensures ExtractSessionId(MakeReqId(sessionId, pid, seqNo)) ==
            if 0 <= sessionId <= INT_MAX then sessionId else -1
  {
    if sessionId >= 0 {
      ValueOfDecimal(sessionId);
      LeadingBefore(Decimal(sessionId), '_', Decimal(seqNo));
      assert Decimal(sessionId) + "_" + Decimal(seqNo) == Decimal(sessionId) + ['_'] + Decimal(seqNo);
    } else {
      assert MakeReqId(sessionId, pid, seqNo)[0] == 's';
    }
  }
}
