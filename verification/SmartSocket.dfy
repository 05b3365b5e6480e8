/** Service requests: the client sends four hexadecimal digits of length and the service name; the
    smart socket collects fragments until the request is complete.  Where the fragments are cut
    makes no difference, unless one of them overflows the buffer before a judgement. */
module SmartSocket {
  import opened Bytes
  import opened Hexadecimal

  const MAX_PAYLOAD: nat := 4096
  const MAX_SERVICE: nat := 1024
  const WORD: nat := 0x1_0000_0000

  datatype Outcome = Waiting | Failed | Dispatched(service: seq<byte>)

  lemma FourDigits()
    ensures Pow16(4) == 65536
  {
    assert Pow16(1) == 16 && Pow16(2) == 256 && Pow16(3) == 4096;
  }

  /** What the socket makes of the bytes collected so far. */
  function Judge(buf: seq<byte>): (o: Outcome)
  {
    if |buf| < 4 then Waiting else JudgeLength(Unhex(buf[..4]), buf)
  }

  /** The same, once the length has been parsed. */
  function JudgeLength(p: Parsed, buf: seq<byte>): (o: Outcome)
    requires |buf| >= 4
  {
    match p
    case Bad => Failed
    case Value(len) =>
      if len < 1 || len > MAX_SERVICE then Failed
      else if len + 4 > |buf| then Waiting
      else Dispatched(buf[4..4 + len])
  }

  /** What _adb_connect writes; nothing for a service name it refuses. */
  function Request(service: seq<byte>): (r: seq<byte>)
    ensures r == [] <==> |service| < 1 || |service| > MAX_SERVICE
  {
    if |service| < 1 || |service| > MAX_SERVICE then []
    else
      FourDigits();
      Hex(|service|, 4) + service
  }

  /** When the socket gives up: as soon as four bytes are there that are no number from 1 to 1024.  It waits for
      four bytes, and then for as many as they say. */
  lemma JudgeExactly(buf: seq<byte>)
    ensures Judge(buf) == Failed <==> |buf| >= 4 && (Unhex(buf[..4]) == Bad || !(1 <= Unhex(buf[..4]).n <= 1024))
    ensures Judge(buf) == Waiting <==>
            |buf| < 4 || (Unhex(buf[..4]).Value? && 1 <= Unhex(buf[..4]).n <= 1024 && |buf| < 4 + Unhex(buf[..4]).n)
    ensures Judge(buf).Dispatched? ==> [buf[0], buf[1], buf[2], buf[3]] + Judge(buf).service <= buf
  {
  }

  /** A judgement is never taken back. */
  lemma JudgeMonotone(buf: seq<byte>, more: seq<byte>)
    requires Judge(buf) != Waiting
    ensures Judge(buf + more) == Judge(buf)
  {
    assert (buf + more)[..4] == buf[..4];
    var o := Judge(buf);
    if o.Dispatched? {
      var len := Unhex(buf[..4]).n;
      assert (buf + more)[4..4 + len] == buf[4..4 + len];
    }
  }

  /** A complete request is dispatched, whatever follows it; a part of it is waited for. */
  lemma JudgeRequest(service: seq<byte>, more: seq<byte>)
    requires 1 <= |service| <= MAX_SERVICE
    ensures Judge(Request(service) + more) == Dispatched(service)
    ensures forall k :: 0 <= k < |Request(service)| ==> Judge(Request(service)[..k]) == Waiting
  {
    FourDigits();
    var r := Request(service);
    UnhexHex(|service|, 4);
    assert (r + more)[..4] == Hex(|service|, 4);
    assert (r + more)[4..4 + |service|] == service;
    forall k | 0 <= k < |r| ensures Judge(r[..k]) == Waiting {
      if k >= 4 { assert r[..k][..4] == Hex(|service|, 4); }
    }
  }

  // ---------------------------------------------------------------- fragments

  function Concat(fs: seq<seq<byte>>): (s: seq<byte>)
  {
    if fs == [] then [] else Concat(fs[..|fs| - 1]) + fs[|fs| - 1]
  }

  /** The first judgement other than waiting, and the number of the fragment that brought it. */
  datatype Verdict = Verdict(o: Outcome, at: nat)

  /** Feeding fragments to a fresh smart socket until it acts. */
  function Feed(fs: seq<seq<byte>>): (v: Verdict)
    ensures v.at <= |fs|
  {
    if fs == [] then Verdict(Waiting, 0)
    else
      var v := Feed(fs[..|fs| - 1]);
      if v.o != Waiting then v
      else if |Concat(fs)| > MAX_PAYLOAD then Verdict(Failed, |fs|)
      else Verdict(Judge(Concat(fs)), |fs|)
  }

  /** A fragment arrives that does not fit, while those before it still leave the socket waiting. */
  predicate Overflows(fs: seq<seq<byte>>)
  {
    fs != [] &&
    var p := fs[..|fs| - 1];
    Overflows(p) || (Judge(Concat(p)) == Waiting && |Concat(fs)| > MAX_PAYLOAD)
  }

  /** The socket acts on all the bytes as if they had come at once, except after an overflow. */
  lemma {:induction false} FeedJudges(fs: seq<seq<byte>>)
    ensures Feed(fs).o == if Overflows(fs) then Failed else Judge(Concat(fs))
  {
    if fs != [] {
      var k := |fs| - 1;
      FeedJudges(fs[..k]);
      if Judge(Concat(fs[..k])) != Waiting {
        JudgeMonotone(Concat(fs[..k]), fs[k]);
      }
    }
  }

  /** Two ways of cutting the same bytes lead to the same outcome if and only if both or neither
      overflow, or the bytes are refused anyway. */
  lemma FragmentationIndependent(fs: seq<seq<byte>>, gs: seq<seq<byte>>)
    requires Concat(fs) == Concat(gs)
    ensures Feed(fs).o == Feed(gs).o <==> Overflows(fs) == Overflows(gs) || Judge(Concat(fs)) == Failed
  {
    FeedJudges(fs);
    FeedJudges(gs);
  }

  /** What fits into one packet never overflows, so for that no cut matters. */
  lemma {:induction false} SmallNeverOverflows(fs: seq<seq<byte>>)
    requires |Concat(fs)| <= MAX_PAYLOAD
    ensures !Overflows(fs)
  {
    if fs != [] { SmallNeverOverflows(fs[..|fs| - 1]); }
  }

  /** Three bytes of a request and then a full packet are refused; the same bytes with the request in
      one piece are dispatched. */
  lemma OverflowMatters(c: byte, more: seq<byte>)
    requires |more| == MAX_PAYLOAD - 2
    ensures var r := Request([c]);
            && |r| == 5
            && var fs, gs := [r[..3], r[3..] + more], [r, more];
               Concat(fs) == Concat(gs) && Feed(fs).o == Failed && Feed(gs).o == Dispatched([c])
  {
    FourDigits();
    var r := Request([c]);
    var fs, gs := [r[..3], r[3..] + more], [r, more];
    ConcatTwo(r[..3], r[3..] + more);
    ConcatTwo(r, more);
    assert r[..3] + (r[3..] + more) == r + more;
    JudgeRequest([c], more);
    JudgeRequest([c], []);
    assert r + [] == r;
    FeedJudges(fs);
    FeedJudges(gs);
    assert !Overflows([r]) by { SmallNeverOverflows([r]); }
  }

  lemma ConcatTwo(x: seq<byte>, y: seq<byte>)
    ensures [x, y][..1] == [x] && Concat([x]) == x && Concat([x, y]) == x + y
  {
    assert [x][..0] == [] && Concat([]) == [];
    assert [x, y][..1] == [x];
  }

  /** A client's request, in any fragments of which the last is not empty, is dispatched exactly
      once, on the last fragment, with the client's service. */
  lemma RequestDispatchedOnLast(service: seq<byte>, fs: seq<seq<byte>>)
    requires 1 <= |service| <= MAX_SERVICE
    requires fs != [] && fs[|fs| - 1] != [] && Concat(fs) == Request(service)
    ensures Feed(fs) == Verdict(Dispatched(service), |fs|)
  {
    var k := |fs| - 1;
    var r := Request(service);
    JudgeRequest(service, []);
    assert r + [] == r;
    FeedJudges(fs);
    SmallNeverOverflows(fs);
    FeedJudges(fs[..k]);
    SmallNeverOverflows(fs[..k]);
    assert Concat(fs[..k]) == r[..|r| - |fs[k]|];
  }

  // ---------------------------------------------------------------- the program

  class Smart {
    /** pkt_first, once there is one. */
    var first: seq<byte>
    var some: bool

    constructor ()
      ensures !some && first == []
    {
      first, some := [], false;
    }

    /** unhex, with unsigned arithmetic. */
    method UnhexLoop(s: seq<byte>) returns (n: nat)
      ensures n < WORD
      ensures n == match Unhex(s) case Bad => 0xffffffff case Value(v) => v % WORD
    {
      n := 0;
      for i := 0 to |s|
        invariant n < WORD
        invariant Unhex(s[..i]).Value? && n == Unhex(s[..i]).n % WORD
      {
        assert s[..i + 1][..i] == s[..i];
        var c := DigitValue(s[i]);
        if c == 16 {
          assert s[..i + 1][i] == s[i];
          assert Unhex(s) == Bad;
          return 0xffffffff;
        }
        ShiftIn(Unhex(s[..i]).n, c);
        n := (16 * n + c) % WORD;
      }
      assert s[..|s|] == s;
    }

    /** smart_socket_enqueue up to the point where a request is complete. */
    method Enqueue(p: seq<byte>) returns (o: Outcome)
      requires |p| <= MAX_PAYLOAD && (some || first == [])
      modifies this
      ensures some
      ensures if old(|first|) + |p| > MAX_PAYLOAD then o == Failed && first == old(first)
              else first == old(first) + p && o == Judge(first)
    {
      if !some {
        first, some := p, true;
      } else {
        if |first| + |p| > MAX_PAYLOAD { return Failed; }
        first := first + p;
      }
      o := JudgeFirst();
    }

    /** The tests on what has been collected. */
    method JudgeFirst() returns (o: Outcome)
      ensures o == Judge(first)
    {
      if |first| < 4 { return Waiting; }
      var len := UnhexLoop(first[..4]);
      SmallValue(first[..4]);
      o := JudgeNumber(len, Unhex(first[..4]));
    }

    method JudgeNumber(len: nat, ghost p: Parsed) returns (o: Outcome)
      requires |first| >= 4
      requires (p == Bad && len == 0xffffffff) || (p == Value(len) && len < 65536)
      ensures o == JudgeLength(p, first)
    {
      if len < 1 || len > MAX_SERVICE { return Failed; }
      if len + 4 > |first| { return Waiting; }
      o := Dispatched(first[4..4 + len]);
    }
  }

  /** A fresh smart socket fed fragment by fragment acts as Feed says. */
  method Collect(fs: seq<seq<byte>>) returns (v: Verdict)
    requires forall i :: 0 <= i < |fs| ==> |fs[i]| <= MAX_PAYLOAD
    ensures v == Feed(fs)
  {
    var s := new Smart();
    v := Verdict(Waiting, 0);
    for i := 0 to |fs|
      invariant (s.some || s.first == []) && s.first == Concat(fs[..i])
      invariant v.o == Waiting && Feed(fs[..i]) == Verdict(Waiting, i) && v.at == i
    {
      assert fs[..i + 1][..i] == fs[..i];
      var o := s.Enqueue(fs[i]);
      v := Verdict(o, i + 1);
      assert Feed(fs[..i + 1]) == v;
      if o != Waiting {
        FeedStays(fs, i + 1);
        return;
      }
    }
    assert fs[..|fs|] == fs;
  }

  lemma {:induction false} FeedStays(fs: seq<seq<byte>>, i: nat)
    requires i <= |fs| && Feed(fs[..i]).o != Waiting
    ensures Feed(fs) == Feed(fs[..i])
  {
    if i < |fs| {
      assert fs[..|fs| - 1][..i] == fs[..i];
      FeedStays(fs[..|fs| - 1], i);
    } else {
      assert fs[..i] == fs;
    }
  }

  lemma SmallValue(s: seq<byte>)
    requires |s| == 4
    ensures Unhex(s).Value? ==> Unhex(s).n < 65536
  {
    FourDigits();
  }

  lemma ShiftIn(v: nat, c: nat)
    ensures (16 * (v % WORD) + c) % WORD == (16 * v + c) % WORD
  {
    var q := v / WORD;
    assert v == WORD * q + v % WORD;
    assert 16 * v + c == WORD * (16 * q) + (16 * (v % WORD) + c);
    ModPlus(16 * (v % WORD) + c, 16 * q);
  }

  lemma {:induction false} ModPlus(x: nat, q: nat)
    ensures (WORD * q + x) % WORD == x % WORD
  {
    if q > 0 {
      ModPlus(x, q - 1);
      assert WORD * q + x == WORD * (q - 1) + x + WORD;
    }
  }
}
