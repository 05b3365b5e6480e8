/** The file sync protocol: what the client writes for a request, what the service consumes and
    answers, and what the client consumes of the answer.  Both sides stay in step over any session
    of requests, whatever the sizes of the pieces in which files travel. */
module Sync {
  import opened Bytes
  import opened Framing

  const DATA_MAX: nat := 65536
  const NAME_MAX: nat := 1024
  const TEXT_MAX: nat := 256

  const STAT: nat := 0x54415453
  const SEND: nat := 0x444e4553
  const RECV: nat := 0x56434552
  const DATA: nat := 0x41544144
  const DONE: nat := 0x454e4f44
  const OKAY: nat := 0x59414b4f
  const FAIL: nat := 0x4c494146
  const LIST: nat := 0x5453494c
  const QUIT: nat := 0x54495551

  const COMMA: byte := 44

  /** The ids as they go over the wire. */
  lemma IdsSpell()
    ensures Word(STAT) == [83, 84, 65, 84] && Word(SEND) == [83, 69, 78, 68] && Word(RECV) == [82, 69, 67, 86]
    ensures Word(DATA) == [68, 65, 84, 65] && Word(DONE) == [68, 79, 78, 69] && Word(OKAY) == [79, 75, 65, 89]
    ensures Word(FAIL) == [70, 65, 73, 76] && Word(LIST) == [76, 73, 83, 84] && Word(QUIT) == [81, 85, 73, 84]
  {
  }

  // ---------------------------------------------------------------- messages

  /** An id and a size, as in most of the protocol's messages. */
  function Head(id: nat, size: nat): (s: seq<byte>)
    ensures |s| == 8
  {
    Word(id) + Word(size)
  }

  lemma HeadReads(id: nat, size: nat, rest: seq<byte>)
    requires id < WORD && size < WORD
    ensures var b := Head(id, size) + rest;
            Unword(b[..4]) == id && Unword(b[4..8]) == size && b[8..] == rest
  {
    var b := Head(id, size) + rest;
    assert b[..4] == Word(id) && b[4..8] == Word(size);
    UnwordWord(id);
    UnwordWord(size);
  }

  /** A message with a body. */
  function Msg(id: nat, body: seq<byte>): (s: seq<byte>)
  {
    Head(id, |body|) + body
  }

  lemma MsgReads(id: nat, body: seq<byte>, rest: seq<byte>)
    requires id < WORD && |body| < WORD
    ensures var b := Msg(id, body) + rest;
            && |b| >= 8 + |body| && Unword(b[..4]) == id && Unword(b[4..8]) == |body|
            && b[8..8 + |body|] == body && b[8 + |body|..] == rest
  {
    var b := Msg(id, body) + rest;
    assert b == Head(id, |body|) + (body + rest);
    HeadReads(id, |body|, body + rest);
    assert b[8..8 + |body|] == b[8..][..|body|] && b[8 + |body|..] == b[8..][|body|..];
  }

  function Flat(chunks: seq<seq<byte>>): (s: seq<byte>)
  {
    if chunks == [] then [] else chunks[0] + Flat(chunks[1..])
  }

  ghost predicate Chunks(chunks: seq<seq<byte>>)
  {
    forall i :: 0 <= i < |chunks| ==> |chunks[i]| <= DATA_MAX
  }

  /** DATA messages and the DONE that ends them, followed by `rest`. */
  function DataMsgs(chunks: seq<seq<byte>>, last: nat, rest: seq<byte>): (s: seq<byte>)
  {
    if chunks == [] then Head(DONE, last) + rest
    else Msg(DATA, chunks[0]) + DataMsgs(chunks[1..], last, rest)
  }

  /** The chunks up to DONE, or those up to where the reader gives up. */
  datatype Gathered =
    | Gathered(chunks: seq<seq<byte>>, last: nat, rest: seq<byte>)
    | Stopped(chunks: seq<seq<byte>>, why: Stop)

  /** Why a reader of DATA messages gives up. */
  datatype Stop = Short | NotData(id: nat, size: nat, rest: seq<byte>) | Oversize

  /** Reads DATA messages up to DONE. */
  function Gather(b: seq<byte>): (g: Gathered)
    decreases |b|
  {
    if |b| < 8 then Stopped([], Short)
    else
      var id, size := Unword(b[..4]), Unword(b[4..8]);
      if id == DONE then Gathered([], size, b[8..])
      else if id != DATA then Stopped([], NotData(id, size, b[8..]))
      else if size > DATA_MAX then Stopped([], Oversize)
      else if |b| < 8 + size then Stopped([], Short)
      else
        match Gather(b[8 + size..])
        case Stopped(chunks, why) => Stopped([b[8..8 + size]] + chunks, why)
        case Gathered(chunks, last, rest) => Gathered([b[8..8 + size]] + chunks, last, rest)
  }

  lemma {:induction false} GatherDataMsgs(chunks: seq<seq<byte>>, last: nat, rest: seq<byte>)
    requires Chunks(chunks) && last < WORD
    ensures Gather(DataMsgs(chunks, last, rest)) == Gathered(chunks, last, rest)
  {
    if chunks == [] {
      HeadReads(DONE, last, rest);
    } else {
      GatherDataMsgs(chunks[1..], last, rest);
      MsgReads(DATA, chunks[0], DataMsgs(chunks[1..], last, rest));
      assert chunks == [chunks[0]] + chunks[1..];
    }
  }

  // ---------------------------------------------------------------- "path,mode"

  /** %d of a mode. */
  function Decimal(n: nat): (s: seq<byte>)
    ensures s != [] && forall i :: 0 <= i < |s| ==> 48 <= s[i] <= 57
    ensures s[0] == 48 ==> n == 0 && s == [48]
  {
    if n < 10 then [48 + n] else Decimal(n / 10) + [48 + n % 10]
  }

  /** Digits go from the highest to the lowest. */
  lemma DecimalSpells()
    ensures Decimal(0) == [48] && Decimal(420) == [52, 50, 48] && Decimal(33188) == [51, 51, 49, 56, 56]
  {
    assert Decimal(4) == [52] && Decimal(42) == [52] + [50];
    assert Decimal(3) == [51] && Decimal(33) == [51] + [51] && Decimal(331) == Decimal(33) + [49];
    assert Decimal(3318) == Decimal(331) + [56];
  }

  /** strtoul with base 0, without blanks or signs, up to the first character that is no digit. */
  function Strtoul(s: seq<byte>): (n: nat)
  {
    if |s| >= 2 && s[0] == 48 && (s[1] == 120 || s[1] == 88) then Digits(s[2..], 16, 0)
    else if s != [] && s[0] == 48 then Digits(s, 8, 0)
    else Digits(s, 10, 0)
  }

  function DigitOf(c: byte): (d: nat)
  {
    if 48 <= c <= 57 then c - 48
    else if 97 <= c <= 102 then c - 87
    else if 65 <= c <= 70 then c - 55
    else 99
  }

  function Digits(s: seq<byte>, base: nat, n: nat): nat
  {
    if s == [] || DigitOf(s[0]) >= base then n else Digits(s[1..], base, n * base + DigitOf(s[0]))
  }

  /** A digit is worth its place in 0123456789abcdef, in either case, and nothing else is a digit. */
  lemma DigitOfExactly(c: byte, d: nat)
    requires d < 16
    ensures DigitOf(c) == d <==> c == (if d < 10 then 48 + d else 87 + d) || (d >= 10 && c == 55 + d)
  {
  }

  /** The bases that a prefix asks for, and what ends a number. */
  lemma StrtoulSpells()
    ensures Strtoul([48, 120, 49, 97, 70]) == 0x1af && Strtoul([48, 88, 50]) == 2
    ensures Strtoul([48, 54, 52, 52]) == 420 && Strtoul([48, 56]) == 0 && Strtoul([48]) == 0
    ensures Strtoul([49, 50, 97]) == 12 && Strtoul([]) == 0 && Strtoul([48, 120]) == 0
  {
    assert [48, 120, 49, 97, 70][2..] == [49, 97, 70] && [49, 97, 70][1..] == [97, 70] && [97, 70][1..] == [70];
    assert Digits([70], 16, 26) == 0x1af && Digits([97, 70], 16, 1) == Digits([70], 16, 26);
    assert [48, 88, 50][2..] == [50] && [50][1..] == [] && [48, 120][2..] == [];
    assert [48, 54, 52, 52][1..] == [54, 52, 52] && [54, 52, 52][1..] == [52, 52] && [52, 52][1..] == [52] && [52][1..] == [];
    assert Digits([52], 8, 52) == 420 && Digits([52, 52], 8, 6) == 420 && Digits([54, 52, 52], 8, 0) == 420;
    assert [48, 56][1..] == [56] && [48][1..] == [];
    assert [49, 50, 97][1..] == [50, 97] && [50, 97][1..] == [97];
    assert Digits([97], 10, 12) == 12 && Digits([50, 97], 10, 1) == 12;
  }

  lemma {:induction false} DigitsAppend(s: seq<byte>, t: seq<byte>, base: nat, n: nat)
    requires forall i :: 0 <= i < |s| ==> DigitOf(s[i]) < base
    ensures Digits(s + t, base, n) == Digits(t, base, Digits(s, base, n))
  {
    if s == [] {
      assert s + t == t;
    } else {
      DigitsAppend(s[1..], t, base, n * base + DigitOf(s[0]));
      assert (s + t)[1..] == s[1..] + t;
    }
  }

  lemma {:induction false} DigitsDecimal(n: nat)
    ensures Digits(Decimal(n), 10, 0) == n
  {
    if n >= 10 {
      DigitsDecimal(n / 10);
      DigitsAppend(Decimal(n / 10), [48 + n % 10], 10, 0);
      assert Digits([48 + n % 10], 10, n / 10) == n / 10 * 10 + n % 10;
    } else {
      assert Digits([48 + n], 10, 0) == n;
    }
  }

  lemma StrtoulDecimal(n: nat)
    ensures Strtoul(Decimal(n)) == n
  {
    DigitsDecimal(n);
    if Decimal(n)[0] == 48 {
      assert Digits([48], 8, 0) == 0;
    }
  }

  /** The position of the last comma, or the length. */
  function LastComma(s: seq<byte>): (k: nat)
    ensures k <= |s|
    ensures k < |s| ==> s[k] == COMMA && COMMA !in s[k + 1..]
    ensures k == |s| <==> COMMA !in s
  {
    if s == [] then 0
    else if s[|s| - 1] == COMMA then |s| - 1
    else
      var k := LastComma(s[..|s| - 1]);
      assert s == s[..|s| - 1] + [s[|s| - 1]];
      if k == |s| - 1 then |s| else k
  }

  datatype Target = Target(path: seq<byte>, mode: nat)

  const DEFAULT_MODE: nat := 420

  /** do_send: the mode is what follows the last comma, if there is one. */
  function Split(name: seq<byte>): (t: Target)
  {
    var k := LastComma(name);
    if k == |name| then Target(name, DEFAULT_MODE) else Target(name[..k], Strtoul(name[k + 1..]))
  }

  /** A name without a comma has the default mode, 0644. */
  lemma SplitBare(name: seq<byte>)
    requires 44 !in name
    ensures Split(name) == Target(name, 420)
  {
  }

  /** sync_send: rpath and ",%d". */
  function Name(path: seq<byte>, mode: nat): (s: seq<byte>)
  {
    path + [COMMA] + Decimal(mode)
  }

  /** The name splits back at the last comma, also when the path has commas. */
  lemma SplitName(path: seq<byte>, mode: nat)
    ensures Split(Name(path, mode)) == Target(path, mode)
  {
    var s := Name(path, mode);
    assert s[|path| + 1..] == Decimal(mode);
    LastCommaIs(s, |path|);
    assert s[..|path|] == path;
    StrtoulDecimal(mode);
  }

  lemma {:induction false} LastCommaIs(s: seq<byte>, k: nat)
    requires k < |s| && s[k] == COMMA && COMMA !in s[k + 1..]
    ensures LastComma(s) == k
  {
    var n := |s| - 1;
    if k < n {
      assert s[n] == s[k + 1..][n - k - 1];
      assert s[..n][k + 1..] == s[k + 1..][..n - k - 1];
      LastCommaIs(s[..n], k);
    }
  }
}
