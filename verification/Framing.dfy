/** Packets on a byte stream: the 24-byte header with its magic and checksum, written by
    send_packet and remote_write, read back by remote_read however the stream is cut into
    pieces. */
module Framing {
  import opened Bytes

  const WORD: nat := 0x1_0000_0000
  const MAX_PAYLOAD: nat := 4096
  const HEADER: nat := 24

  datatype Packet = Packet(command: nat, arg0: nat, arg1: nat, data: seq<byte>)

  ghost predicate Fits(p: Packet)
  {
    p.command < WORD && p.arg0 < WORD && p.arg1 < WORD && |p.data| <= MAX_PAYLOAD
  }

  /** An unsigned int in memory, lowest byte first. */
  function Word(n: nat): (s: seq<byte>)
    ensures |s| == 4
  {
    [n % 256, n / 256 % 256, n / 256 / 256 % 256, n / 256 / 256 / 256 % 256]
  }

  function Unword(s: seq<byte>): (n: nat)
    requires |s| == 4
    ensures n < WORD
  {
    (s[0] as int) + 256 * ((s[1] as int) + 256 * ((s[2] as int) + 256 * (s[3] as int)))
  }

  lemma UnwordWord(n: nat)
    requires n < WORD
    ensures Unword(Word(n)) == n
  {
  }

  lemma LowByte(d: byte, q: nat)
    ensures ((d as int) + 256 * q) % 256 == d && ((d as int) + 256 * q) / 256 == q
  {
  }

  lemma WordUnword(s: seq<byte>)
    requires |s| == 4
    ensures Word(Unword(s)) == s
  {
    var q3 := s[3] as int;
    var q2 := (s[2] as int) + 256 * q3;
    var q1 := (s[1] as int) + 256 * q2;
    LowByte(s[0], q1);
    LowByte(s[1], q2);
    LowByte(s[2], q3);
    assert q3 % 256 == s[3];
  }

  /** The sum of the payload's bytes. */
  function Sum(data: seq<byte>): (n: nat)
    ensures n <= 255 * |data|
  {
    if data == [] then 0 else Sum(data[..|data| - 1]) + data[|data| - 1]
  }

  /** It adds up over pieces, and a single byte counts for itself. */
  lemma {:induction false} SumAppend(x: seq<byte>, y: seq<byte>)
    ensures Sum(x + y) == Sum(x) + Sum(y)
    ensures |y| == 1 ==> Sum(y) == y[0]
  {
    if y == [] {
      assert x + y == x;
    } else {
      var k := |y| - 1;
      SumAppend(x, y[..k]);
      assert (x + y)[..|x| + k] == x + y[..k];
    }
  }

  /** command ^ 0xffffffff. */
  function Magic(command: nat): (m: nat)
    requires command < WORD
    ensures m < WORD
  {
    WORD - 1 - command
  }

  /** Bit `i` of a number. */
  function Bit(n: nat, i: nat): (b: nat)
  {
    if i == 0 then n % 2 else Bit(n / 2, i - 1)
  }

  function Pow2(w: nat): (p: nat)
    ensures p > 0
  {
    if w == 0 then 1 else 2 * Pow2(w - 1)
  }

  lemma {:induction false} BitsFlip(n: nat, w: nat, i: nat)
    requires n < Pow2(w) && i < w
    ensures Bit(Pow2(w) - 1 - n, i) == 1 - Bit(n, i)
    decreases w
  {
    var m := Pow2(w) - 1 - n;
    if i > 0 {
      assert m / 2 == Pow2(w - 1) - 1 - n / 2;
      BitsFlip(n / 2, w - 1, i - 1);
    }
  }

  lemma Pow2Word()
    ensures Pow2(32) == WORD
  {
    assert Pow2(8) == 256 by { assert Pow2(4) == 16; }
    assert Pow2(16) == 65536 by { assert Pow2(12) == 4096; }
    assert Pow2(24) == 65536 * 256 by { assert Pow2(20) == 65536 * 16; }
    assert Pow2(32) == WORD by { assert Pow2(28) == 65536 * 4096; }
  }

  /** The magic is the command with all its bits flipped. */
  lemma MagicFlips(command: nat, i: nat)
    requires command < WORD && i < 32
    ensures Bit(Magic(command), i) == 1 - Bit(command, i)
  {
    Pow2Word();
    BitsFlip(command, 32, i);
  }

  function Header(p: Packet): (s: seq<byte>)
    requires Fits(p)
    ensures |s| == HEADER
  {
    Word(p.command) + Word(p.arg0) + Word(p.arg1) + Word(|p.data|) + Word(Sum(p.data) % WORD)
      + Word(Magic(p.command))
  }

  /** What goes on the wire. */
  function Frame(p: Packet): (s: seq<byte>)
    requires Fits(p)
    ensures |s| == HEADER + |p.data|
  {
    Header(p) + p.data
  }

  datatype Read = Rejected | Packeted(p: Packet, rest: seq<byte>)

  /** remote_read on the bytes still to come: header, check_header, payload, check_data. */
  function ReadFrame(b: seq<byte>): (r: Read)
    ensures r.Packeted? ==> |r.rest| < |b| && Fits(r.p)
  {
    if |b| < HEADER then Rejected
    else
      var command, len, check, magic := Unword(b[..4]), Unword(b[12..16]), Unword(b[16..20]), Unword(b[20..24]);
      if magic != Magic(command) || len > MAX_PAYLOAD || |b| < HEADER + len then Rejected
      else
        var data := b[HEADER..HEADER + len];
        if Sum(data) % WORD != check then Rejected
        else Packeted(Packet(command, Unword(b[4..8]), Unword(b[8..12]), data), b[HEADER + len..])
  }

  lemma HeaderWords(p: Packet, rest: seq<byte>)
    requires Fits(p)
    ensures var b := Header(p) + rest;
            && b[..4] == Word(p.command) && b[4..8] == Word(p.arg0) && b[8..12] == Word(p.arg1)
            && b[12..16] == Word(|p.data|) && b[16..20] == Word(Sum(p.data) % WORD)
            && b[20..24] == Word(Magic(p.command)) && b[24..] == rest
  {
  }

  /** Reading undoes writing ... */
  lemma ReadWritten(p: Packet, rest: seq<byte>)
    requires Fits(p)
    ensures ReadFrame(Frame(p) + rest) == Packeted(p, rest)
  {
    var b := Frame(p) + rest;
    assert b == Header(p) + (p.data + rest);
    HeaderWords(p, p.data + rest);
    UnwordWord(p.command);
    UnwordWord(p.arg0);
    UnwordWord(p.arg1);
    UnwordWord(|p.data|);
    UnwordWord(Sum(p.data) % WORD);
    UnwordWord(Magic(p.command));
    assert b[HEADER..HEADER + |p.data|] == b[HEADER..][..|p.data|] == p.data;
    assert b[HEADER + |p.data|..] == b[HEADER..][|p.data|..] == rest;
  }

  /** ... and nothing is accepted but what send_packet could have written. */
  lemma WrittenRead(b: seq<byte>)
    requires ReadFrame(b).Packeted?
    ensures var r := ReadFrame(b); b == Frame(r.p) + r.rest
  {
    var r := ReadFrame(b);
    WordUnword(b[..4]);
    WordUnword(b[4..8]);
    WordUnword(b[8..12]);
    WordUnword(b[12..16]);
    WordUnword(b[16..20]);
    WordUnword(b[20..24]);
    assert b == b[..4] + b[4..8] + b[8..12] + b[12..16] + b[16..20] + b[20..24] + r.p.data + r.rest;
  }

  function Frames(ps: seq<Packet>): (s: seq<byte>)
    requires forall i :: 0 <= i < |ps| ==> Fits(ps[i])
  {
    if ps == [] then [] else Frame(ps[0]) + Frames(ps[1..])
  }

  datatype ReadList = Failed | Listed(ps: seq<Packet>)

  /** The pump: read packets until the stream ends. */
  function ReadFrames(b: seq<byte>): (r: ReadList)
    decreases |b|
  {
    if b == [] then Listed([])
    else
      match ReadFrame(b)
      case Rejected => Failed
      case Packeted(p, rest) =>
        match ReadFrames(rest)
        case Failed => Failed
        case Listed(ps) => Listed([p] + ps)
  }

  /** Any list of packets comes back as the same list. */
  lemma {:induction false} ReadFramesFrames(ps: seq<Packet>)
    requires forall i :: 0 <= i < |ps| ==> Fits(ps[i])
    ensures ReadFrames(Frames(ps)) == Listed(ps)
  {
    if ps != [] {
      ReadWritten(ps[0], Frames(ps[1..]));
      ReadFramesFrames(ps[1..]);
      ReadsOn(Frames(ps), ps[0], Frames(ps[1..]));
      assert ps == [ps[0]] + ps[1..];
    }
  }

  lemma ReadsOn(b: seq<byte>, p: Packet, rest: seq<byte>)
    requires ReadFrame(b) == Packeted(p, rest) && ReadFrames(rest).Listed?
    ensures ReadFrames(b) == Listed([p] + ReadFrames(rest).ps)
  {
  }

  // ---------------------------------------------------------------- the program

  /** What one adb_read or adb_write does: move some bytes, be interrupted, or fail. */
  datatype Io = Moved(n: nat) | Interrupted | Broken

  class Pipe {
    /** Bytes written and not yet read. */
    var bytes: seq<byte>

    constructor ()
      ensures bytes == []
    {
      bytes := [];
    }

    /** readx.  Where the script ends the rest arrives in one piece, or the stream has ended. */
    method Readx(len: nat, script: seq<Io>) returns (ok: bool, data: seq<byte>, used: nat)
      modifies this
      ensures used <= |script|
      ensures ok ==> len <= |old(bytes)| && data == old(bytes)[..len] && bytes == old(bytes)[len..]
      ensures !ok ==> Broken in script || Moved(0) in script || |old(bytes)| < len
    {
      data, used := [], 0;
      while |data| < len
        invariant |data| <= len && |data| <= |old(bytes)| && used <= |script|
        invariant data == old(bytes)[..|data|] && bytes == old(bytes)[|data|..]
        decreases len - |data|, |script| - used
      {
        var want := len - |data|;
        var n := if want < |bytes| then want else |bytes|;
        if used < |script| {
          var io := script[used];
          used := used + 1;
          if io.Interrupted? { continue; }
          if io.Broken? { return false, data, used; }
          if io.n < n { n := io.n; }
        }
        if n == 0 { return false, data, used; }
        data, bytes := data + bytes[..n], bytes[n..];
      }
      ok := true;
    }

    /** writex. */
    method Writex(data: seq<byte>, script: seq<Io>) returns (ok: bool)
      modifies this
      ensures ok ==> bytes == old(bytes) + data
      ensures !ok ==> Broken in script || Moved(0) in script
      ensures old(bytes) <= bytes <= old(bytes) + data
    {
      var done, used := 0, 0;
      while done < |data|
        invariant 0 <= done <= |data| && used <= |script|
        invariant bytes == old(bytes) + data[..done]
        decreases |data| - done, |script| - used
      {
        var n := |data| - done;
        if used < |script| {
          var io := script[used];
          used := used + 1;
          if io.Interrupted? { continue; }
          if io.Broken? { return false; }
          if io.n < n { n := io.n; }
        }
        if n == 0 { return false; }
        assert data[..done + n] == data[..done] + data[done..done + n];
        bytes := bytes + data[done..done + n];
        done := done + n;
      }
      ok := true;
    }

    /** send_packet followed by remote_write. */
    method Send(p: Packet, script: seq<Io>) returns (ok: bool)
      requires Fits(p)
      modifies this
      ensures ok ==> bytes == old(bytes) + Frame(p)
      ensures !ok ==> Broken in script || Moved(0) in script
    {
      var sum := Checksum(p.data);
      var header := Word(p.command) + Word(p.arg0) + Word(p.arg1) + Word(|p.data|) + Word(sum)
        + Word(Magic(p.command));
      ok := Writex(header + p.data, script);
    }

    /** The summing loops of send_packet and check_data, in unsigned arithmetic. */
    method Checksum(data: seq<byte>) returns (sum: nat)
      ensures sum == Sum(data) % WORD
    {
      sum := 0;
      for i := 0 to |data|
        invariant sum == Sum(data[..i]) % WORD
      {
        assert data[..i + 1][..i] == data[..i];
        sum := (sum + data[i]) % WORD;
      }
      assert data[..|data|] == data;
    }

    /** remote_read: on an undisturbed stream it reads what ReadFrame says, however the bytes
        arrive. */
    method Receive(script: seq<Io>) returns (r: Read)
      modifies this
      ensures r.Packeted? ==> r == ReadFrame(old(bytes)) && bytes == r.rest
      ensures r.Rejected? ==> ReadFrame(old(bytes)).Rejected? || Broken in script || Moved(0) in script
    {
      var b := bytes;
      var ok, h, used := Readx(HEADER, script);
      if !ok { return Rejected; }
      var command, len, check, magic := Unword(h[..4]), Unword(h[12..16]), Unword(h[16..20]), Unword(h[20..24]);
      assert h[..4] == b[..4] && h[4..8] == b[4..8] && h[8..12] == b[8..12];
      assert h[12..16] == b[12..16] && h[16..20] == b[16..20] && h[20..24] == b[20..24];
      if magic != Magic(command) || len > MAX_PAYLOAD { return Rejected; }
      var data;
      ok, data, used := Readx(len, script[used..]);
      if !ok { return Rejected; }
      assert data == b[HEADER..HEADER + len] && bytes == b[HEADER + len..];
      var sum := Checksum(data);
      if sum != check { return Rejected; }
      r := Packeted(Packet(command, Unword(h[4..8]), Unword(h[8..12]), data), bytes);
    }
  }
}
