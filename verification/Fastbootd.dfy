/** The device side of fastboot: command dispatch by prefix, acknowledgements, variables and the
    download loop. */
module Fastbootd {
  import opened Bytes
  import opened Hexadecimal

  const LIMIT: nat := 256 * 1024 * 1024
  const RESPONSE: nat := 64
  const WORD: nat := 0x1_0000_0000

  /** What snprintf puts into the 64-byte response buffer. */
  function Cut(s: seq<byte>): (r: seq<byte>)
    ensures |r| < RESPONSE
  {
    if |s| < RESPONSE then s else s[..RESPONSE - 1]
  }

  function Okay(info: seq<byte>): seq<byte> { Cut(Ascii("OKAY") + info) }

  function Fail(reason: string): seq<byte> { Cut(Ascii("FAIL") + Ascii(reason)) }

  function Data(len: nat): (s: seq<byte>)
    requires len < Pow16(8)
  {
    Ascii("DATA") + Hex(len, 8)
  }

  predicate IsStatus(r: seq<byte>)
  {
    |r| >= 4 && (r[..4] == Ascii("OKAY") || r[..4] == Ascii("FAIL"))
  }

  function Statuses(rs: seq<seq<byte>>): (n: nat)
  {
    if rs == [] then 0 else Statuses(rs[..|rs| - 1]) + if IsStatus(rs[|rs| - 1]) then 1 else 0
  }

  lemma StatusesSnoc(rs: seq<seq<byte>>, r: seq<byte>)
    ensures Statuses(rs + [r]) == Statuses(rs) + if IsStatus(r) then 1 else 0
  {
    assert (rs + [r])[..|rs|] == rs;
  }

  // ---------------------------------------------------------------- commands

  datatype Command =
    | Download(arg: seq<byte>)
    | Getvar(arg: seq<byte>)
    | Continue
    | Flash
    | Erase
    | Boot
    | Unknown

  predicate Starts(cmd: seq<byte>, prefix: string) { Ascii(prefix) <= cmd }

  /** commands_init prepends, so the last prefix registered is tried first. */
  function Classify(cmd: seq<byte>): (c: Command)
  {
    if Starts(cmd, "download:") then Download(cmd[9..])
    else if Starts(cmd, "getvar:") then Getvar(cmd[7..])
    else if Starts(cmd, "continue") then Continue
    else if Starts(cmd, "flash:") then Flash
    else if Starts(cmd, "erase:") then Erase
    else if Starts(cmd, "boot") then Boot
    else Unknown
  }

  /** strtoul with base 16 into a 32-bit unsigned long: an optional 0x, digits up to the first character that
      is none, and the largest number for what is too large. */
  function Strtoul16(s: seq<byte>): (n: nat)
    ensures n < WORD
  {
    var prefixed := |s| >= 3 && s[0] == 48 && (s[1] == 120 || s[1] == 88) && DigitValue(s[2]) < 16;
    var n := HexPrefix(if prefixed then s[2..] else s, 0);
    if n < WORD then n else WORD - 1
  }

  /** What was printed with eight digits is parsed back. */
  lemma StrtoulHex(n: nat)
    requires n < Pow16(8)
    ensures Strtoul16(Hex(n, 8)) == n
  {
    EightDigits();
    HexPrefixHex(n, 8);
    assert DigitValue(Hex(n, 8)[1]) < 16 && DigitValue(120) == 16 && DigitValue(88) == 16;
  }

  /** So is a number behind 0x or 0X, in front of something else, or too large. */
  lemma StrtoulOthers(n: nat, x: byte, rest: seq<byte>)
    requires n < Pow16(8)
    ensures (x == 120 || x == 88) ==> Strtoul16([48, x] + Hex(n, 8)) == n
    ensures DigitValue(x) == 16 ==> Strtoul16(Hex(n, 8) + [x] + rest) == n
    ensures n >= Pow16(7) && DigitValue(x) < 16 ==> Strtoul16(Hex(n, 8) + [x]) == WORD - 1
  {
    EightDigits();
    HexPrefixHex(n, 8);
    var s := Hex(n, 8);
    if x == 120 || x == 88 {
      assert ([48, x] + s)[2..] == s && DigitValue(([48, x] + s)[2]) < 16;
    }
    if DigitValue(x) == 16 {
      HexPrefixStops(s, [x] + rest, 0);
      assert s + [x] + rest == s + ([x] + rest) && (s + [x] + rest)[1] == s[1];
      assert DigitValue(s[1]) < 16 && DigitValue(120) == 16 && DigitValue(88) == 16;
    }
    if n >= Pow16(7) && DigitValue(x) < 16 {
      HexPrefixAppend(s, x, 0);
      assert Pow16(8) == 16 * Pow16(7) && (s + [x])[1] == s[1];
      assert DigitValue(s[1]) < 16 && DigitValue(120) == 16 && DigitValue(88) == 16;
    }
  }

  lemma {:induction false} HexPrefixStops(s: seq<byte>, rest: seq<byte>, n: nat)
    requires forall i :: 0 <= i < |s| ==> DigitValue(s[i]) < 16
    requires rest != [] && DigitValue(rest[0]) == 16
    ensures HexPrefix(s + rest, n) == HexPrefix(s, n)
  {
    if s == [] {
      assert s + rest == rest;
    } else {
      HexPrefixStops(s[1..], rest, 16 * n + DigitValue(s[0]));
      assert (s + rest)[1..] == s[1..] + rest;
    }
  }

  function HexPrefix(s: seq<byte>, n: nat): nat
  {
    if s == [] || DigitValue(s[0]) == 16 then n else HexPrefix(s[1..], 16 * n + DigitValue(s[0]))
  }

  lemma {:induction false} HexPrefixAppend(s: seq<byte>, c: byte, n: nat)
    requires forall i :: 0 <= i < |s| ==> DigitValue(s[i]) < 16
    requires DigitValue(c) < 16
    ensures HexPrefix(s + [c], n) == 16 * HexPrefix(s, n) + DigitValue(c)
  {
    if s == [] {
      assert s + [c] == [c] && [c][1..] == [];
    } else {
      HexPrefixAppend(s[1..], c, 16 * n + DigitValue(s[0]));
      assert (s + [c])[1..] == s[1..] + [c];
    }
  }

  lemma {:induction false} HexPrefixHex(n: nat, w: nat)
    requires n < Pow16(w)
    ensures HexPrefix(Hex(n, w), 0) == n
    ensures forall i :: 0 <= i < w ==> DigitValue(Hex(n, w)[i]) < 16
  {
    if w > 0 {
      HexPrefixHex(n / 16, w - 1);
      assert DigitValue(Digit(n % 16)) == n % 16;
      HexPrefixAppend(Hex(n / 16, w - 1), Digit(n % 16), 0);
    }
  }

  // ---------------------------------------------------------------- what a command does

  datatype State = Offline | InCommand | Complete

  datatype Var = Var(name: seq<byte>, value: seq<byte>)

  datatype Held = Nothing | Held(data: seq<byte>)

  /** What a download of `len` bytes gets from the transport.  `pieces` are what its reads return, an empty one
      standing for a failure; a read never returns more than it is asked for. */
  function Got(len: nat, pieces: seq<seq<byte>>): (got: seq<byte>)
    ensures |got| <= len
  {
    if len == 0 || pieces == [] || pieces[0] == [] then []
    else
      var n := if |pieces[0]| < len then |pieces[0]| else len;
      pieces[0][..n] + Got(len - n, pieces[1..])
  }

  function Flat(ps: seq<seq<byte>>): (s: seq<byte>)
  {
    if ps == [] then [] else ps[0] + Flat(ps[1..])
  }

  /** It gets the bytes in order ... */
  lemma {:induction false} GotInOrder(len: nat, pieces: seq<seq<byte>>)
    ensures Got(len, pieces) <= Flat(pieces)
  {
    if len > 0 && pieces != [] && pieces[0] != [] {
      var p, more := pieces[0], Flat(pieces[1..]);
      assert Flat(pieces) == p + more;
      if |p| < len {
        GotInOrder(len - |p|, pieces[1..]);
        assert p[..|p|] == p && Got(len, pieces) == p + Got(len - |p|, pieces[1..]);
        LongerPrefix(p, Got(len - |p|, pieces[1..]), more);
      } else {
        assert p[..len] + [] == p[..len] && Got(len, pieces) == p[..len];
        CutPrefix(p, len, more);
      }
    }
  }

  lemma LongerPrefix(p: seq<byte>, x: seq<byte>, y: seq<byte>)
    requires x <= y
    ensures p + x <= p + y
  {
  }

  lemma CutPrefix(p: seq<byte>, n: nat, y: seq<byte>)
    requires n <= |p|
    ensures p[..n] <= p + y
  {
  }

  /** ... and all of them exactly if enough come before a read fails. */
  lemma {:induction false} GotExactly(len: nat, pieces: seq<seq<byte>>)
    requires [] !in pieces
    ensures |Got(len, pieces)| == len <==> |Flat(pieces)| >= len
  {
    if len > 0 && pieces != [] {
      var p, more := pieces[0], pieces[1..];
      var n := if |p| < len then |p| else len;
      assert [] !in more && p != [];
      GotExactly(len - n, more);
      assert Got(len, pieces) == p[..n] + Got(len - n, more) && Flat(pieces) == p + Flat(more);
    }
  }

  /** The answers to a command, whether the transport is still open, and the download that is kept. */
  datatype Round = Round(said: seq<seq<byte>>, stays: bool, held: Held)

  /** What a download meets: whether its temporary file can be made, and what its reads return. */
  datatype Supply = Supply(temp: bool, pieces: seq<seq<byte>>)

  /** protocol_handle_command with the handlers of commands.c, when no command is in progress.  A download
      that breaks off closes the transport before it says so, and is not heard; one without a temporary file
      says so, and leaves its data unread. */
  function Handled(cmd: seq<byte>, supply: Supply, vars: seq<Var>, held: Held): (r: Round)
  {
    match Classify(cmd)
    case Unknown => Round([], true, held)
    case Download(arg) =>
      var len := Strtoul16(arg);
      if len > LIMIT then Round([Fail("data too large")], true, held)
      else
        EightDigits();
        var got := Got(len, supply.pieces);
        if !supply.temp then Round([Data(len), Fail("download failed")], true, Nothing)
        else if |got| == len then Round([Data(len), Okay([])], true, Held(got)) else Round([Data(len)], false, Nothing)
    case Getvar(arg) => Round([Okay(Lookup(vars, arg))], true, held)
    case Continue => Round([Okay([])], true, held)
    case Flash => Round([Okay([])], true, held)
    case Erase => Round([Fail("unknown reason")], true, held)
    case Boot => Round([Fail("unknown reason")], true, held)
  }

  /** An accepted download whose reads fail before all of it has come. */
  predicate BreaksOff(cmd: seq<byte>, supply: Supply)
  {
    var c := Classify(cmd);
    c.Download? && Strtoul16(c.arg) <= LIMIT && supply.temp && |Got(Strtoul16(c.arg), supply.pieces)| < Strtoul16(c.arg)
  }

  /** The host gets exactly one OKAY or FAIL if and only if the command is known and is no download that
      breaks off; otherwise it gets none. */
  lemma {:induction false} OneStatusExactly(cmd: seq<byte>, supply: Supply, vars: seq<Var>, held: Held)
    ensures var r := Handled(cmd, supply, vars, held);
            && Statuses(r.said) == (if Classify(cmd) == Unknown || BreaksOff(cmd, supply) then 0 else 1)
            && (r.stays <==> !BreaksOff(cmd, supply))
  {
    match Classify(cmd)
    case Unknown =>
    case Download(arg) =>
      var len := Strtoul16(arg);
      if len > LIMIT {
        FailIsStatus("data too large");
        StatusesOne(Fail("data too large"));
      } else {
        EightDigits();
        DataThen(len, if supply.temp then Okay([]) else Fail("download failed"));
        OkayIsStatus([]);
        FailIsStatus("download failed");
      }
    case Getvar(arg) =>
      OkayIsStatus(Lookup(vars, arg));
      StatusesOne(Okay(Lookup(vars, arg)));
    case Continue =>
      OkayIsStatus([]);
      StatusesOne(Okay([]));
    case Flash =>
      OkayIsStatus([]);
      StatusesOne(Okay([]));
    case Erase =>
      FailIsStatus("unknown reason");
      StatusesOne(Fail("unknown reason"));
    case Boot =>
      FailIsStatus("unknown reason");
      StatusesOne(Fail("unknown reason"));
  }

  lemma DataThen(len: nat, r: seq<byte>)
    requires DigitsFit(len)
    ensures Statuses([Data(len)]) == 0 && Statuses([Data(len), r]) == if IsStatus(r) then 1 else 0
  {
    DataIsNoStatus(len);
    StatusesOne(Data(len));
    StatusesSnoc([Data(len)], r);
    assert [Data(len)] + [r] == [Data(len), r];
  }

  /** What the commands other than download are answered. */
  lemma AnswersExactly(rest: seq<byte>, supply: Supply, vars: seq<Var>, held: Held)
    ensures Handled(Ascii("getvar:") + rest, supply, vars, held) ==
            Round([Cut(Ascii("OKAY") + Lookup(vars, rest))], true, held)
    ensures Handled(Ascii("continue") + rest, supply, vars, held) == Round([Ascii("OKAY")], true, held)
    ensures Handled(Ascii("flash:") + rest, supply, vars, held) == Round([Ascii("OKAY")], true, held)
    ensures Handled(Ascii("erase:") + rest, supply, vars, held) == Round([Ascii("FAILunknown reason")], true, held)
    ensures Handled(Ascii("boot") + rest, supply, vars, held) == Round([Ascii("FAILunknown reason")], true, held)
  {
    FirstLetters(rest);
    assert (Ascii("getvar:") + rest)[7..] == rest;
    ResponsesSpell();
  }

  lemma ResponsesSpell()
    ensures Okay([]) == Ascii("OKAY") && Fail("unknown reason") == Ascii("FAILunknown reason")
  {
    assert Ascii("OKAY") + [] == Ascii("OKAY");
    assert "FAIL" + "unknown reason" == "FAILunknown reason";
    assert Ascii("FAIL") + Ascii("unknown reason") == Ascii("FAILunknown reason");
  }

  /** A command is unknown exactly if it starts with none of the words. */
  lemma UnknownExactly(cmd: seq<byte>)
    ensures Classify(cmd) == Unknown <==>
            !(|| Ascii("download:") <= cmd || Ascii("getvar:") <= cmd || Ascii("continue") <= cmd
              || Ascii("flash:") <= cmd || Ascii("erase:") <= cmd || Ascii("boot") <= cmd)
  {
  }

  lemma OtherLetter(word: string, cmd: seq<byte>)
    requires word != "" && cmd != [] && Ascii(word)[0] != cmd[0]
    ensures !(Ascii(word) <= cmd)
  {
  }

  /** No two commands start with the same letter. */
  lemma FirstLetters(rest: seq<byte>)
    ensures Classify(Ascii("getvar:") + rest) == Getvar((Ascii("getvar:") + rest)[7..])
    ensures Classify(Ascii("continue") + rest) == Continue && Classify(Ascii("flash:") + rest) == Flash
    ensures Classify(Ascii("erase:") + rest) == Erase && Classify(Ascii("boot") + rest) == Boot
  {
    Letter("getvar:", 103, rest);
    Letter("continue", 99, rest);
    Letter("flash:", 102, rest);
    Letter("erase:", 101, rest);
    Letter("boot", 98, rest);
  }

  lemma Letter(word: string, c: byte, rest: seq<byte>)
    requires word in {"getvar:", "continue", "flash:", "erase:", "boot"} && Ascii(word)[0] == c
    ensures var cmd := Ascii(word) + rest;
            && Ascii(word) <= cmd && cmd[0] == c
            && (c != 100 ==> !Starts(cmd, "download:")) && (c != 103 ==> !Starts(cmd, "getvar:"))
            && (c != 99 ==> !Starts(cmd, "continue")) && (c != 102 ==> !Starts(cmd, "flash:"))
            && (c != 101 ==> !Starts(cmd, "erase:")) && (c != 98 ==> !Starts(cmd, "boot"))
  {
    var cmd := Ascii(word) + rest;
    if c != 100 { OtherLetter("download:", cmd); }
    if c != 103 { OtherLetter("getvar:", cmd); }
    if c != 99 { OtherLetter("continue", cmd); }
    if c != 102 { OtherLetter("flash:", cmd); }
    if c != 101 { OtherLetter("erase:", cmd); }
    if c != 98 { OtherLetter("boot", cmd); }
  }

  lemma StatusesOne(r: seq<byte>)
    ensures Statuses([r]) == if IsStatus(r) then 1 else 0
  {
    StatusesSnoc([], r);
    assert [] + [r] == [r];
  }

  lemma {:induction false} StatusesAppend(x: seq<seq<byte>>, y: seq<seq<byte>>)
    ensures Statuses(x + y) == Statuses(x) + Statuses(y)
  {
    if y == [] {
      assert x + y == x;
    } else {
      var k := |y| - 1;
      StatusesAppend(x, y[..k]);
      StatusesSnoc(x + y[..k], y[k]);
      assert x + y == (x + y[..k]) + [y[k]];
    }
  }

  /** Four bytes are announced and two come: DATA is said, and nothing after it. */
  lemma ShortDownload(cmd: seq<byte>, vars: seq<Var>, held: Held)
    requires DigitsFit(4) && cmd == Ascii("download:") + Hex(4, 8)
    ensures Handled(cmd, Supply(true, [[1, 2], []]), vars, held) == Round([Data(4)], false, Nothing)
  {
    assert Ascii("download:") <= cmd && cmd[9..] == Hex(4, 8);
    StrtoulHex(4);
    var ps: seq<seq<byte>> := [[1, 2], []];
    assert ps[1..] == [[]] && ps[0][..2] == [1, 2];
    assert Got(4, ps) == [1, 2] + Got(2, ps[1..]);
  }

  // ---------------------------------------------------------------- the program

  /** One read. */
  ghost predicate ReadsOne(got: (nat, seq<seq<byte>>) -> seq<byte>, len: nat, ps: seq<seq<byte>>)
  {
    got(len, ps) ==
    if len == 0 || ps == [] || ps[0] == [] then []
    else
      var n := if |ps[0]| < len then |ps[0]| else len;
      ps[0][..n] + got(len - n, ps[1..])
  }

  /** The loop of transport_handle_download. */
  method ReadLoop(len: nat, pieces: seq<seq<byte>>, ghost got: (nat, seq<seq<byte>>) -> seq<byte>) returns (data: seq<byte>)
    requires forall n: nat, ps :: ReadsOne(got, n, ps)
    ensures data == got(len, pieces)
  {
    var left: nat, ps := len, pieces;
    data := [];
    assert [] + got(len, pieces) == got(len, pieces);
    while left > 0
      invariant got(len, pieces) == data + got(left, ps)
      decreases |ps|
    {
      assert ReadsOne(got, left, ps);
      if ps == [] || ps[0] == [] { break; }
      var n := if |ps[0]| < left then |ps[0]| else left;
      assert data + (ps[0][..n] + got(left - n, ps[1..])) == data + ps[0][..n] + got(left - n, ps[1..]);
      data, left, ps := data + ps[0][..n], left - n, ps[1..];
    }
    assert ReadsOne(got, left, ps) && data + [] == data;
  }

  class Protocol {
    var state: State
    /** Responses that reached the host. */
    var out: seq<seq<byte>>
    var download: Held
    var vars: seq<Var>
    /** The endpoints are open. */
    var connected: bool

    constructor ()
      ensures state == Offline && out == [] && download == Nothing && vars == [] && connected
    {
      state, out, download, vars, connected := Offline, [], Nothing, [], true;
    }

    /** fastboot_publish: the newest comes first. */
    method Publish(name: seq<byte>, value: seq<byte>)
      modifies this`vars
      ensures vars == [Var(name, value)] + old(vars)
      ensures forall n :: Lookup(vars, n) == if n == name then value else Lookup(old(vars), n)
    {
      vars := [Var(name, value)] + vars;
    }

    /** fastboot_getvar: the newest value published under a name, or nothing. */
    method GetValue(name: seq<byte>) returns (value: seq<byte>)
      ensures value == Lookup(vars, name)
    {
      var i := 0;
      assert vars[0..] == vars;
      while i < |vars|
        invariant i <= |vars| && Lookup(vars, name) == Lookup(vars[i..], name)
      {
        if vars[i].name == name { return vars[i].value; }
        assert vars[i..][1..] == vars[i + 1..];
        i := i + 1;
      }
      value := [];
    }

    /** transport_handle_write: nothing gets through closed endpoints. */
    method Send(response: seq<byte>)
      modifies this`out
      ensures out == if connected then old(out) + [response] else old(out)
    {
      if connected { out := out + [response]; }
    }

    /** fastboot_ack: only a command in progress is acknowledged, once. */
    method Ack(response: seq<byte>)
      modifies this`state, this`out
      ensures old(state) == InCommand ==>
                state == Complete && out == if connected then old(out) + [response] else old(out)
      ensures old(state) != InCommand ==> state == old(state) && out == old(out)
    {
      if state != InCommand { return; }
      state := Complete;
      Send(response);
    }

    /** transport_handle_download: mkstemp, the read loop, and the close when the loop fails. */
    method ReceiveData(len: nat, supply: Supply) returns (r: Held)
      modifies this`connected
      ensures var got := Got(len, supply.pieces);
              if !supply.temp then r == Nothing && connected == old(connected)
              else if |got| == len then r == Held(got) && connected == old(connected)
              else r == Nothing && !connected
    {
      if !supply.temp { return Nothing; }
      var data := ReadLoop(len, supply.pieces, Got);
      if |data| != len {
        connected := false;
        return Nothing;
      }
      r := Held(data);
    }

    /** protocol_handle_command: while no command is in progress, on a transport from which the command was
        just read. */
    method HandleCommand(cmd: seq<byte>, supply: Supply)
      requires state != InCommand && connected
      modifies this
      ensures vars == old(vars)
      ensures state == if Classify(cmd) == Unknown then old(state) else Complete
      ensures var r := Handled(cmd, supply, vars, old(download));
              out == old(out) + r.said && connected == r.stays && download == r.held
    {
      var c := Classify(cmd);
      if c == Unknown {
        Ack(Fail("unknown command"));
        return;
      }
      state := InCommand;
      match c {
        case Download(arg) => RunDownload(arg, supply);
        case Getvar(arg) =>
          var value := GetValue(arg);
          Ack(Okay(value));
        case Continue => Ack(Okay([]));
        case Flash => Ack(Okay([]));
        case Erase =>
        case Boot =>
      }
      if state == InCommand { Ack(Fail("unknown reason")); }
    }

    /** cmd_download. */
    method RunDownload(arg: seq<byte>, supply: Supply)
      requires state == InCommand && connected
      modifies this`state, this`out, this`download, this`connected
      ensures state == Complete
      ensures var len, got := Strtoul16(arg), Got(Strtoul16(arg), supply.pieces);
              if len > LIMIT then
                out == old(out) + [Fail("data too large")] && connected && download == old(download)
              else
                && DigitsFit(len)
                && if !supply.temp then
                     out == old(out) + [Data(len), Fail("download failed")] && connected && download == Nothing
                   else if |got| == len then out == old(out) + [Data(len), Okay([])] && connected && download == Held(got)
                   else out == old(out) + [Data(len)] && !connected && download == Nothing
    {
      var len := Strtoul16(arg);
      if len > LIMIT {
        Ack(Fail("data too large"));
        return;
      }
      EightDigits();
      Send(Data(len));
      download := ReceiveData(len, supply);
      Ack(if download == Nothing then Fail("download failed") else Okay([]));
    }

    /** One round of transport_data_thread. */
    method ServeCommand(cmd: seq<byte>, supply: Supply)
      requires state != InCommand && connected
      modifies this
      ensures state != InCommand && vars == old(vars) && (connected <==> !BreaksOff(cmd, supply))
      ensures Statuses(out) == Statuses(old(out)) + (if Classify(cmd) == Unknown then 0 else 1) - if connected then 0 else 1
    {
      OneStatusExactly(cmd, supply, vars, download);
      StatusesAppend(out, Handled(cmd, supply, vars, download).said);
      HandleCommand(cmd, supply);
    }

    /** transport_data_thread: commands one after the other, each with what its download would meet, until the
        transport is closed.  In every session the host gets one OKAY or FAIL for each known command, save
        for a download that breaks off, which is then the last. */
    method ServeCommands(cmds: seq<seq<byte>>, supplies: seq<Supply>) returns (k: nat)
      requires |supplies| == |cmds|
      requires state != InCommand && connected
      modifies this
      ensures state != InCommand && vars == old(vars) && k <= |cmds|
      ensures k < |cmds| ==> !connected
      ensures forall i :: 0 <= i < k - 1 ==> !BreaksOff(cmds[i], supplies[i])
      ensures connected <==> k == 0 || !BreaksOff(cmds[k - 1], supplies[k - 1])
      ensures Statuses(out) == Statuses(old(out)) + Known(cmds[..k]) - if connected then 0 else 1
    {
      ghost var bs := seq(|cmds|, i requires 0 <= i < |cmds| => BreaksOff(cmds[i], supplies[i]));
      ghost var ks := seq(|cmds|, i requires 0 <= i < |cmds| => Classify(cmds[i]) != Unknown);
      k := CommandLoop(cmds, supplies, bs, ks);
      KnownCounts(cmds, ks, k);
      forall i | 0 <= i < k - 1 ensures !BreaksOff(cmds[i], supplies[i]) { assert !bs[i]; }
    }

    /** Its loop; `bs` and `ks` say of each command whether it breaks off and whether it is known. */
    method CommandLoop(cmds: seq<seq<byte>>, supplies: seq<Supply>, ghost bs: seq<bool>, ghost ks: seq<bool>)
      returns (k: nat)
      requires |supplies| == |bs| == |ks| == |cmds| && forall i | 0 <= i < |cmds| :: Describes(cmds, supplies, bs, ks, i)
      requires state != InCommand && connected
      modifies this
      ensures state != InCommand && vars == old(vars) && k <= |cmds|
      ensures k < |cmds| ==> !connected
      ensures forall i :: 0 <= i < k - 1 ==> !bs[i]
      ensures connected <==> k == 0 || !bs[k - 1]
      ensures Statuses(out) == Statuses(old(out)) + Trues(ks[..k]) - if connected then 0 else 1
    {
      k := 0;
      while k < |cmds| && connected
        invariant k <= |cmds| && state != InCommand && vars == old(vars)
        invariant forall i :: 0 <= i < k - 1 ==> !bs[i]
        invariant connected <==> k == 0 || !bs[k - 1]
        invariant Statuses(out) == Statuses(old(out)) + Trues(ks[..k]) - if connected then 0 else 1
      {
        ServeNth(cmds, supplies, bs, ks, k);
        assert ks[..k + 1][..k] == ks[..k];
        k := k + 1;
      }
    }

    method ServeNth(cmds: seq<seq<byte>>, supplies: seq<Supply>, ghost bs: seq<bool>, ghost ks: seq<bool>, k: nat)
      requires |supplies| == |bs| == |ks| == |cmds| && forall i | 0 <= i < |cmds| :: Describes(cmds, supplies, bs, ks, i)
      requires k < |cmds| && state != InCommand && connected
      modifies this
      ensures state != InCommand && vars == old(vars) && (connected <==> !bs[k])
      ensures Statuses(out) == Statuses(old(out)) + (if ks[k] then 1 else 0) - if connected then 0 else 1
    {
      assert Describes(cmds, supplies, bs, ks, k);
      ServeCommand(cmds[k], supplies[k]);
    }
  }

  ghost predicate Describes(cmds: seq<seq<byte>>, supplies: seq<Supply>, bs: seq<bool>, ks: seq<bool>, i: nat)
    requires |supplies| == |bs| == |ks| == |cmds| && i < |cmds|
  {
    (bs[i] <==> BreaksOff(cmds[i], supplies[i])) && (ks[i] <==> Classify(cmds[i]) != Unknown)
  }

  function Trues(bs: seq<bool>): (n: nat)
  {
    if bs == [] then 0 else Trues(bs[..|bs| - 1]) + if bs[|bs| - 1] then 1 else 0
  }

  /** How many of the commands have a handler. */
  function Known(cmds: seq<seq<byte>>): (n: nat)
  {
    if cmds == [] then 0
    else Known(cmds[..|cmds| - 1]) + if Classify(cmds[|cmds| - 1]) == Unknown then 0 else 1
  }

  lemma {:induction false} KnownCounts(cmds: seq<seq<byte>>, ks: seq<bool>, k: nat)
    requires |ks| == |cmds| && k <= |cmds| && forall i :: 0 <= i < |cmds| ==> (ks[i] <==> Classify(cmds[i]) != Unknown)
    ensures Known(cmds[..k]) == Trues(ks[..k])
    decreases k
  {
    if k > 0 {
      KnownCounts(cmds, ks, k - 1);
      assert cmds[..k][..k - 1] == cmds[..k - 1] && ks[..k][..k - 1] == ks[..k - 1];
    }
  }

  function Lookup(vars: seq<Var>, name: seq<byte>): (value: seq<byte>)
  {
    if vars == [] then [] else if vars[0].name == name then vars[0].value else Lookup(vars[1..], name)
  }

  /** The newest value of a name counts. */
  lemma LookupNewest(vars: seq<Var>, name: seq<byte>, value: seq<byte>, other: seq<byte>)
    ensures Lookup([], other) == []
    ensures Lookup([Var(name, value)] + vars, other) == if other == name then value else Lookup(vars, other)
  {
    assert ([Var(name, value)] + vars)[1..] == vars;
  }

  predicate DigitsFit(len: nat) { len < Pow16(8) }

  lemma EightDigits()
    ensures Pow16(8) == WORD
  {
    assert Pow16(4) == 65536 by { assert Pow16(2) == 256; }
    assert Pow16(6) == 65536 * 256 by { assert Pow16(5) == 65536 * 16; }
    assert Pow16(8) == 16 * Pow16(7);
  }

  lemma OkayIsStatus(info: seq<byte>)
    ensures IsStatus(Okay(info))
  {
    var s := Ascii("OKAY") + info;
    assert Okay(info)[..4] == s[..4] == Ascii("OKAY");
  }

  lemma FailIsStatus(reason: string)
    ensures IsStatus(Fail(reason))
  {
    var s := Ascii("FAIL") + Ascii(reason);
    assert Fail(reason)[..4] == s[..4] == Ascii("FAIL");
  }

  lemma DataIsNoStatus(len: nat)
    requires len < Pow16(8)
    ensures !IsStatus(Data(len))
  {
    assert Data(len)[..4] == Ascii("DATA");
    assert Ascii("DATA")[0] == 68 && Ascii("OKAY")[0] == 79 && Ascii("FAIL")[0] == 70;
  }
}
