/** A fastboot download with both sides: fb_download_data on the host, cmd_download on the device,
    a lossless link between them, the device reading in pieces of any size. */
module FastbootSession {
  import opened Bytes
  import opened Hexadecimal
  import opened Fastbootd

  datatype Stage = Begin | AwaitData | SendData | AwaitEnd | Success | Failure

  /** The device waits for a command, or is in its download loop. */
  datatype Device = Idle | Reading(len: nat, got: seq<byte>)

  /** `link` are transfers on their way to the device, `replies` responses on their way to the host;
      `log` all responses so far; `offered` whether the host has sent the data; `temp` whether the device
      can make a temporary file. */
  datatype System = System(data: seq<byte>, temp: bool, h: Stage, d: Device, link: seq<seq<byte>>, replies: seq<seq<byte>>,
                           held: Held, log: seq<seq<byte>>, offered: bool)

  /** "download:%08x". */
  function DownloadCommand(size: nat): (s: seq<byte>)
    requires size < WORD
  {
    EightDigits();
    Ascii("download:") + Hex(size, 8)
  }

  /** What goes over the wire for four bytes. */
  lemma CommandSpells()
    ensures DigitsFit(4) && DownloadCommand(4) == Ascii("download:00000004") && Data(4) == Ascii("DATA00000004")
  {
    EightDigits();
    FourIn(8);
    assert "download:00000004" == "download:" + "00000004" && "DATA00000004" == "DATA" + "00000004";
    assert Ascii("download:00000004") == Ascii("download:") + Ascii("00000004");
    assert Ascii("DATA00000004") == Ascii("DATA") + Ascii("00000004");
    assert Hex(4, 8) == Ascii("00000004");
  }

  lemma {:induction false} FourIn(w: nat)
    requires w > 0 && 4 < Pow16(w)
    ensures forall i :: 0 <= i < w ==> Hex(4, w)[i] == if i == w - 1 then 52 else 48
  {
    NoughtIn(w - 1);
  }

  lemma {:induction false} NoughtIn(w: nat)
    ensures forall i :: 0 <= i < w ==> Hex(0, w)[i] == 48
  {
    if w > 0 { NoughtIn(w - 1); }
  }

  /** The first number that is negative as an int. */
  const INT_LIMIT: nat := 0x8000_0000

  /** What check_response makes of a response: its return value, or that it reads on. */
  datatype Checked = Again | Accepted | Rejected

  function Check(r: seq<byte>, size: nat): (c: Checked)
  {
    if |r| < 4 then Rejected
    else if r[..4] == Ascii("INFO") then Again
    else if r[..4] == Ascii("OKAY") then Accepted
    else if r[..4] == Ascii("FAIL") then Rejected
    else if r[..4] == Ascii("DATA") && size > 0 then
      var dsize := Strtoul16(r[4..]);
      // the size is handed back as an int, and a negative one is taken for an error
      if dsize > size || dsize >= INT_LIMIT then Rejected else Accepted
    else Rejected
  }

  /** The verdict of the first response that is not INFO; running out of responses is a failed read. */
  function Answer(rs: seq<seq<byte>>, size: nat): (c: Checked)
  {
    if rs == [] then Rejected
    else if Check(rs[0], size).Again? then Answer(rs[1..], size)
    else Check(rs[0], size)
  }

  function Unread(rs: seq<seq<byte>>, size: nat): (rest: seq<seq<byte>>)
  {
    if rs == [] then [] else if Check(rs[0], size).Again? then Unread(rs[1..], size) else rs[1..]
  }

  /** A response is passed over exactly if it starts with INFO; it is good exactly if it starts with OKAY, or with
      DATA and a size that was asked for, no larger than that and no negative int. */
  lemma CheckExactly(r: seq<byte>, size: nat)
    ensures Check(r, size) == Again <==> Ascii("INFO") <= r
    ensures Check(r, size) == Accepted <==>
            || Ascii("OKAY") <= r
            || (Ascii("DATA") <= r && size > 0 && Strtoul16(r[4..]) <= size && Strtoul16(r[4..]) < 0x8000_0000)
  {
    assert Ascii("DATA")[0] == 68 && Ascii("OKAY")[0] == 79 && Ascii("FAIL")[0] == 70 && Ascii("INFO")[0] == 73;
  }

  /** Notices do not count: the verdict is that of what follows them. */
  lemma InfoIsSkipped(text: seq<byte>, rs: seq<seq<byte>>, size: nat)
    ensures var info := Ascii("INFO") + text;
            Answer([info] + rs, size) == Answer(rs, size) && Unread([info] + rs, size) == Unread(rs, size)
  {
    var info := Ascii("INFO") + text;
    assert info[..4] == Ascii("INFO") && ([info] + rs)[1..] == rs;
  }

  /** The host program: what the device will have answered, and what was written to it. */
  class Host {
    var incoming: seq<seq<byte>>
    var sent: seq<seq<byte>>

    /** check_response. */
    method CheckResponse(size: nat) returns (ok: bool)
      modifies this`incoming
      ensures ok == Answer(old(incoming), size).Accepted?
      ensures incoming == Unread(old(incoming), size)
    {
      while incoming != []
        invariant Answer(incoming, size) == Answer(old(incoming), size)
        invariant Unread(incoming, size) == Unread(old(incoming), size)
        decreases |incoming|
      {
        var c := Check(incoming[0], size);
        incoming := incoming[1..];
        if c != Again { return c.Accepted?; }
      }
      ok := false;
    }

    /** fb_download_data: the data follow the command only when the device invited them.  A length that is
        negative as an int moves nothing and counts as a short transfer. */
    method DownloadData(data: seq<byte>) returns (ok: bool)
      requires |data| < WORD
      modifies this
      ensures data == [] ==> !ok && sent == old(sent) && incoming == old(incoming)
      ensures data != [] ==>
                var invited := Answer(old(incoming), |data|).Accepted? && |data| < INT_LIMIT;
                && sent == old(sent) + [DownloadCommand(|data|)] + (if invited then [data] else [])
                && ok == (invited && Answer(Unread(old(incoming), |data|), 0).Accepted?)
    {
      if data == [] { return false; }
      sent := sent + [DownloadCommand(|data|)];
      ok := CheckResponse(|data|);
      if !ok { return; }
      if |data| >= INT_LIMIT { return false; }
      sent := sent + [data];
      ok := CheckResponse(0);
    }
  }

  datatype Act = HostGo | DeviceGo(k: nat)

  ghost predicate Can(s: System, a: Act)
  {
    match a
    case HostGo =>
      match s.h {
        case Begin => true
        case AwaitData => s.replies != []
        case SendData => true
        case AwaitEnd => s.replies != []
        case Success => false
        case Failure => false
      }
    case DeviceGo(k) =>
      match s.d {
        case Idle => s.link != [] && s.link[0] != []
        case Reading(len, got) =>
          |got| == len || (|got| < len && s.link != [] && 0 < k <= |s.link[0]| && k <= len - |got|)
      }
  }

  ghost function HostStep(s: System): (s': System)
    requires Can(s, HostGo) && |s.data| < WORD
  {
    match s.h
    case Begin =>
      if s.data == [] then s.(h := Failure)
      else s.(link := s.link + [DownloadCommand(|s.data|)], h := AwaitData)
    case AwaitData =>
      var s1 := s.(replies := s.replies[1..]);
      (match Check(s.replies[0], |s.data|)
       case Again => s1
       case Accepted => s1.(h := SendData)
       case Rejected => s1.(h := Failure))
    case SendData =>
      if |s.data| >= INT_LIMIT then s.(h := Failure)
      else s.(link := s.link + [s.data], h := AwaitEnd, offered := true)
    case AwaitEnd =>
      var s1 := s.(replies := s.replies[1..]);
      (match Check(s.replies[0], 0)
       case Again => s1
       case Accepted => s1.(h := Success)
       case Rejected => s1.(h := Failure))
    case Success => s
    case Failure => s
  }

  function Reply(s: System, r: seq<byte>): System
  {
    s.(replies := s.replies + [r], log := s.log + [r])
  }

  function ReplyAll(s: System, rs: seq<seq<byte>>): System { s.(replies := s.replies + rs, log := s.log + rs) }

  /** Takes `k` bytes off the front of the link. */
  function Take(link: seq<seq<byte>>, k: nat): seq<seq<byte>>
    requires link != [] && k <= |link[0]|
  {
    if k == |link[0]| then link[1..] else [link[0][k..]] + link[1..]
  }

  const COMMAND_MAX: nat := 64

  ghost function DeviceStep(s: System, k: nat): (s': System)
    requires Can(s, DeviceGo(k))
  {
    match s.d
    case Idle =>
      var n := if |s.link[0]| < COMMAND_MAX then |s.link[0]| else COMMAND_MAX;
      var cmd, s1 := s.link[0][..n], s.(link := Take(s.link, n));
      var c := Classify(cmd);
      if !c.Download? then ReplyAll(s1, Handled(cmd, Supply(s.temp, []), [], s.held).said)
      else
        var len := Strtoul16(c.arg);
        if len > LIMIT then Reply(s1, Fail("data too large"))
        else
          EightDigits();
          if !s.temp then ReplyAll(s1, [Data(len), Fail("download failed")]).(held := Nothing)
          else Reply(s1, Data(len)).(d := Reading(len, []), held := Nothing)
    case Reading(len, got) =>
      if |got| < len then s.(link := Take(s.link, k), d := Reading(len, got + s.link[0][..k]))
      else Reply(s, Okay([])).(d := Idle, held := Held(got))
  }

  ghost function Step(s: System, a: Act): (s': System)
    requires Can(s, a) && |s.data| < WORD
  {
    match a
    case HostGo => HostStep(s)
    case DeviceGo(k) => DeviceStep(s, k)
  }

  ghost predicate Init(s: System)
  {
    s == System(s.data, s.temp, Begin, Idle, [], [], s.held, [], false) && |s.data| < WORD
  }

  ghost predicate Run(s: System, acts: seq<Act>, s': System)
    requires |s.data| < WORD
    decreases |acts|
  {
    if acts == [] then s' == s
    else Can(s, acts[0]) && Step(s, acts[0]).data == s.data && Run(Step(s, acts[0]), acts[1..], s')
  }

  // ---------------------------------------------------------------- the invariant

  ghost predicate Asked(s: System)
  {
    |s.data| < WORD && s.h.AwaitData? && s.data != [] && s.d.Idle? && s.link == [DownloadCommand(|s.data|)] && s.replies == [] && s.log == [] && !s.offered
  }

  ghost predicate Refused(s: System)
  {
    var no := [Fail("data too large")];
    |s.data| > LIMIT && s.d.Idle? && s.link == [] && s.log == no && !s.offered
    && ((s.h.AwaitData? && s.replies == no) || (s.h.Failure? && s.replies == []))
  }

  ghost predicate Invited(s: System)
  {
    && s.temp && 0 < |s.data| <= LIMIT && DigitsFit(|s.data|) && s.d == Reading(|s.data|, []) && s.link == []
    && s.log == [Data(|s.data|)] && !s.offered
    && ((s.h.AwaitData? && s.replies == [Data(|s.data|)]) || (s.h.SendData? && s.replies == []))
  }

  ghost predicate Moving(s: System)
  {
    && s.temp && 0 < |s.data| <= LIMIT && DigitsFit(|s.data|) && s.h.AwaitEnd? && s.d.Reading? && s.d.len == |s.data|
    && s.log == [Data(|s.data|)] && s.replies == [] && s.offered
    && |s.d.got| <= |s.data| && s.d.got == s.data[..|s.d.got|]
    && s.link == (if |s.d.got| == |s.data| then [] else [s.data[|s.d.got|..]])
  }

  ghost predicate Finished(s: System)
  {
    && s.temp && 0 < |s.data| <= LIMIT && DigitsFit(|s.data|) && s.d.Idle? && s.link == [] && s.held == Held(s.data) && s.offered
    && s.log == [Data(|s.data|), Okay([])]
    && ((s.h.AwaitEnd? && s.replies == [Okay([])]) || (s.h.Success? && s.replies == []))
  }

  /** The device could not make its file.  It has said so before the data came, which it takes for commands. */
  ghost predicate Spoiled(s: System)
  {
    && !s.temp && 0 < |s.data| <= LIMIT && DigitsFit(|s.data|) && s.d.Idle? && |s.link| <= 1
    && var said := [Data(|s.data|), Fail("download failed")];
       && said <= s.log
       && match s.h {
            case AwaitData => s.link == [] && s.replies == said && s.log == said && !s.offered
            case SendData => s.link == [] && s.replies == said[1..] && s.log == said && !s.offered
            case AwaitEnd => said[1..] <= s.replies && s.offered
            case Failure => s.offered
            case _ => false
          }
  }

  ghost predicate Inv(s: System)
  {
    && |s.data| < WORD
    && (|| Init(s)
        || (s.h.Failure? && s.data == [] && s.link == [] && s.replies == [] && s.log == [] && s.d.Idle? && !s.offered)
        || Asked(s) || Refused(s) || Invited(s) || Moving(s) || Finished(s) || Spoiled(s))
  }

  lemma CommandParses(size: nat)
    requires size < WORD
    ensures var c := DownloadCommand(size);
            |c| == 17 && Classify(c) == Download(c[9..]) && Strtoul16(c[9..]) == size
  {
    EightDigits();
    var c := DownloadCommand(size);
    assert c[9..] == Hex(size, 8);
    StrtoulHex(size);
    assert Ascii("download:") <= c;
  }

  lemma DataChecks(size: nat)
    requires 0 < size < INT_LIMIT && DigitsFit(size)
    ensures Check(Data(size), size) == Accepted
  {
    var r := Data(size);
    assert r[..4] == Ascii("DATA") && r[4..] == Hex(size, 8);
    StrtoulHex(size);
    assert Ascii("DATA")[0] == 68 && Ascii("OKAY")[0] == 79 && Ascii("FAIL")[0] == 70 && Ascii("INFO")[0] == 73;
  }

  lemma StatusChecks(size: nat)
    ensures Check(Okay([]), size) == Accepted
    ensures Check(Fail("data too large"), size) == Rejected && Check(Fail("download failed"), size) == Rejected
  {
    assert Okay([])[..4] == Ascii("OKAY");
    assert Fail("data too large")[..4] == Ascii("FAIL") && Fail("download failed")[..4] == Ascii("FAIL");
    assert Ascii("OKAY")[0] == 79 && Ascii("FAIL")[0] == 70 && Ascii("INFO")[0] == 73;
  }

  // ---------------------------------------------------------------- whole sessions

  ghost predicate Ended(s: System) { s.h.Success? || s.h.Failure? }

  /** Steps a session can still take. */
  ghost function Work(s: System): (n: nat)
  {
    match s.h
    case Begin => |s.data| + 8
    case AwaitData => if s.replies == [] then |s.data| + 7 else |s.data| + 6
    case SendData => |s.data| + 5
    case AwaitEnd =>
      if !s.temp then Waiting(s) + 3 else if s.d.Idle? then 2 else if |s.d.got| <= |s.data| then |s.data| - |s.d.got| + 3 else 3
    case Success => 0
    case Failure => Waiting(s)
  }

  /** Bytes at the head of the link. */
  function Waiting(s: System): nat { if s.link == [] then 0 else |s.link[0]| }

  /** One step nearer to the end of the same session. */
  ghost predicate Nearer(s: System, s': System) { s'.data == s.data && s'.temp == s.temp && Work(s') < Work(s) }

  lemma StepKeeps(s: System, a: Act)
    requires Inv(s) && Can(s, a)
    ensures Inv(Step(s, a)) && Nearer(s, Step(s, a))
  {
    match a
    case HostGo =>
      if Invited(s) { HostInvited(s); }
      else if Spoiled(s) { HostSpoiled(s); }
      else { HostElse(s); }
    case DeviceGo(k) =>
      if Asked(s) { DeviceAsked(s, k); }
      else if Moving(s) { DeviceMoving(s, k); }
      else { DeviceSpoiled(s, k); }
  }

  lemma HostInvited(s: System)
    requires Invited(s) && Can(s, HostGo)
    ensures Invited(HostStep(s)) || Moving(HostStep(s))
    ensures Nearer(s, HostStep(s))
  {
    DataChecks(|s.data|);
  }

  lemma HostSpoiled(s: System)
    requires Spoiled(s) && Can(s, HostGo)
    ensures Spoiled(HostStep(s)) && Nearer(s, HostStep(s))
  {
    StatusChecks(0);
    DataChecks(|s.data|);
  }

  lemma HostElse(s: System)
    requires Inv(s) && !Invited(s) && !Spoiled(s) && Can(s, HostGo)
    ensures Inv(HostStep(s)) && Nearer(s, HostStep(s))
  {
    StatusChecks(|s.data|);
    StatusChecks(0);
  }

  lemma DeviceAsked(s: System, k: nat)
    requires Asked(s) && Can(s, DeviceGo(k))
    ensures var s' := DeviceStep(s, k); Refused(s') || Invited(s') || Spoiled(s')
    ensures Nearer(s, DeviceStep(s, k))
  {
    CommandParses(|s.data|);
    EightDigits();
    assert s.link[0][..17] == s.link[0];
  }

  lemma DeviceMoving(s: System, k: nat)
    requires Moving(s) && Can(s, DeviceGo(k))
    ensures var s' := DeviceStep(s, k); Moving(s') || Finished(s')
    ensures Nearer(s, DeviceStep(s, k))
  {
    var n := |s.d.got|;
    if n < |s.data| {
      assert s.data[..n + k] == s.data[..n] + s.data[n..][..k];
      assert s.data[n..][k..] == s.data[n + k..];
    }
  }

  lemma DeviceSpoiled(s: System, k: nat)
    requires Inv(s) && !Asked(s) && !Moving(s) && Can(s, DeviceGo(k))
    ensures Spoiled(DeviceStep(s, k)) && Nearer(s, DeviceStep(s, k))
  {
  }

  lemma {:induction false} RunKeeps(s: System, acts: seq<Act>, s': System)
    requires Inv(s) && Run(s, acts, s')
    ensures Inv(s') && s'.data == s.data && s'.temp == s.temp && |acts| + Work(s') <= Work(s)
    decreases |acts|
  {
    if acts != [] {
      StepKeeps(s, acts[0]);
      RunKeeps(Step(s, acts[0]), acts[1..], s');
    }
  }

  /** Nobody waits for ever: until the host is done, one of the two sides can go on. */
  lemma SomeoneCanGo(s: System)
    requires Inv(s) && !Ended(s)
    ensures Can(s, HostGo) || Can(s, DeviceGo(1))
  {
    if Asked(s) { CommandParses(|s.data|); }
  }

  /** In every run, whatever pieces the device reads in: the host reports success only when the device
      holds exactly the bytes sent, after exactly a DATA with their number and an OKAY; more than 256 MiB
      are refused with one FAIL before a byte of data is sent; nothing at all is sent for an empty
      download; and any other download fails only if the device cannot make a temporary file. */
  lemma DownloadIsExact(s: System, acts: seq<Act>, s': System)
    requires Init(s) && Run(s, acts, s')
    ensures s'.h.Success? ==>
              s.temp && 0 < |s.data| <= LIMIT && s'.held == Held(s.data) && DigitsFit(|s.data|)
              && s'.log == [Data(|s.data|), Okay([])] && s'.replies == [] && s'.link == []
    ensures |s.data| > LIMIT ==> !s'.offered && s'.log <= [Fail("data too large")]
    ensures s.data == [] ==> s'.link == [] && s'.log == []
    ensures s'.h.Failure? ==> s.data == [] || |s.data| > LIMIT || !s.temp
    ensures s'.h.Failure? && 0 < |s.data| <= LIMIT ==>
              s'.offered && DigitsFit(|s.data|) && [Data(|s.data|), Fail("download failed")] <= s'.log
  {
    RunKeeps(s, acts, s');
  }

  /** Every run is finite, and one that cannot be extended has ended, in success exactly for the sizes
      the device accepts when it can make its file. */
  lemma DownloadCompletes(s: System, acts: seq<Act>, s': System)
    requires Init(s) && Run(s, acts, s')
    ensures |acts| <= |s.data| + 8
    ensures (forall a :: !Can(s', a)) ==>
              if 0 < |s.data| <= LIMIT && s.temp then s'.h.Success? else s'.h.Failure?
  {
    RunKeeps(s, acts, s');
    if !Ended(s') { SomeoneCanGo(s'); }
  }

  /** The first two steps of such a run. */
  lemma AskOne(s: System) returns (s2: System)
    requires Init(s) && s.data == [1] && !s.temp
    ensures Can(s, HostGo) && Can(HostStep(s), DeviceGo(0)) && s2 == DeviceStep(HostStep(s), 0)
    ensures s2.data == [1] && s2.h == AwaitData && DigitsFit(1) && s2.replies == [Data(1), Fail("download failed")]
  {
    var s1 := HostStep(s);
    DeviceAsked(s1, 0);
    s2 := DeviceStep(s1, 0);
  }

  lemma AskedThen(s: System, s2: System, acts: seq<Act>, s': System)
    requires |s.data| < WORD && Can(s, HostGo) && Can(HostStep(s), DeviceGo(0)) && s2 == DeviceStep(HostStep(s), 0)
    requires HostStep(s).data == s.data == s2.data && Run(s2, acts, s')
    ensures Run(s, [HostGo, DeviceGo(0)] + acts, s')
  {
    var all := [HostGo, DeviceGo(0)] + acts;
    assert all[1..] == [DeviceGo(0)] + acts && all[1..][1..] == acts;
  }

  /** A download of one byte to a device that cannot make a file. */
  lemma NoFileFails(s: System)
    requires Init(s) && s.data == [1] && !s.temp
    ensures exists s' :: Run(s, [HostGo, DeviceGo(0), HostGo, HostGo, HostGo], s') && s'.h.Failure? && s'.offered
  {
    var s2 := AskOne(s);
    var s5 := FailureHeard(s2);
    AskedThen(s, s2, [HostGo, HostGo, HostGo], s5);
  }

  /** Its last three. */
  lemma FailureHeard(s: System) returns (s': System)
    requires s.data == [1] && s.h == AwaitData && DigitsFit(1) && s.replies == [Data(1), Fail("download failed")]
    ensures Run(s, [HostGo, HostGo, HostGo], s') && s'.h == Failure && s'.offered
  {
    StatusChecks(0);
    DataChecks(1);
    var s1 := HostStep(s);
    assert s1.replies == [Fail("download failed")];
    var s2 := HostStep(s1);
    s' := HostStep(s2);
    assert [HostGo][1..] == [] && Run(s2, [HostGo], s');
    assert [HostGo, HostGo][1..] == [HostGo] && Run(s1, [HostGo, HostGo], s');
    assert [HostGo, HostGo, HostGo][1..] == [HostGo, HostGo];
  }

  // ---------------------------------------------------------------- the sides are the programs

  /** The command at the head of the link. */
  function FirstCommand(s: System): seq<byte>
    requires s.link != []
  {
    s.link[0][..if |s.link[0]| < COMMAND_MAX then |s.link[0]| else COMMAND_MAX]
  }

  /** The device alone reads its download to the end, in pieces of these sizes. */
  ghost predicate DownloadRun(s: System, ks: seq<nat>, s': System)
    decreases |ks|
  {
    && s.d.Reading? && ks != [] && Can(s, DeviceGo(ks[0]))
    && if |s.d.got| == s.d.len then |ks| == 1 && s' == DeviceStep(s, ks[0])
       else DownloadRun(DeviceStep(s, ks[0]), ks[1..], s')
  }

  /** Those pieces. */
  ghost function PiecesRead(s: System, ks: seq<nat>, s': System): (ps: seq<seq<byte>>)
    requires DownloadRun(s, ks, s')
    decreases |ks|
  {
    if |s.d.got| == s.d.len then [] else [s.link[0][..ks[0]]] + PiecesRead(DeviceStep(s, ks[0]), ks[1..], s')
  }

  lemma GotNext(before: seq<byte>, p: seq<byte>, len: nat, more: seq<seq<byte>>)
    requires 0 < |p| <= len
    ensures |Got(len, [p] + more)| == |p| + |Got(len - |p|, more)|
    ensures before + Got(len, [p] + more) == before + p + Got(len - |p|, more)
  {
    assert p[..|p|] == p && ([p] + more)[1..] == more;
    assert Got(len, [p] + more) == p + Got(len - |p|, more);
  }

  lemma {:induction false} ReadingRefines(s: System, ks: seq<nat>, s': System)
    requires DownloadRun(s, ks, s')
    ensures var got := Got(s.d.len - |s.d.got|, PiecesRead(s, ks, s'));
            && |got| == s.d.len - |s.d.got| && s'.held == Held(s.d.got + got)
            && s'.log == s.log + [Okay([])] && s'.d == Idle
    decreases |ks|
  {
    if |s.d.got| == s.d.len {
      assert s.d.got + [] == s.d.got;
    } else {
      var s1, p := DeviceStep(s, ks[0]), s.link[0][..ks[0]];
      ReadingRefines(s1, ks[1..], s');
      var more := PiecesRead(s1, ks[1..], s');
      GotNext(s.d.got, p, s.d.len - |s.d.got|, more);
    }
  }

  /** An accepted download, read in any pieces, ends as the program that was given those pieces ends. */
  lemma {:induction false} DeviceRefines(s: System, ks: seq<nat>, s': System)
    requires s.d.Idle? && Can(s, DeviceGo(0)) && DownloadRun(DeviceStep(s, 0), ks, s')
    ensures var r := Handled(FirstCommand(s), Supply(s.temp, PiecesRead(DeviceStep(s, 0), ks, s')), [], s.held);
            s'.log == s.log + r.said && s'.held == r.held && r.stays && s'.d == Idle
  {
    var s1 := DeviceStep(s, 0);
    ReadingRefines(s1, ks, s');
    var ps := PiecesRead(s1, ks, s');
    assert [] + Got(s1.d.len, ps) == Got(s1.d.len, ps);
    HandledWhole(s, ps);
  }

  /** What the program does with the pieces of a download that the device has begun to read. */
  lemma HandledWhole(s: System, ps: seq<seq<byte>>)
    requires s.d.Idle? && Can(s, DeviceGo(0)) && DeviceStep(s, 0).d.Reading?
    requires var len := DeviceStep(s, 0).d.len; |Got(len, ps)| == len
    ensures var s1, len := DeviceStep(s, 0), DeviceStep(s, 0).d.len;
            && s1.d.got == [] && DigitsFit(len)
            && Handled(FirstCommand(s), Supply(s.temp, ps), [], s.held)
               == Round([Data(len), Okay([])], true, Held(Got(len, ps)))
            && s1.log + [Okay([])] == s.log + [Data(len), Okay([])]
  {
    EightDigits();
  }

  /** Any other command is answered at once, as the program answers it. */
  lemma DeviceRefinesOthers(s: System, k: nat)
    requires s.d.Idle? && Can(s, DeviceGo(k)) && DeviceStep(s, k).d.Idle?
    ensures var r := Handled(FirstCommand(s), Supply(s.temp, []), [], s.held);
            DeviceStep(s, k).log == s.log + r.said && DeviceStep(s, k).held == r.held
  {
  }

  function Rank(h: Stage): nat
  {
    match h case Begin => 4 case AwaitData => 3 case SendData => 2 case AwaitEnd => 1 case Success => 0 case Failure => 0
  }

  /** The host alone goes on as far as the responses it has let it. */
  ghost function HostAlone(s: System): (s': System)
    requires |s.data| < WORD
    decreases Rank(s.h), |s.replies|
  {
    if Can(s, HostGo) then HostAlone(HostStep(s)) else s
  }

  lemma {:induction false} HostEnds(s: System)
    requires |s.data| < WORD && s.h.AwaitEnd?
    ensures var s' := HostAlone(s);
            (s'.h.Success? <==> Answer(s.replies, 0).Accepted?) && s'.link == s.link
    decreases |s.replies|
  {
    if s.replies != [] && Check(s.replies[0], 0).Again? { HostEnds(HostStep(s)); }
  }

  lemma {:induction false} HostWaits(s: System)
    requires |s.data| < WORD && s.h.AwaitData?
    ensures var s', invited := HostAlone(s), Answer(s.replies, |s.data|).Accepted? && |s.data| < INT_LIMIT;
            && (s'.h.Success? <==> invited && Answer(Unread(s.replies, |s.data|), 0).Accepted?)
            && s'.link == s.link + if invited then [s.data] else []
    decreases |s.replies|
  {
    if s.replies != [] {
      var s1 := HostStep(s);
      match Check(s.replies[0], |s.data|)
      case Again => HostWaits(s1);
      case Accepted =>
        assert HostAlone(s) == HostAlone(s1) == HostAlone(HostStep(s1));
        if |s.data| < INT_LIMIT { HostEnds(HostStep(s1)); }
      case Rejected =>
    }
  }

  /** On any responses the host's steps send and conclude what its program does. */
  lemma HostRefines(s: System)
    requires Init(s.(replies := []))
    ensures var s', rs := HostAlone(s), s.replies;
            var invited := Answer(rs, |s.data|).Accepted? && |s.data| < INT_LIMIT;
            && (s.data == [] ==> s'.h.Failure? && s'.link == [])
            && (s.data != [] ==>
                  && s'.link == [DownloadCommand(|s.data|)] + (if invited then [s.data] else [])
                  && (s'.h.Success? <==> invited && Answer(Unread(rs, |s.data|), 0).Accepted?))
  {
    if s.data != [] {
      var s1 := HostAsks(s);
      HostWaits(s1);
    }
  }

  lemma HostAsks(s: System) returns (s1: System)
    requires |s.data| < WORD && s.h == Begin && s.data != [] && s.link == []
    ensures s1.h == AwaitData && s1.data == s.data && s1.replies == s.replies && HostAlone(s) == HostAlone(s1)
    ensures s1.link == [DownloadCommand(|s.data|)]
  {
    s1 := HostStep(s);
    assert Can(s, HostGo);
  }
}
