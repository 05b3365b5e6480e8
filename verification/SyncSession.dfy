/** Sessions of the file sync protocol: the service, the client, and both over whole sessions. */
module SyncSession {
  import opened Bytes
  import opened Framing
  import opened Hexadecimal
  import opened Sync
  import opened SyncFiles

  datatype Stat = Stat(mode: nat, size: nat, time: nat)

  /** What the service's system does during one request, and the text of an error. */
  datatype World = World(stat: Stat, put: PutWorld, get: GetWorld, text: seq<byte>)

  datatype Req =
    | AskStat(path: seq<byte>)
    | PutFile(path: seq<byte>, mode: nat, chunks: seq<seq<byte>>, mtime: nat)
    | GetFile(path: seq<byte>)

  /** S_ISLNK. */
  predicate IsLink(mode: nat) { mode / 4096 % 16 == 10 }

  // ---------------------------------------------------------------- what is on the wire

  /** What the client writes for a request, followed by `rest`. */
  function Asked(r: Req, rest: seq<byte>): (s: seq<byte>)
  {
    match r
    case AskStat(path) => Msg(STAT, path) + rest
    case PutFile(path, mode, chunks, mtime) => Msg(SEND, Name(path, mode)) + DataMsgs(chunks, mtime, rest)
    case GetFile(path) => Msg(RECV, path) + rest
  }

  function StatMsg(st: Stat): (s: seq<byte>)
    ensures |s| == 16
  {
    Head(STAT, st.mode) + Word(st.size) + Word(st.time)
  }

  lemma StatLayout(st: Stat)
    ensures var s := StatMsg(st);
            s[..4] == Word(STAT) && s[4..8] == Word(st.mode) && s[8..12] == Word(st.size) && s[12..] == Word(st.time)
  {
  }

  /** DATA messages of do_recv, and the DONE or the FAIL that ends them. */
  function RecvMsgs(served: seq<seq<byte>>, broke: bool, text: seq<byte>, rest: seq<byte>): (s: seq<byte>)
  {
    if served != [] then Msg(DATA, served[0]) + RecvMsgs(served[1..], broke, text, rest)
    else if broke then Msg(FAIL, text) + rest
    else Head(DONE, 0) + rest
  }

  /** A link can be made: the path is free once the unlink has been tried. */
  predicate Links(files: Files, path: seq<byte>, w: PutWorld)
  {
    w.linkOk && path !in Unlinked(files, path, w.unlinkOk)
  }

  predicate Readable(files: Files, path: seq<byte>, w: GetWorld) { path in files && w.openOk }

  /** The request fails, and the service says so with a text. */
  predicate Fails(files: Files, r: Req, w: World)
  {
    match r
    case AskStat(_) => false
    case PutFile(path, mode, chunks, _) =>
      if IsLink(mode) then !Links(files, path, w.put) else !Store(files, path, chunks, w.put).okay
    case GetFile(path) => !Readable(files, path, w.get) || ReadBreaks(OldData(files, path), w.get)
  }

  /** What the service answers to a request. */
  function Answer(files: Files, r: Req, w: World, rest: seq<byte>): (s: seq<byte>)
  {
    match r
    case AskStat(_) => StatMsg(w.stat) + rest
    case PutFile(_, _, _, _) => if Fails(files, r, w) then Msg(FAIL, w.text) + rest else Head(OKAY, 0) + rest
    case GetFile(path) =>
      if !Readable(files, path, w.get) then Msg(FAIL, w.text) + rest
      else
        var data := OldData(files, path);
        RecvMsgs(ReadUpTo(data, w.get), ReadBreaks(data, w.get), w.text, rest)
  }

  // ---------------------------------------------------------------- the service

  /** The string in a buffer: up to the first NUL. */
  function CString(s: seq<byte>): (r: seq<byte>)
    ensures r <= s && 0 !in r
    ensures 0 !in s ==> r == s
  {
    if s == [] || s[0] == 0 then [] else [s[0]] + CString(s[1..])
  }

  /** One round of file_sync_service: served, with what is left of the input; or the connection is
      closed, after some last words; or the request is one that this model leaves out. */
  datatype Round =
    | Served(files: Files, rest: seq<byte>, answer: seq<byte>)
    | Closed(files: Files, answer: seq<byte>)
    | Unmodelled

  function Complaint(reason: string): seq<byte> { Msg(FAIL, Ascii(reason)) }

  function Serve(files: Files, b: seq<byte>, w: World): (r: Round)
  {
    if |b| < 8 then Closed(files, Complaint("command read failure"))
    else
      var id, len := Unword(b[..4]), Unword(b[4..8]);
      if len > NAME_MAX then Closed(files, Complaint("invalid namelen"))
      else if |b| < 8 + len then Closed(files, Complaint("filename read failure"))
      else ServeNamed(files, id, CString(b[8..8 + len]), b[8 + len..], w)
  }

  function ServeNamed(files: Files, id: nat, name: seq<byte>, rest: seq<byte>, w: World): (r: Round)
  {
    if id == STAT then Served(files, rest, StatMsg(w.stat))
    else if id == RECV then
      if name in files && files[name].Symlink? then Unmodelled
      else Served(files, rest, Answer(files, GetFile(name), w, []))
    else if id == SEND then ServeSend(files, Split(name), rest, w)
    else if id == LIST then Unmodelled
    else Closed(files, if id == QUIT then [] else Complaint("unknown command"))
  }

  /** A link is in the way of a file and cannot be removed. */
  predicate ThroughLink(files: Files, path: seq<byte>, w: PutWorld)
  {
    path in files && files[path].Symlink? && !w.unlinkOk
  }

  function StopWords(why: Stop): seq<byte>
  {
    match why
    case Short => []
    case NotData(_, _, _) => Complaint("invalid data message")
    case Oversize => Complaint("oversize data message")
  }

  /** do_send. */
  function ServeSend(files: Files, t: Target, b: seq<byte>, w: World): (r: Round)
  {
    if IsLink(t.mode) then ServeLink(Unlinked(files, t.path, w.put.unlinkOk), t.path, b, w)
    else if ThroughLink(files, t.path, w.put) then Unmodelled
    else ServeGathered(files, t.path, Gather(b), w)
  }

  /** handle_send_file on what it gathers. */
  function ServeGathered(files: Files, path: seq<byte>, g: Gathered, w: World): (r: Round)
  {
    Settle(Store(files, path, g.chunks, w.put), path, g, w)
  }

  /** What follows once the chunks are stored. */
  function Settle(s: Stored, path: seq<byte>, g: Gathered, w: World): (r: Round)
  {
    match g
    case Gathered(_, _, rest) => Served(s.files, rest, if s.okay then Head(OKAY, 0) else Msg(FAIL, w.text))
    case Stopped(_, why) =>
      Closed(Unlinked(s.files, path, w.put.unlinkLastOk),
             (if s.okay then [] else Msg(FAIL, w.text)) + StopWords(why))
  }

  /** handle_send_link: one DATA message with the target as a C string, then DONE.  Any failure ends
      the session. */
  function ServeLink(files: Files, path: seq<byte>, b: seq<byte>, w: World): (r: Round)
  {
    if |b| < 8 then Closed(files, [])
    else if Unword(b[..4]) != DATA then Closed(files, Complaint("invalid data message: expected ID_DATA"))
    else
      var size := Unword(b[4..8]);
      if size > DATA_MAX then Closed(files, Complaint("oversize data message"))
      else if |b| < 8 + size then Closed(files, [])
      else if path in files || !w.put.linkOk then Closed(files, Msg(FAIL, w.text))
      else
        var made, rest := files[path := Symlink(CString(b[8..8 + size]))], b[8 + size..];
        if |rest| < 8 then Closed(made, [])
        else if Unword(rest[..4]) != DONE then Closed(made, Complaint("invalid data message: expected ID_DONE"))
        else Served(made, rest[8..], Head(OKAY, 0))
  }

  // ---------------------------------------------------------------- the client

  datatype Result =
    | GotStat(st: Stat)
    | PutOk
    | PutFailed(text: seq<byte>)
    | GotFile(data: seq<byte>)
    | GetFailed(text: seq<byte>)

  datatype Heard = Heard(result: Result, rest: seq<byte>) | Lost

  /** At most 256 bytes of a failure text are read. */
  function TextLen(size: nat): nat { if size > TEXT_MAX then TEXT_MAX else size }

  /** What the client makes of the bytes that follow its request. */
  function Hear(r: Req, b: seq<byte>): (h: Heard)
  {
    match r
    case AskStat(_) =>
      if |b| < 16 || Unword(b[..4]) != STAT then Lost
      else Heard(GotStat(Stat(Unword(b[4..8]), Unword(b[8..12]), Unword(b[12..16]))), b[16..])
    case PutFile(_, _, _, _) =>
      if |b| < 8 then Lost
      else
        var id, n := Unword(b[..4]), TextLen(Unword(b[4..8]));
        if id == OKAY then Heard(PutOk, b[8..])
        else if id != FAIL then Heard(PutFailed([]), b[8..])
        else if |b| < 8 + n then Lost
        else Heard(PutFailed(b[8..8 + n]), b[8 + n..])
    case GetFile(_) => HearFile(Gather(b))
  }

  function HearFile(g: Gathered): (h: Heard)
  {
    match g
    case Gathered(chunks, _, rest) => Heard(GotFile(Flat(chunks)), rest)
    case Stopped(_, NotData(id, size, rest)) =>
      var n := TextLen(size);
      if id != FAIL then Heard(GetFailed([]), rest)
      else if |rest| < n then Lost
      else Heard(GetFailed(rest[..n]), rest[n..])
    case Stopped(_, _) => Lost
  }

  // ---------------------------------------------------------------- one request in step

  /** A request as the client makes it: the path is a C string that fits with its suffix, and a link
      is sent as one piece that ends with its NUL. */
  ghost predicate Honest(r: Req)
  {
    && 0 !in r.path
    && (match r
        case AskStat(path) => |path| <= NAME_MAX
        case GetFile(path) => |path| <= NAME_MAX
        case PutFile(path, mode, chunks, mtime) =>
          && |Name(path, mode)| <= NAME_MAX && mode < WORD && mtime < WORD && Chunks(chunks)
          && (IsLink(mode) ==> |chunks| == 1 && chunks[0] != [] && 0 !in chunks[0][..|chunks[0]| - 1]
                               && chunks[0][|chunks[0]| - 1] == 0))
  }

  /** What fits the protocol's 32-bit fields. */
  ghost predicate Plain(w: World)
  {
    w.stat.mode < WORD && w.stat.size < WORD && w.stat.time < WORD && |w.text| < WORD
  }

  /** No file is read or written through a link. */
  predicate Direct(files: Files, r: Req, w: World)
  {
    match r
    case AskStat(_) => true
    case PutFile(path, mode, _, _) => IsLink(mode) || !ThroughLink(files, path, w.put)
    case GetFile(path) => path in files ==> files[path].Regular?
  }

  /** The files after a request. */
  function Effect(files: Files, r: Req, w: World): (f: Files)
  {
    match r
    case PutFile(path, mode, chunks, _) =>
      if !IsLink(mode) then Store(files, path, chunks, w.put).files
      else
        var base := Unlinked(files, path, w.put.unlinkOk);
        if Fails(files, r, w) then base else base[path := Symlink(CString(Flat(chunks)))]
    case _ => files
  }

  /** The service can only refuse a link by hanging up. */
  ghost predicate Answers(files: Files, r: Req, w: World)
  {
    r.PutFile? && IsLink(r.mode) ==> !Fails(files, r, w)
  }

  lemma NameHasNoNul(path: seq<byte>, mode: nat)
    requires 0 !in path
    ensures 0 !in Name(path, mode)
  {
  }

  lemma ServeMsg(files: Files, id: nat, name: seq<byte>, rest: seq<byte>, w: World)
    requires id < WORD && |name| <= NAME_MAX && 0 !in name
    ensures Serve(files, Msg(id, name) + rest, w) == ServeNamed(files, id, name, rest, w)
  {
    MsgReads(id, name, rest);
  }

  lemma ServeLinkAsked(files: Files, path: seq<byte>, target: seq<byte>, mtime: nat, rest: seq<byte>, w: World)
    requires |target| <= DATA_MAX && mtime < WORD
    ensures ServeLink(files, path, DataMsgs([target], mtime, rest), w) ==
            if path in files || !w.put.linkOk then Closed(files, Msg(FAIL, w.text))
            else Served(files[path := Symlink(CString(target))], rest, Head(OKAY, 0))
  {
    var tail := Head(DONE, mtime) + rest;
    assert DataMsgs([target], mtime, rest) == Msg(DATA, target) + tail;
    MsgReads(DATA, target, tail);
    HeadReads(DONE, mtime, rest);
  }

  lemma ServeFileAsked(files: Files, path: seq<byte>, mode: nat, chunks: seq<seq<byte>>, mtime: nat,
                       rest: seq<byte>, w: World)
    requires Chunks(chunks) && mtime < WORD && !IsLink(mode) && !ThroughLink(files, path, w.put)
    ensures var s := Store(files, path, chunks, w.put);
            ServeSend(files, Target(path, mode), DataMsgs(chunks, mtime, rest), w) ==
            Served(s.files, rest, if s.okay then Head(OKAY, 0) else Msg(FAIL, w.text))
  {
    GatherDataMsgs(chunks, mtime, rest);
  }

  /** What becomes of a request: it is served, or refused by hanging up with the reason. */
  function Outcome(files: Files, r: Req, w: World, rest: seq<byte>): Round
  {
    if r.PutFile? && IsLink(r.mode) && Fails(files, r, w) then Closed(Effect(files, r, w), Msg(FAIL, w.text))
    else Served(Effect(files, r, w), rest, Answer(files, r, w, []))
  }

  /** The service gets to do_send with the path and the mode. */
  lemma {:induction false} SendReached(files: Files, r: Req, w: World, rest: seq<byte>)
    requires r.PutFile? && Honest(r)
    ensures Serve(files, Asked(r, rest), w) ==
            ServeSend(files, Target(r.path, r.mode), DataMsgs(r.chunks, r.mtime, rest), w)
  {
    NameHasNoNul(r.path, r.mode);
    SplitName(r.path, r.mode);
    ServeMsg(files, SEND, Name(r.path, r.mode), DataMsgs(r.chunks, r.mtime, rest), w);
  }

  lemma {:induction false} PutInStep(files: Files, r: Req, w: World, rest: seq<byte>)
    requires r.PutFile? && Honest(r) && Plain(w) && Direct(files, r, w)
    ensures Serve(files, Asked(r, rest), w) == Outcome(files, r, w, rest)
  {
    SendReached(files, r, w, rest);
    assert Head(OKAY, 0) + [] == Head(OKAY, 0) && Msg(FAIL, w.text) + [] == Msg(FAIL, w.text);
    if IsLink(r.mode) {
      assert r.chunks == [r.chunks[0]] && r.chunks[1..] == [];
      assert Flat(r.chunks) == r.chunks[0] + [] == r.chunks[0];
      ServeLinkAsked(Unlinked(files, r.path, w.put.unlinkOk), r.path, r.chunks[0], r.mtime, rest, w);
    } else {
      ServeFileAsked(files, r.path, r.mode, r.chunks, r.mtime, rest, w);
    }
  }

  /** The service consumes exactly the request and is at a request boundary again, unless it was asked
      for a link that cannot be made: then it says why and hangs up, with the DONE still unread. */
  lemma ServiceInStep(files: Files, r: Req, w: World, rest: seq<byte>)
    requires Honest(r) && Plain(w) && Direct(files, r, w)
    ensures Serve(files, Asked(r, rest), w) == Outcome(files, r, w, rest)
    ensures Outcome(files, r, w, rest).Served? <==> Answers(files, r, w)
  {
    match r
    case AskStat(path) =>
      ServeMsg(files, STAT, path, rest, w);
      assert StatMsg(w.stat) + [] == StatMsg(w.stat);
    case GetFile(path) =>
      ServeMsg(files, RECV, path, rest, w);
    case PutFile(_, _, _, _) =>
      PutInStep(files, r, w, rest);
  }

  lemma {:induction false} CStringEnds(t: seq<byte>, u: seq<byte>)
    requires 0 !in t
    ensures CString(t + [0] + u) == t
  {
    var s := t + [0] + u;
    if t == [] {
      assert s[0] == 0;
    } else {
      CStringEnds(t[1..], u);
      assert s[0] == t[0] && s[1..] == t[1..] + [0] + u;
      assert t == [t[0]] + t[1..];
    }
  }

  /** A link that can be made has the target that was sent. */
  lemma LinkIsMade(files: Files, r: Req, target: seq<byte>, w: World, rest: seq<byte>)
    requires r.PutFile? && IsLink(r.mode) && Honest(r) && Plain(w) && Links(files, r.path, w.put)
    requires r.chunks == [target + [0]] && 0 !in target
    ensures Serve(files, Asked(r, rest), w) ==
            Served(Unlinked(files, r.path, w.put.unlinkOk)[r.path := Symlink(target)], rest, Head(OKAY, 0))
  {
    ServiceInStep(files, r, w, rest);
    CStringEnds(target, []);
    assert Flat(r.chunks) == target + [0] + [] == target + [0] by { assert r.chunks[1..] == []; }
    assert Head(OKAY, 0) + [] == Head(OKAY, 0);
  }

  /** A link request without its target, as a client sends it that could not read the link: refused. */
  lemma NoTargetHangsUp(files: Files, r: Req, w: World, rest: seq<byte>)
    requires r.PutFile? && IsLink(r.mode) && Honest(r.(chunks := [[0]])) && r.chunks == []
    ensures Serve(files, Asked(r, rest), w) ==
            Closed(Unlinked(files, r.path, w.put.unlinkOk), Complaint("invalid data message: expected ID_DATA"))
  {
    NameHasNoNul(r.path, r.mode);
    SplitName(r.path, r.mode);
    ServeMsg(files, SEND, Name(r.path, r.mode), DataMsgs([], r.mtime, rest), w);
    HeadReads(DONE, r.mtime, rest);
  }

  /** QUIT ends a session without a word, whatever its name; an id that is none of the protocol's is reported. */
  lemma QuitEnds(files: Files, id: nat, name: seq<byte>, rest: seq<byte>, w: World)
    requires id < WORD && |name| <= NAME_MAX && 0 !in name && id !in {STAT, RECV, SEND, LIST}
    ensures Serve(files, Msg(id, name) + rest, w) == Closed(files, if id == QUIT then [] else Msg(FAIL, Ascii("unknown command")))
  {
    ServeMsg(files, id, name, rest, w);
  }

  const A_LINK := PutFile([97], 40960, [[98, 0]], 0)

  /** A link that cannot be made: the service says why and hangs up, whatever follows. */
  lemma LinkHangsUp(w: World, rest: seq<byte>)
    requires Plain(w) && !w.put.linkOk
    ensures Serve(map[], Asked(A_LINK, rest), w) == Closed(map[], Msg(FAIL, w.text))
  {
    LinkIsHonest(A_LINK);
    RefusedLink(A_LINK, w, rest);
  }

  lemma RefusedLink(r: Req, w: World, rest: seq<byte>)
    requires r.PutFile? && IsLink(r.mode) && Honest(r) && Plain(w) && !w.put.linkOk
    ensures Serve(map[], Asked(r, rest), w) == Closed(map[], Msg(FAIL, w.text))
  {
    ServiceInStep(map[], r, w, rest);
  }

  lemma LinkIsHonest(r: Req)
    requires r == A_LINK
    ensures r.PutFile? && IsLink(r.mode) && Honest(r)
  {
    assert Decimal(4) == [52] && Decimal(40) == Decimal(4) + [48];
    assert Decimal(409) == Decimal(40) + [57] && Decimal(4096) == Decimal(409) + [54];
    assert |Decimal(40960)| == 5;
  }

  // ---------------------------------------------------------------- one answer in step

  /** What the client should conclude. */
  function Expected(files: Files, r: Req, w: World): (x: Result)
  {
    var text := w.text[..TextLen(|w.text|)];
    match r
    case AskStat(_) => GotStat(w.stat)
    case PutFile(_, _, _, _) => if Fails(files, r, w) then PutFailed(text) else PutOk
    case GetFile(path) => if Fails(files, r, w) then GetFailed(text) else GotFile(OldData(files, path))
  }

  /** What the client leaves unread of a failure text. */
  function Unread(files: Files, r: Req, w: World): (s: seq<byte>)
  {
    if Fails(files, r, w) then w.text[TextLen(|w.text|)..] else []
  }

  lemma {:induction false} GatherRecvMsgs(served: seq<seq<byte>>, broke: bool, text: seq<byte>, rest: seq<byte>)
    requires Chunks(served) && |text| < WORD
    ensures Gather(RecvMsgs(served, broke, text, rest)) ==
            if broke then Stopped(served, NotData(FAIL, |text|, text + rest)) else Gathered(served, 0, rest)
  {
    if served != [] {
      GatherRecvMsgs(served[1..], broke, text, rest);
      MsgReads(DATA, served[0], RecvMsgs(served[1..], broke, text, rest));
      assert served == [served[0]] + served[1..];
    } else if broke {
      FailReads(text, rest);
    } else {
      HeadReads(DONE, 0, rest);
    }
  }

  lemma FailReads(text: seq<byte>, rest: seq<byte>)
    requires |text| < WORD
    ensures var b := Msg(FAIL, text) + rest;
            |b| >= 8 && Unword(b[..4]) == FAIL && Unword(b[4..8]) == |text| && b[8..] == text + rest
  {
    var b := Msg(FAIL, text) + rest;
    assert b == Head(FAIL, |text|) + (text + rest);
    HeadReads(FAIL, |text|, text + rest);
  }

  lemma TextReads(text: seq<byte>, rest: seq<byte>)
    ensures var n := TextLen(|text|);
            |text + rest| >= n && (text + rest)[..n] == text[..n] && (text + rest)[n..] == text[n..] + rest
  {
  }

  lemma HearStat(files: Files, r: Req, w: World, rest: seq<byte>)
    requires r.AskStat? && Plain(w)
    ensures Hear(r, Answer(files, r, w, rest)) == Heard(GotStat(w.stat), rest)
  {
    var st := w.stat;
    var b := StatMsg(st) + rest;
    assert b[..4] == Word(STAT) && b[4..8] == Word(st.mode) && b[8..12] == Word(st.size) && b[12..16] == Word(st.time);
    UnwordWord(STAT);
    UnwordWord(st.mode);
    UnwordWord(st.size);
    UnwordWord(st.time);
    assert b[16..] == rest;
  }

  lemma HearPut(files: Files, r: Req, w: World, rest: seq<byte>)
    requires r.PutFile? && Plain(w)
    ensures Hear(r, Answer(files, r, w, rest)) == Heard(Expected(files, r, w), Unread(files, r, w) + rest)
  {
    if Fails(files, r, w) {
      FailReads(w.text, rest);
      TextReads(w.text, rest);
      var b := Msg(FAIL, w.text) + rest;
      var n := TextLen(|w.text|);
      assert b[8..8 + n] == b[8..][..n] && b[8 + n..] == b[8..][n..];
    } else {
      HeadReads(OKAY, 0, rest);
      assert [] + rest == rest;
    }
  }

  lemma HearGet(files: Files, r: Req, w: World, rest: seq<byte>)
    requires r.GetFile? && Plain(w)
    ensures Hear(r, Answer(files, r, w, rest)) == Heard(Expected(files, r, w), Unread(files, r, w) + rest)
  {
    TextReads(w.text, rest);
    assert [] + rest == rest;
    if Readable(files, r.path, w.get) {
      var data := OldData(files, r.path);
      GatherRecvMsgs(ReadUpTo(data, w.get), ReadBreaks(data, w.get), w.text, rest);
      ReadExactly(data, w.get);
    } else {
      FailReads(w.text, rest);
    }
  }

  /** The client concludes what it should, and leaves unread exactly what exceeds 256 bytes of a
      failure text.  So it stays in step if and only if the text is no longer than that. */
  lemma ClientInStep(files: Files, r: Req, w: World, rest: seq<byte>)
    requires Plain(w)
    ensures Hear(r, Answer(files, r, w, rest)) == Heard(Expected(files, r, w), Unread(files, r, w) + rest)
    ensures Hear(r, Answer(files, r, w, rest)) == Heard(Expected(files, r, w), rest)
            <==> !Fails(files, r, w) || |w.text| <= TEXT_MAX
  {
    match r
    case AskStat(_) => HearStat(files, r, w, rest); assert [] + rest == rest;
    case PutFile(_, _, _, _) => HearPut(files, r, w, rest);
    case GetFile(_) => HearGet(files, r, w, rest);
    assert |Unread(files, r, w) + rest| == |Unread(files, r, w)| + |rest|;
    if |Unread(files, r, w)| == 0 { assert Unread(files, r, w) + rest == rest; }
  }

  /** A file that is not there, with a text of 300 bytes: 44 of them are left for the next answer. */
  lemma LongTextIsLeft(path: seq<byte>, w: World, rest: seq<byte>)
    requires Plain(w) && w.text == seq(300, i => 65)
    ensures Hear(GetFile(path), Answer(map[], GetFile(path), w, rest)) ==
            Heard(GetFailed(w.text[..TEXT_MAX]), w.text[TEXT_MAX..] + rest)
  {
    ClientInStep(map[], GetFile(path), w, rest);
  }

  // ---------------------------------------------------------------- sessions

  datatype Exchange = Exchange(r: Req, w: World)

  /** Every request is honest when it is made, and none is for a link that cannot be made. */
  ghost predicate Orderly(files: Files, xs: seq<Exchange>)
    decreases xs
  {
    xs != [] ==>
      var x := xs[0];
      && Honest(x.r) && Plain(x.w) && Direct(files, x.r, x.w) && Answers(files, x.r, x.w)
      && Orderly(Effect(files, x.r, x.w), xs[1..])
  }

  /** Failure texts are short enough for the client. */
  ghost predicate ShortTexts(files: Files, xs: seq<Exchange>)
    decreases xs
  {
    xs != [] ==>
      var x := xs[0];
      && (Fails(files, x.r, x.w) ==> |x.w.text| <= TEXT_MAX)
      && ShortTexts(Effect(files, x.r, x.w), xs[1..])
  }

  function AskedAll(xs: seq<Exchange>): (s: seq<byte>)
  {
    if xs == [] then [] else Asked(xs[0].r, AskedAll(xs[1..]))
  }

  function AnsweredAll(files: Files, xs: seq<Exchange>): (s: seq<byte>)
    decreases xs
  {
    if xs == [] then []
    else Answer(files, xs[0].r, xs[0].w, []) + AnsweredAll(Effect(files, xs[0].r, xs[0].w), xs[1..])
  }

  datatype Session = Session(files: Files, rest: seq<byte>, answers: seq<byte>) | Aborted

  /** The loop of file_sync_service on an input, one world for each request. */
  function ServeAll(files: Files, b: seq<byte>, xs: seq<Exchange>): (s: Session)
    decreases xs
  {
    if xs == [] then Session(files, b, [])
    else
      match Serve(files, b, xs[0].w)
      case Closed(_, _) => Aborted
      case Unmodelled => Aborted
      case Served(files', rest, answer) =>
        match ServeAll(files', rest, xs[1..])
        case Aborted => Aborted
        case Session(f, r, more) => Session(f, r, answer + more)
  }

  function EffectAll(files: Files, xs: seq<Exchange>): (f: Files)
    decreases xs
  {
    if xs == [] then files else EffectAll(Effect(files, xs[0].r, xs[0].w), xs[1..])
  }

  datatype HeardAll = HeardAll(results: seq<Result>, rest: seq<byte>) | LostAll

  /** The client reads one answer after the other. */
  function HearAll(xs: seq<Exchange>, b: seq<byte>): (h: HeardAll)
    decreases xs
  {
    if xs == [] then HeardAll([], b)
    else
      match Hear(xs[0].r, b)
      case Lost => LostAll
      case Heard(x, rest) =>
        match HearAll(xs[1..], rest)
        case LostAll => LostAll
        case HeardAll(more, r) => HeardAll([x] + more, r)
  }

  function ExpectedAll(files: Files, xs: seq<Exchange>): (rs: seq<Result>)
    ensures |rs| == |xs|
    decreases xs
  {
    if xs == [] then []
    else [Expected(files, xs[0].r, xs[0].w)] + ExpectedAll(Effect(files, xs[0].r, xs[0].w), xs[1..])
  }

  lemma {:induction false} AnswerThen(files: Files, r: Req, w: World, rest: seq<byte>)
    ensures Answer(files, r, w, rest) == Answer(files, r, w, []) + rest
  {
    match r
    case AskStat(_) => assert StatMsg(w.stat) + [] == StatMsg(w.stat);
    case PutFile(_, _, _, _) =>
      assert Head(OKAY, 0) + [] == Head(OKAY, 0) && Msg(FAIL, w.text) + [] == Msg(FAIL, w.text);
    case GetFile(path) =>
      assert Msg(FAIL, w.text) + [] == Msg(FAIL, w.text);
      var data := OldData(files, path);
      RecvThen(ReadUpTo(data, w.get), ReadBreaks(data, w.get), w.text, rest);
  }

  lemma {:induction false} RecvThen(served: seq<seq<byte>>, broke: bool, text: seq<byte>, rest: seq<byte>)
    ensures RecvMsgs(served, broke, text, rest) == RecvMsgs(served, broke, text, []) + rest
  {
    if served != [] {
      RecvThen(served[1..], broke, text, rest);
      var m, t := Msg(DATA, served[0]), RecvMsgs(served[1..], broke, text, []);
      assert m + (t + rest) == (m + t) + rest;
    } else {
      assert Head(DONE, 0) + [] == Head(DONE, 0) && Msg(FAIL, text) + [] == Msg(FAIL, text);
    }
  }

  /** Over any session, pipelined or not, the service consumes exactly what the client wrote and
      is at a request boundary after each request ... */
  lemma {:induction false} ServiceStaysInStep(files: Files, xs: seq<Exchange>)
    requires Orderly(files, xs)
    ensures ServeAll(files, AskedAll(xs), xs) == Session(EffectAll(files, xs), [], AnsweredAll(files, xs))
    decreases xs
  {
    if xs != [] {
      ServiceInStep(files, xs[0].r, xs[0].w, AskedAll(xs[1..]));
      ServiceStaysInStep(Effect(files, xs[0].r, xs[0].w), xs[1..]);
    }
  }

  /** ... and the client consumes exactly what the service answered, and learns what happened. */
  lemma {:induction false} ClientStaysInStep(files: Files, xs: seq<Exchange>)
    requires Orderly(files, xs) && ShortTexts(files, xs)
    ensures HearAll(xs, AnsweredAll(files, xs)) == HeardAll(ExpectedAll(files, xs), [])
    decreases xs
  {
    if xs != [] {
      var next := Effect(files, xs[0].r, xs[0].w);
      AnswerThen(files, xs[0].r, xs[0].w, AnsweredAll(next, xs[1..]));
      ClientInStep(files, xs[0].r, xs[0].w, AnsweredAll(next, xs[1..]));
      ClientStaysInStep(next, xs[1..]);
    }
  }

  /** The client only limits the path; if its suffix takes the name over the limit, the service says so
      and hangs up, and only otherwise does it look at the request. */
  lemma {:induction false} LongNameHangsUp(files: Files, r: Req, w: World, rest: seq<byte>)
    requires r.PutFile? && |Name(r.path, r.mode)| < WORD
    ensures var name, more := Name(r.path, r.mode), DataMsgs(r.chunks, r.mtime, rest);
            Serve(files, Asked(r, rest), w) ==
            if |name| > NAME_MAX then Closed(files, Complaint("invalid namelen"))
            else ServeNamed(files, SEND, CString(name), more, w)
  {
    MsgReads(SEND, Name(r.path, r.mode), DataMsgs(r.chunks, r.mtime, rest));
  }

  // ---------------------------------------------------------------- what is stored

  /** A file that was sent gets exactly one status, which the client hears: OKAY if and only if it could be
      opened and all of it written.  What is stored then is the concatenation of the pieces if and only
      if no longer old file stayed under it; no other file has changed. */
  lemma OkayMeansStored(files: Files, r: Req, w: World, rest: seq<byte>)
    requires r.PutFile? && !IsLink(r.mode) && Honest(r) && Plain(w) && Direct(files, r, w)
    ensures var s := Serve(files, Asked(r, rest), w);
            && s.Served? && s.rest == rest && (s.answer == Head(OKAY, 0) || s.answer == Msg(FAIL, w.text))
            && Hear(r, s.answer).Heard?
            && var okay, f := Hear(r, s.answer).result == PutOk, s.files;
               && (okay <==> s.answer == Head(OKAY, 0))
               && (okay <==> Opens(files, r.path, w.put) && w.put.badWrite >= |r.chunks|)
               && (okay ==> (r.path in f && f[r.path] == Regular(Flat(r.chunks)) <==>
                             r.path !in files || w.put.unlinkOk || |OldData(files, r.path)| <= |Flat(r.chunks)|))
               && (!okay ==> (r.path !in f <==> if Opens(files, r.path, w.put) then w.put.unlinkAgainOk
                                                else r.path !in files || w.put.unlinkOk))
               && (forall p :: p != r.path ==> (p in f <==> p in files) && (p in f ==> f[p] == files[p]))
  {
    ServiceInStep(files, r, w, rest);
    StoreExactly(files, r.path, r.chunks, w.put);
    HearPut(files, r, w, []);
    HeadReads(OKAY, 0, []);
    FailReads(w.text, []);
    assert Head(OKAY, 0) + [] == Head(OKAY, 0) && Msg(FAIL, w.text) + [] == Msg(FAIL, w.text);
  }

  /** A file that was pushed with OKAY can be pulled, in whatever pieces it travels each way, and comes back
      equal if and only if no longer old file stayed under it. */
  lemma PushThenPull(files: Files, put: Req, w: World, w': World, rest: seq<byte>)
    requires put.PutFile? && !IsLink(put.mode) && Honest(put) && Plain(w) && Plain(w') && Direct(files, put, w)
    requires Hear(put, Answer(files, put, w, [])) == Heard(PutOk, [])
    ensures var get := GetFile(put.path);
            var s := Serve(files, Asked(put, Asked(get, rest)), w);
            && s.Served? && s.answer == Answer(files, put, w, [])
            && var s' := Serve(s.files, s.rest, w');
               && s'.Served? && s'.rest == rest
               && (!Fails(s.files, get, w') ==>
                     (Hear(get, s'.answer) == Heard(GotFile(Flat(put.chunks)), []) <==>
                      put.path !in files || w.put.unlinkOk || |OldData(files, put.path)| <= |Flat(put.chunks)|))
  {
    var get := GetFile(put.path);
    OkayMeansStored(files, put, w, Asked(get, rest));
    ServiceInStep(files, put, w, Asked(get, rest));
    StoreExactly(files, put.path, put.chunks, w.put);
    var s := Serve(files, Asked(put, Asked(get, rest)), w);
    ServiceInStep(s.files, get, w', rest);
    HearGet(s.files, get, w', []);
  }
}
