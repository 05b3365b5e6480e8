/** The loops of the file sync service and of its client, proved against SyncSession.dfy. */
module SyncPrograms {
  import opened Bytes
  import opened Framing
  import opened Hexadecimal
  import opened Sync
  import opened SyncFiles
  import opened SyncSession

  class Service {
    var input: seq<byte>
    var output: seq<byte>
    var files: Files

    constructor (input: seq<byte>, files: Files)
      ensures this.input == input && this.files == files && output == []
    {
      this.input, this.files, this.output := input, files, [];
    }

    /** adb_unlink. */
    method Unlink(path: seq<byte>, ok: bool)
      modifies this`files
      ensures files == Unlinked(old(files), path, ok)
    {
      if ok { files := files - {path}; }
    }

    /** The opens of handle_send_file: a new file, or the one that is still there, which is not
        truncated. */
    method Open(path: seq<byte>, w: World) returns (fd: bool)
      modifies this`files, this`output
      ensures fd == if path in old(files) then w.put.reopenOk else w.put.createOk
      ensures files == if fd && path !in old(files) then old(files)[path := Regular([])] else old(files)
      ensures output == if fd then old(output) else old(output) + Msg(FAIL, w.text)
    {
      fd := path !in files && w.put.createOk;
      if fd {
        files := files[path := Regular([])];
      } else if path in files {
        fd := w.put.reopenOk;
      }
      if !fd { output := output + Msg(FAIL, w.text); }
    }

    /** One DATA message: it is written behind what was written before, `at` bytes, unless there is no open
        file; a write that fails closes and unlinks it and is reported. */
    method WriteChunk(path: seq<byte>, at: nat, buffer: seq<byte>, fails: bool, w: World) returns (fd: bool)
      requires path in files && files[path].Regular? && at <= |files[path].data|
      modifies this`files, this`output
      ensures fd == !fails
      ensures output == if fd then old(output) else old(output) + Msg(FAIL, w.text)
      ensures var data := old(files)[path].data;
              var wrote := if fails then buffer[..Min(w.put.partial, |buffer|)] else buffer;
              var after := old(files)[path := Regular(WriteAt(data, at, wrote))];
              files == if fails then Unlinked(after, path, w.put.unlinkAgainOk) else after
    {
      var data := files[path].data;
      var wrote := if fails then buffer[..Min(w.put.partial, |buffer|)] else buffer;
      files := files[path := Regular(WriteAt(data, at, wrote))];
      fd := !fails;
      if fails {
        Unlink(path, w.put.unlinkAgainOk);
        output := output + Msg(FAIL, w.text);
      }
    }

    method StartFile(path: seq<byte>, w: World, ghost files0: Files) returns (fd: bool)
      requires files == Unlinked(files0, path, w.put.unlinkOk) && !ThroughLink(files0, path, w.put)
      modifies this`files, this`output
      ensures Storing(files0, path, w.put)([]) == Stored(files, fd)
      ensures output == old(output) + Status(fd, w)
    {
      fd := Open(path, w);
      StoreNothing(files0, path, w.put);
    }

    /** handle_send_file up to its status. */
    method ReceiveFile(path: seq<byte>, w: World, ghost files0: Files, ghost gather: seq<byte> -> Gathered)
      returns (ok: bool, fd: bool)
      requires forall b :: Parses(gather, b)
      requires files == Unlinked(files0, path, w.put.unlinkOk) && !ThroughLink(files0, path, w.put)
      modifies this
      ensures var g := gather(old(input));
              && Storing(files0, path, w.put)(g.chunks) == Stored(files, fd)
              && (ok <==> g.Gathered?) && (ok ==> input == g.rest)
              && output == old(output) + (Status(fd, w) + if ok then [] else StopWords(g.why))
    {
      var open := StartFile(path, w, files0);
      StoreGrows(files0, path, w.put);
      ghost var o, store := output, Storing(files0, path, w.put);
      ok, fd := ReceiveLoop(path, open, w, store, gather);
      StatusOnce(old(output), open, fd, w, if ok then [] else StopWords(gather(old(input)).why));
    }

    /** Its message loop.  After a failed open or write it goes on reading up to DONE, but says FAIL only
        once; false where the client breaks off.  `store` is what becomes of the chunks. */
    method ReceiveLoop(path: seq<byte>, open: bool, w: World, ghost store: seq<seq<byte>> -> Stored,
                       ghost gather: seq<byte> -> Gathered) returns (ok: bool, fd: bool)
      requires forall b :: Parses(gather, b)
      requires store([]) == Stored(files, open)
      requires forall done, c :: GrowsBy(store, path, done, c, w.put)
      modifies this
      ensures var g := gather(old(input));
              var s := store(g.chunks);
              && files == s.files && fd == s.okay && (fd ==> open) && (ok <==> g.Gathered?)
              && (ok ==> input == g.rest)
              && output == old(output) + (Said(open, fd, w) + if ok then [] else StopWords(g.why))
    {
      ghost var done: seq<seq<byte>> := [];
      fd := open;
      var n, at := 0, 0;
      var m := NextMessage(gather);
      ghost var base, goal := old(output), gather(old(input));
      while m.Chunk?
        invariant n == |done| && at == |Flat(done)| && (fd ==> open)
        invariant store(done) == Stored(files, fd)
        invariant base == old(output) + Said(open, fd, w) && output == base + LastWords(m)
        invariant goal == After(done, Pending(gather, m, input))
        decreases |input| + if m.Chunk? then 1 else 0
      {
        AfterMore(done, m.buffer, gather(input));
        FlatSnoc(done, m.buffer);
        ghost var was := fd;
        fd := TakeChunk(path, open, fd, n, at, m.buffer, w, store, done);
        SaidMore(old(output), open, was, fd, w);
        base := base + Wrote(was, fd, w);
        done, n, at := done + [m.buffer], n + 1, at + |m.buffer|;
        m := NextMessage(gather);
      }
      ok := m.Finished?;
      GatheredAll(done, m, gather, input);
      Regroup(old(output), Said(open, fd, w), LastWords(m));
    }

    /** Reads one message, and complains if it is none of those expected. */
    method NextMessage(ghost gather: seq<byte> -> Gathered) returns (m: Message)
      requires forall b :: Parses(gather, b)
      modifies this`input, this`output
      ensures output == old(output) + LastWords(m)
      ensures gather(old(input)) == Pending(gather, m, input)
      ensures |input| <= |old(input)| && (m.Chunk? ==> |input| < |old(input)|)
    {
      assert Parses(gather, input);
      if |input| < 8 { return Break(Short); }
      var id, len := Unword(input[..4]), Unword(input[4..8]);
      var body := input[8..];
      if id == DONE {
        input := body;
        return Finished(len);
      }
      if id != DATA {
        output := output + Complaint("invalid data message");
        return Break(NotData(id, len, body));
      }
      if len > DATA_MAX {
        output := output + Complaint("oversize data message");
        return Break(Oversize);
      }
      if |input| < 8 + len { return Break(Short); }
      m := Chunk(input[8..8 + len]);
      input := input[8 + len..];
    }

    /** One round of that loop. */
    method TakeChunk(path: seq<byte>, ghost open: bool, fd: bool, n: nat, at: nat, buffer: seq<byte>, w: World,
                     ghost store: seq<seq<byte>> -> Stored, ghost done: seq<seq<byte>>) returns (fd': bool)
      requires (forall done, c :: GrowsBy(store, path, done, c, w.put)) && store(done) == Stored(files, fd)
      requires n == |done| && at == |Flat(done)| && (fd ==> open)
      modifies this`files, this`output
      ensures store(done + [buffer]) == Stored(files, fd') && (fd' ==> fd)
      ensures output == old(output) + Wrote(fd, fd', w)
    {
      fd' := fd;
      assert GrowsBy(store, path, done, buffer, w.put);
      if fd { fd' := WriteChunk(path, at, buffer, w.put.badWrite == n, w); }
    }

    /** do_recv on a file that is open. */
    method SendPieces(data: seq<byte>, w: World)
      modifies this`output
      ensures output == old(output) + RecvMsgs(ReadUpTo(data, w.get), ReadBreaks(data, w.get), w.text, [])
    {
      var out, broke := ReadLoop(data, w.get, c => Msg(DATA, c), (d, io) => Messages(ReadUpTo(d, io)),
                                 (d, io) => ReadBreaks(d, io));
      RecvMessages(ReadUpTo(data, w.get), broke, w.text);
      Regroup(output, out, if broke then Msg(FAIL, w.text) else Head(DONE, 0));
      output := output + out + if broke then Msg(FAIL, w.text) else Head(DONE, 0);
    }

    /** What a method of the service does is what the reference round says. */
    twostate predicate Did(r: Round, ok: bool)
      reads this
    {
      match r
      case Served(f, rest, answer) => ok && files == f && input == rest && output == old(output) + answer
      case Closed(f, answer) => !ok && files == f && output == old(output) + answer
      case Unmodelled => true
    }

    /** do_send for a regular file. */
    method StoreFile(t: Target, w: World) returns (ok: bool)
      requires !IsLink(t.mode)
      modifies this
      ensures Did(ServeSend(old(files), t, old(input), w), ok)
    {
      if ThroughLink(files, t.path, w.put) { return false; }
      GatherParses();
      ok := StoreGathered(t.path, w, Gather);
    }

    method StoreGathered(path: seq<byte>, w: World, ghost gather: seq<byte> -> Gathered) returns (ok: bool)
      requires !ThroughLink(files, path, w.put) && forall b :: Parses(gather, b)
      modifies this
      ensures Did(ServeGathered(old(files), path, gather(old(input)), w), ok)
    {
      ghost var files0 := files;
      Unlink(path, w.put.unlinkOk);
      var fd;
      ok, fd := ReceiveFile(path, w, files0, gather);
      SettleFile(path, ok, fd, w, gather(old(input)), old(output));
    }

    /** What follows the message loop. */
    method SettleFile(path: seq<byte>, ok: bool, fd: bool, w: World, ghost g: Gathered, ghost before: seq<byte>)
      requires (ok <==> g.Gathered?) && (ok ==> input == g.rest)
      requires output == before + (Status(fd, w) + if ok then [] else StopWords(g.why))
      modifies this`files, this`output
      ensures match Settle(Stored(old(files), fd), path, g, w)
              case Served(f, rest, answer) => ok && files == f && input == rest && output == before + answer
              case Closed(f, answer) => !ok && files == f && output == before + answer
              case Unmodelled => false
    {
      if !ok {
        Unlink(path, w.put.unlinkLastOk);
      } else if fd {
        output := output + Head(OKAY, 0);
      }
    }

    /** handle_send_link. */
    method StoreLink(path: seq<byte>, w: World) returns (ok: bool)
      modifies this
      ensures Did(ServeLink(old(files), path, old(input), w), ok)
    {
      ok := false;
      if |input| < 8 { return; }
      if Unword(input[..4]) != DATA {
        output := output + Complaint("invalid data message: expected ID_DATA");
        return;
      }
      var len := Unword(input[4..8]);
      if len > DATA_MAX {
        output := output + Complaint("oversize data message");
        return;
      }
      if |input| < 8 + len { return; }
      var target := CString(input[8..8 + len]);
      input := input[8 + len..];
      if path in files || !w.put.linkOk {
        output := output + Msg(FAIL, w.text);
        return;
      }
      files := files[path := Symlink(target)];
      if |input| < 8 { return; }
      if Unword(input[..4]) != DONE {
        output := output + Complaint("invalid data message: expected ID_DONE");
        return;
      }
      input := input[8..];
      output := output + Head(OKAY, 0);
      ok := true;
    }

    /** do_recv. */
    method FetchFile(path: seq<byte>, w: World)
      modifies this`output
      ensures Direct(files, GetFile(path), w) ==> output == old(output) + Answer(files, GetFile(path), w, [])
    {
      if path in files && w.get.openOk {
        if files[path].Regular? { SendPieces(files[path].data, w); }
      } else {
        assert Msg(FAIL, w.text) + [] == Msg(FAIL, w.text);
        output := output + Msg(FAIL, w.text);
      }
    }

    /** One round of file_sync_service; false where the connection is closed. */
    method Round(w: World) returns (ok: bool)
      modifies this
      ensures Did(Serve(old(files), old(input), w), ok)
    {
      ok := false;
      if |input| < 8 {
        output := output + Complaint("command read failure");
        return;
      }
      var id, len := Unword(input[..4]), Unword(input[4..8]);
      if len > NAME_MAX {
        output := output + Complaint("invalid namelen");
        return;
      }
      if |input| < 8 + len {
        output := output + Complaint("filename read failure");
        return;
      }
      var name := CString(input[8..8 + len]);
      input := input[8 + len..];
      ok := Switch(id, name, w);
    }

    method Switch(id: nat, name: seq<byte>, w: World) returns (ok: bool)
      modifies this
      ensures Did(ServeNamed(old(files), id, name, old(input), w), ok)
    {
      ok := false;
      if id == STAT {
        output := output + StatMsg(w.stat);
        ok := true;
      } else if id == RECV {
        FetchFile(name, w);
        ok := true;
      } else if id == SEND {
        var t := Split(name);
        if IsLink(t.mode) {
          Unlink(t.path, w.put.unlinkOk);
          ok := StoreLink(t.path, w);
        } else {
          ok := StoreFile(t, w);
        }
      } else if id != QUIT && id != LIST {
        output := output + Complaint("unknown command");
      }
    }
  }

  /** DATA messages without an end. */
  function Messages(chunks: seq<seq<byte>>): (s: seq<byte>)
  {
    if chunks == [] then [] else Msg(DATA, chunks[0]) + Messages(chunks[1..])
  }

  lemma {:induction false} RecvMessages(served: seq<seq<byte>>, broke: bool, text: seq<byte>)
    ensures RecvMsgs(served, broke, text, []) == Messages(served) + if broke then Msg(FAIL, text) else Head(DONE, 0)
  {
    var end := if broke then Msg(FAIL, text) else Head(DONE, 0);
    assert end + [] == end && [] + end == end;
    if served != [] {
      RecvMessages(served[1..], broke, text);
      Regroup(Msg(DATA, served[0]), Messages(served[1..]), end);
    }
  }

  lemma {:induction false} DataMessages(chunks: seq<seq<byte>>, mtime: nat)
    ensures DataMsgs(chunks, mtime, []) == Messages(chunks) + Head(DONE, mtime)
  {
    var end := Head(DONE, mtime);
    assert end + [] == end && [] + end == end;
    if chunks != [] {
      DataMessages(chunks[1..], mtime);
      Regroup(Msg(DATA, chunks[0]), Messages(chunks[1..]), end);
    }
  }

  /** What the pieces of a file become, read by read. */
  ghost predicate Reads(msg: seq<byte> -> seq<byte>, msgs: (seq<byte>, GetWorld) -> seq<byte>,
                        breaks: (seq<byte>, GetWorld) -> bool, d: seq<byte>, io: GetWorld)
  {
    if io.badRead == 0 then msgs(d, io) == [] && breaks(d, io)
    else if d == [] then msgs(d, io) == [] && !breaks(d, io)
    else
      var n := ReadSize(|d|, io.sizes);
      && msgs(d, io) == msg(d[..n]) + msgs(d[n..], NextRead(io))
      && breaks(d, io) == breaks(d[n..], NextRead(io))
  }

  /** The reading loops of do_recv and of write_data_file. */
  method ReadLoop(data: seq<byte>, w: GetWorld, msg: seq<byte> -> seq<byte>,
                  ghost msgs: (seq<byte>, GetWorld) -> seq<byte>, ghost breaks: (seq<byte>, GetWorld) -> bool)
    returns (out: seq<byte>, broke: bool)
    requires forall d, io :: Reads(msg, msgs, breaks, d, io)
    ensures out == msgs(data, w) && broke == breaks(data, w)
  {
    var left, io := data, w;
    out := [];
    while left != [] && io.badRead != 0
      invariant msgs(data, w) == out + msgs(left, io) && breaks(data, w) == breaks(left, io)
      decreases |left|
    {
      assert Reads(msg, msgs, breaks, left, io);
      var n := ReadSize(|left|, io.sizes);
      Regroup(out, msg(left[..n]), msgs(left[n..], NextRead(io)));
      out := out + msg(left[..n]);
      left, io := left[n..], NextRead(io);
    }
    assert Reads(msg, msgs, breaks, left, io);
    broke := io.badRead == 0;
    assert out + [] == out;
  }

  /** One message of a file that is sent. */
  datatype Message = Chunk(buffer: seq<byte>) | Finished(last: nat) | Break(why: Stop)

  function LastWords(m: Message): seq<byte> { if m.Break? then StopWords(m.why) else [] }

  /** What is gathered from this message on. */
  ghost function Pending(gather: seq<byte> -> Gathered, m: Message, rest: seq<byte>): Gathered
  {
    match m
    case Chunk(c) => After([c], gather(rest))
    case Finished(last) => Gathered([], last, rest)
    case Break(why) => Stopped([], why)
  }

  /** One level of Gather. */
  ghost predicate Parses(gather: seq<byte> -> Gathered, b: seq<byte>)
  {
    gather(b) ==
    if |b| < 8 then Stopped([], Short)
    else
      var id, size := Unword(b[..4]), Unword(b[4..8]);
      if id == DONE then Gathered([], size, b[8..])
      else if id != DATA then Stopped([], NotData(id, size, b[8..]))
      else if size > DATA_MAX then Stopped([], Oversize)
      else if |b| < 8 + size then Stopped([], Short)
      else After([b[8..8 + size]], gather(b[8 + size..]))
  }

  /** What the loop says after the open: FAIL if a write failed. */
  function Said(open: bool, fd: bool, w: World): seq<byte> { if open && !fd then Msg(FAIL, w.text) else [] }

  /** What is said in all: FAIL once if anything failed. */
  function Status(fd: bool, w: World): seq<byte> { if fd then [] else Msg(FAIL, w.text) }

  lemma StatusOnce(o: seq<byte>, open: bool, fd: bool, w: World, words: seq<byte>)
    requires fd ==> open
    ensures o + Status(open, w) + (Said(open, fd, w) + words) == o + (Status(fd, w) + words)
  {
  }

  /** What it says at a chunk: FAIL if its write failed. */
  function Wrote(fd: bool, fd': bool, w: World): seq<byte> { if fd && !fd' then Msg(FAIL, w.text) else [] }

  lemma SaidMore(o: seq<byte>, open: bool, fd: bool, fd': bool, w: World)
    requires (fd ==> open) && (fd' ==> fd)
    ensures o + Said(open, fd, w) + Wrote(fd, fd', w) == o + Said(open, fd', w)
  {
  }

  lemma GatheredAll(done: seq<seq<byte>>, m: Message, gather: seq<byte> -> Gathered, rest: seq<byte>)
    requires !m.Chunk?
    ensures var g := After(done, Pending(gather, m, rest));
            g.chunks == done && (g.Gathered? <==> m.Finished?) && (g.Gathered? ==> g.rest == rest)
            && (g.Stopped? ==> m.Break? && g.why == m.why)
  {
    assert done + [] == done;
  }

  /** How one more chunk changes what is stored. */
  ghost predicate GrowsBy(store: seq<seq<byte>> -> Stored, path: seq<byte>, done: seq<seq<byte>>, c: seq<byte>, w: PutWorld)
  {
    var s, s' := store(done), store(done + [c]);
    && (!s.okay ==> s' == s)
    && (s.okay ==>
          && path in s.files && s.files[path].Regular? && |Flat(done)| <= |s.files[path].data|
          && var data, at, fails := s.files[path].data, |Flat(done)|, w.badWrite == |done|;
             var wrote := if fails then c[..Min(w.partial, |c|)] else c;
             var after := s.files[path := Regular(WriteAt(data, at, wrote))];
             s' == if fails then Stored(Unlinked(after, path, w.unlinkAgainOk), false) else Stored(after, true))
  }

  /** Writing at an offset. */
  function WriteAt(data: seq<byte>, at: nat, wrote: seq<byte>): seq<byte>
    requires at <= |data|
  {
    data[..at] + Overlay(data[at..], wrote)
  }

  ghost function Storing(files: Files, path: seq<byte>, w: PutWorld): seq<seq<byte>> -> Stored
  {
    chunks => Store(files, path, chunks, w)
  }

  lemma StoreGrows(files: Files, path: seq<byte>, w: PutWorld)
    ensures forall done, c :: GrowsBy(Storing(files, path, w), path, done, c, w)
  {
    forall done, c ensures GrowsBy(Storing(files, path, w), path, done, c, w) { StoreMore(files, path, done, c, w); }
  }

  lemma GatherParses()
    ensures forall b :: Parses(Gather, b)
  {
  }

  lemma StoreMore(files: Files, path: seq<byte>, done: seq<seq<byte>>, c: seq<byte>, w: PutWorld)
    ensures GrowsBy(Storing(files, path, w), path, done, c, w)
  {
    if !Opens(files, path, w) {
    } else if w.badWrite < |done| {
      assert (done + [c])[..w.badWrite] == done[..w.badWrite] && (done + [c])[w.badWrite] == done[w.badWrite];
    } else if w.badWrite == |done| {
      BadWrite(files, path, done, c, w);
    } else {
      GoodWrite(files, path, done, c, w);
    }
  }

  lemma BadWrite(files: Files, path: seq<byte>, done: seq<seq<byte>>, c: seq<byte>, w: PutWorld)
    requires Opens(files, path, w) && w.badWrite == |done|
    ensures GrowsBy(Storing(files, path, w), path, done, c, w)
  {
    var base, under, wrote := Unlinked(files, path, w.unlinkOk), Under(files, path, w), c[..Min(w.partial, |c|)];
    assert (done + [c])[..|done|] == done && (done + [c])[|done|] == c;
    OverlayTwice(under, Flat(done), wrote);
    Rewritten(base, path, Regular(Overlay(under, Flat(done))), Regular(Overlay(under, Flat(done) + wrote)));
  }

  lemma GoodWrite(files: Files, path: seq<byte>, done: seq<seq<byte>>, c: seq<byte>, w: PutWorld)
    requires Opens(files, path, w) && w.badWrite > |done|
    ensures GrowsBy(Storing(files, path, w), path, done, c, w)
  {
    var base, under := Unlinked(files, path, w.unlinkOk), Under(files, path, w);
    FlatSnoc(done, c);
    OverlayTwice(under, Flat(done), c);
    Rewritten(base, path, Regular(Overlay(under, Flat(done))), Regular(Overlay(under, Flat(done) + c)));
  }

  lemma Rewritten(base: Files, path: seq<byte>, was: Node, more: Node)
    ensures base[path := was][path := more] == base[path := more]
  {
  }

  /** Opening alone: a new file is empty, an old one as it was. */
  lemma StoreNothing(files: Files, path: seq<byte>, w: PutWorld)
    ensures var base, opens := Unlinked(files, path, w.unlinkOk), Opens(files, path, w);
            Store(files, path, [], w) ==
            Stored(if opens && path !in base then base[path := Regular([])]
                   else if opens && base[path].Symlink? then base[path := Regular([])] else base, opens)
  {
    var base := Unlinked(files, path, w.unlinkOk);
    assert Overlay(Under(files, path, w), []) == Under(files, path, w);
    if path in base && base[path].Regular? { assert base[path := base[path]] == base; }
  }

  lemma OverlayTwice(under: seq<byte>, x: seq<byte>, y: seq<byte>)
    ensures var data := Overlay(under, x);
            WriteAt(data, |x|, y) == Overlay(under, x + y)
  {
    var data := Overlay(under, x);
    assert data[|x|..] == if |x| < |under| then under[|x|..] else [];
  }

  /** Chunks seen before the rest is gathered. */
  function After(done: seq<seq<byte>>, g: Gathered): Gathered
  {
    match g
    case Stopped(chunks, why) => Stopped(done + chunks, why)
    case Gathered(chunks, last, rest) => Gathered(done + chunks, last, rest)
  }

  lemma AfterMore(done: seq<seq<byte>>, buffer: seq<byte>, g: Gathered)
    ensures After(done, After([buffer], g)) == After(done + [buffer], g)
  {
    assert done + ([buffer] + g.chunks) == done + [buffer] + g.chunks;
  }

  lemma {:induction false} FlatSnoc(chunks: seq<seq<byte>>, c: seq<byte>)
    ensures Flat(chunks + [c]) == Flat(chunks) + c
  {
    if chunks == [] {
      assert [] + [c] == [c] && [c][1..] == [];
      assert Flat([c]) == c + Flat([]);
    } else {
      FlatSnoc(chunks[1..], c);
      assert (chunks + [c])[1..] == chunks[1..] + [c];
    }
  }

  /** How write_data_buffer cuts a buffer. */
  function Cut(data: seq<byte>): (chunks: seq<seq<byte>>)
    ensures Flat(chunks) == data && Chunks(chunks)
    ensures forall i :: 0 <= i < |chunks| ==> chunks[i] != []
    decreases |data|
  {
    if data == [] then []
    else
      var n := if |data| > DATA_MAX then DATA_MAX else |data|;
      [data[..n]] + Cut(data[n..])
  }

  lemma {:induction false} CutStep(data: seq<byte>, total: nat, count: nat, mtime: nat)
    requires total < |data|
    requires count == if |data| - total > DATA_MAX then DATA_MAX else |data| - total
    ensures DataMsgs(Cut(data[total..]), mtime, [])
            == Msg(DATA, data[total..total + count]) + DataMsgs(Cut(data[total + count..]), mtime, [])
  {
    var chunks := Cut(data[total..]);
    assert data[total..][..count] == data[total..total + count];
    assert data[total..][count..] == data[total + count..];
    assert chunks[0] == data[total..total + count] && chunks[1..] == Cut(data[total + count..]);
  }

  lemma Regroup(x: seq<byte>, y: seq<byte>, z: seq<byte>)
    ensures x + (y + z) == x + y + z
  {
  }

  /** What sync_send finds at the local path: the content of a file and the results of open and read on it,
      or the target of a link and whether readlink succeeds. */
  datatype Source = Source(content: seq<byte>, io: GetWorld, target: seq<byte>, linkOk: bool)

  predicate IsRegular(mode: nat) { mode / 4096 % 16 == 8 }

  /** The kind of a file is in the four bits above its permissions: 010 octal for a file, 012 for a link. */
  lemma KindOfMode(kind: nat, perm: nat)
    requires kind < 16 && perm < 4096
    ensures IsRegular(kind * 4096 + perm) <==> kind == 8
    ensures IsLink(kind * 4096 + perm) <==> kind == 10
  {
  }

  /** The chunks that are sent; an apk has been read into memory beforehand.  Errors of open, read and
      readlink are reported on the terminal only. */
  function Sent(mode: nat, apk: bool, src: Source): (chunks: seq<seq<byte>>)
    ensures Chunks(chunks)
  {
    if apk then Cut(src.content)
    else if IsRegular(mode) then if src.io.openOk then ReadUpTo(src.content, src.io) else []
    else if src.linkOk then [src.target[..Min(|src.target|, DATA_MAX - 1)] + [0]]
    else []
  }

  /** The local file was read to its end. */
  predicate Whole(apk: bool, src: Source)
  {
    apk || src.content == [] || (src.io.openOk && src.io.badRead >= ReadCount(src.content, src.io.sizes))
  }

  /** What is sent for a file is the file if and only if it could be opened and read, or is empty: a local
      error truncates the copy, and the client does not notice. */
  lemma SentWhole(mode: nat, apk: bool, src: Source)
    requires apk || IsRegular(mode)
    ensures Flat(Sent(mode, apk, src)) == src.content <==> Whole(apk, src)
  {
    ReadExactly(src.content, src.io);
  }

  /** The second read of a file of two bytes fails: one byte is sent, and DONE. */
  lemma ReadErrorTruncates(mode: nat, src: Source)
    requires IsRegular(mode) && src.content == [1, 2] && src.io == GetWorld(true, [1], 1)
    ensures Sent(mode, false, src) == [[1]] && Flat(Sent(mode, false, src)) != src.content
  {
    assert ReadSize(2, [1]) == 1;
    var io := NextRead(src.io);
    assert src.content[..1] == [1] && ReadUpTo(src.content[1..], io) == [];
    assert ReadUpTo(src.content, src.io) == [src.content[..1]] + ReadUpTo(src.content[1..], io);
    var one: seq<seq<byte>> := [[1]];
    assert one[1..] == [] && Flat(one) == [1] + Flat([]);
  }

  /** No longer old file stays under what is stored. */
  predicate Bare(files: Files, path: seq<byte>, size: nat, w: PutWorld)
  {
    path !in files || w.unlinkOk || |OldData(files, path)| <= size
  }

  /** What a push comes to: whether OKAY was heard, and what is stored then. */
  ghost predicate PushOutcome(files: Files, path: seq<byte>, sent: seq<seq<byte>>, content: seq<byte>, whole: bool,
                              w: PutWorld, okay: bool, after: Files)
  {
    var same, bare := path in after && after[path] == Regular(content), Bare(files, path, |Flat(sent)|, w);
    && (okay <==> Opens(files, path, w) && w.badWrite >= |sent|)
    && (okay && bare ==> (same <==> whole))
    && (okay && whole ==> (same <==> bare))
  }

  lemma StoredAsSent(files: Files, path: seq<byte>, sent: seq<seq<byte>>, content: seq<byte>, whole: bool,
                     w: PutWorld, okay: bool, after: Files)
    requires Flat(sent) == content <==> whole
    requires okay <==> Opens(files, path, w) && w.badWrite >= |sent|
    requires okay ==> (path in after && after[path] == Regular(Flat(sent)) <==> Bare(files, path, |Flat(sent)|, w))
    ensures PushOutcome(files, path, sent, content, whole, w, okay, after)
  {
  }

  /** A push as a whole.  The client is told OKAY if and only if the service could open the file and write all
      it was sent.  Then, if no longer old file stays under it, the remote file is the local one if and only
      if the local one was read to its end; and if it was, if and only if no longer old file stays. */
  lemma PushExactly(files: Files, r: Req, apk: bool, src: Source, w: World, rest: seq<byte>)
    requires r.PutFile? && (apk || IsRegular(r.mode)) && r.chunks == Sent(r.mode, apk, src)
    requires !IsLink(r.mode) && Honest(r) && Plain(w) && Direct(files, r, w)
    ensures var s := Serve(files, Asked(r, rest), w);
            && s.Served? && s.rest == rest && Hear(r, s.answer).Heard?
            && PushOutcome(files, r.path, r.chunks, src.content, Whole(apk, src), w.put,
                           Hear(r, s.answer).result == PutOk, s.files)
  {
    SentWhole(r.mode, apk, src);
    OkayMeansStored(files, r, w, rest);
    var s := Serve(files, Asked(r, rest), w);
    StoredAsSent(files, r.path, r.chunks, src.content, Whole(apk, src), w.put, Hear(r, s.answer).result == PutOk, s.files);
  }

  /** A push of a link: the remote link has the local target, cut to what fits a message; and if the target could
      not be read, the service refuses and hangs up. */
  lemma PushLinkExactly(files: Files, r: Req, src: Source, w: World, rest: seq<byte>)
    requires r.PutFile? && IsLink(r.mode) && r.chunks == Sent(r.mode, false, src) && Plain(w)
    requires Honest(r.(chunks := [[0]])) && 0 !in src.target && Links(files, r.path, w.put)
    ensures var s, base := Serve(files, Asked(r, rest), w), Unlinked(files, r.path, w.put.unlinkOk);
            if src.linkOk then
              s == Served(base[r.path := Symlink(src.target[..Min(|src.target|, DATA_MAX - 1)])], rest, Head(OKAY, 0))
              && Hear(r, s.answer) == Heard(PutOk, [])
            else s == Closed(base, Complaint("invalid data message: expected ID_DATA"))
  {
    if src.linkOk {
      LinkIsMade(files, r, src.target[..Min(|src.target|, DATA_MAX - 1)], w, rest);
      OkayIsHeard(r);
    } else {
      NoTargetHangsUp(files, r, w, rest);
    }
  }

  lemma OkayIsHeard(r: Req)
    requires r.PutFile?
    ensures Hear(r, Head(OKAY, 0)) == Heard(PutOk, [])
  {
    HeadReads(OKAY, 0, []);
    assert Head(OKAY, 0) + [] == Head(OKAY, 0);
  }

  /** Results of the local system calls of sync_recv: creating the file, and the write that fails. */
  datatype Local = Local(createOk: bool, badWrite: nat)

  /** The local system calls succeed as far as the answer makes them necessary. */
  predicate Saves(b: seq<byte>, l: Local)
  {
    && (|b| >= 8 && (Unword(b[..4]) == DATA || Unword(b[..4]) == DONE) ==> l.createOk)
    && l.badWrite >= |Gather(b).chunks|
  }

  /** A pull as a whole.  From a regular file that can be opened, with reads that do not fail, the client hears
      exactly its contents; and the local system calls suffice exactly if the local file can be created and no
      write of a piece that arrives fails. */
  lemma PullExactly(files: Files, path: seq<byte>, w: World, rest: seq<byte>, l: Local)
    requires Plain(w) && path in files && files[path].Regular? && w.get.openOk
    requires w.get.badRead > ReadCount(files[path].data, w.get.sizes)
    ensures var b, data := Answer(files, GetFile(path), w, rest), files[path].data;
            && Hear(GetFile(path), b) == Heard(GotFile(data), rest)
            && (Saves(b, l) <==> l.createOk && l.badWrite >= ReadCount(data, w.get.sizes))
  {
    var data := files[path].data;
    var ps := ReadUpTo(data, w.get);
    GatherRecvMsgs(ps, false, w.text, rest);
    ReadExactly(data, w.get);
    ReadAll(data, w.get);
    FirstId(ps, w.text, rest);
  }

  lemma {:induction false} ReadAll(data: seq<byte>, w: GetWorld)
    requires w.badRead > ReadCount(data, w.sizes)
    ensures |ReadUpTo(data, w)| == ReadCount(data, w.sizes)
    decreases |data|
  {
    if data != [] { ReadAll(data[ReadSize(|data|, w.sizes)..], NextRead(w)); }
  }

  lemma FirstId(ps: seq<seq<byte>>, text: seq<byte>, rest: seq<byte>)
    requires Chunks(ps)
    ensures var b := RecvMsgs(ps, false, text, rest);
            |b| >= 8 && (Unword(b[..4]) == DATA || Unword(b[..4]) == DONE)
  {
    if ps == [] { HeadReads(DONE, 0, rest); } else { MsgReads(DATA, ps[0], RecvMsgs(ps[1..], false, text, rest)); }
  }

  datatype Saved = NoFile | File(data: seq<byte>)

  class Client {
    var out: seq<byte>
    var inp: seq<byte>
    /** The local file that sync_recv writes. */
    var saved: Saved

    constructor (inp: seq<byte>)
      ensures this.inp == inp && out == [] && saved == NoFile
    {
      this.inp, this.out, this.saved := inp, [], NoFile;
    }

    /** write_data_buffer. */
    method WriteDataBuffer(data: seq<byte>, ghost mtime: nat)
      modifies this`out
      ensures out + Head(DONE, mtime) == old(out) + DataMsgs(Cut(data), mtime, [])
    {
      var total := 0;
      assert data[0..] == data;
      while total < |data|
        invariant 0 <= total <= |data|
        invariant old(out) + DataMsgs(Cut(data), mtime, []) == out + DataMsgs(Cut(data[total..]), mtime, [])
      {
        var count := |data| - total;
        if count > DATA_MAX { count := DATA_MAX; }
        CutStep(data, total, count, mtime);
        Regroup(out, Msg(DATA, data[total..total + count]), DataMsgs(Cut(data[total + count..]), mtime, []));
        out := out + Msg(DATA, data[total..total + count]);
        total := total + count;
      }
      assert Head(DONE, mtime) + [] == Head(DONE, mtime);
    }

    /** write_data_file, once the file is open. */
    method WriteDataFile(data: seq<byte>, w: GetWorld, ghost mtime: nat)
      modifies this`out
      ensures out + Head(DONE, mtime) == old(out) + DataMsgs(ReadUpTo(data, w), mtime, [])
    {
      var more, _ := ReadLoop(data, w, c => Msg(DATA, c), (d, io) => Messages(ReadUpTo(d, io)),
                              (d, io) => ReadBreaks(d, io));
      DataMessages(ReadUpTo(data, w), mtime);
      Regroup(out, more, Head(DONE, mtime));
      out := out + more;
    }

    /** write_data_link. */
    method WriteDataLink(target: seq<byte>, ghost mtime: nat)
      modifies this`out
      ensures out + Head(DONE, mtime) ==
              old(out) + DataMsgs([target[..Min(|target|, DATA_MAX - 1)] + [0]], mtime, [])
    {
      var body := target[..Min(|target|, DATA_MAX - 1)] + [0];
      ghost var one: seq<seq<byte>> := [body];
      assert one[1..] == [];
      assert Head(DONE, mtime) + [] == Head(DONE, mtime);
      Regroup(out, Msg(DATA, body), Head(DONE, mtime));
      out := out + Msg(DATA, body);
    }

    /** sync_send: the file is sent, then the status is read; `inp` is what the service will have answered. */
    method SyncSend(path: seq<byte>, mode: nat, mtime: nat, apk: bool, src: Source) returns (h: Heard)
      modifies this`out, this`inp
      ensures var r := PutFile(path, mode, Sent(mode, apk, src), mtime);
              if |path| <= NAME_MAX && (apk || IsRegular(mode) || IsLink(mode)) then
                out == old(out) + Asked(r, []) && h == Hear(r, old(inp)) && (h.Heard? ==> inp == h.rest)
              else h == Lost && inp == old(inp)
    {
      var ok := SendFile(path, mode, mtime, apk, src);
      if !ok { return Lost; }
      h := ReadStatus(PutFile(path, mode, Sent(mode, apk, src), mtime));
    }

    /** The request half of sync_send; false where it gives up. */
    method SendFile(path: seq<byte>, mode: nat, mtime: nat, apk: bool, src: Source) returns (ok: bool)
      modifies this`out
      ensures ok <==> |path| <= NAME_MAX && (apk || IsRegular(mode) || IsLink(mode))
      ensures ok ==> out == old(out) + Asked(PutFile(path, mode, Sent(mode, apk, src), mtime), [])
    {
      if |path| > NAME_MAX { return false; }
      var name := path + [COMMA] + Decimal(mode);
      Regroup(out, Head(SEND, |name|), name);
      out := out + Head(SEND, |name|) + name;
      if !apk && !IsRegular(mode) && !IsLink(mode) { return false; }
      WriteData(mode, mtime, apk, src);
      Regroup(old(out), Msg(SEND, name), DataMsgs(Sent(mode, apk, src), mtime, []));
      ok := true;
    }

    /** Its data messages and the DONE. */
    method WriteData(mode: nat, mtime: nat, apk: bool, src: Source)
      requires apk || IsRegular(mode) || IsLink(mode)
      modifies this`out
      ensures out == old(out) + DataMsgs(Sent(mode, apk, src), mtime, [])
    {
      assert Head(DONE, mtime) + [] == Head(DONE, mtime);
      if apk {
        WriteDataBuffer(src.content, mtime);
      } else if IsRegular(mode) {
        if src.io.openOk { WriteDataFile(src.content, src.io, mtime); }
      } else if src.linkOk {
        WriteDataLink(src.target, mtime);
      }
      out := out + Head(DONE, mtime);
    }

    /** The reading half of sync_send. */
    method ReadStatus(ghost r: Req) returns (h: Heard)
      requires r.PutFile?
      modifies this`inp
      ensures h == Hear(r, old(inp)) && (h.Heard? ==> inp == h.rest)
    {
      if |inp| < 8 { return Lost; }
      var id, len := Unword(inp[..4]), Unword(inp[4..8]);
      var body := inp[8..];
      inp := body;
      if id == OKAY { return Heard(PutOk, body); }
      if id != FAIL { return Heard(PutFailed([]), body); }
      if len > TEXT_MAX { len := TEXT_MAX; }
      if |body| < len { return Lost; }
      assert old(inp)[8..8 + len] == body[..len] && old(inp)[8 + len..] == body[len..];
      inp := body[len..];
      h := Heard(PutFailed(body[..len]), inp);
    }

    /** The end of sync_recv when the service reports a failure: the local file goes. */
    method RemoteError(id: nat, size: nat) returns (h: Heard)
      modifies this`inp, this`saved
      ensures saved == NoFile
      ensures var n := TextLen(size);
              h == if id != FAIL then Heard(GetFailed([]), old(inp))
                   else if |old(inp)| < n then Lost
                   else Heard(GetFailed(old(inp)[..n]), old(inp)[n..])
      ensures h.Heard? ==> inp == h.rest
    {
      saved := NoFile;
      if id != FAIL { return Heard(GetFailed([]), inp); }
      var len := if size > TEXT_MAX then TEXT_MAX else size;
      if |inp| < len { return Lost; }
      var text := inp[..len];
      inp := inp[len..];
      h := Heard(GetFailed(text), inp);
    }

    /** The answer half of sync_recv.  It gives up when a local system call fails; otherwise it hears what the
        reference client hears, and the local file is what was pulled, or gone after a failure. */
    method SyncRecv(r: Req, l: Local) returns (h: Heard)
      requires r.GetFile?
      modifies this`inp, this`saved
      ensures h == if Saves(old(inp), l) then Hear(r, old(inp)) else Lost
      ensures h.Heard? ==> inp == h.rest && saved == if h.result.GotFile? then File(h.result.data) else NoFile
    {
      if |inp| < 8 { return Lost; }
      var id := Unword(inp[..4]);
      if id == DATA || id == DONE {
        if !l.createOk { return Lost; }
        saved := File([]);
      } else {
        saved := NoFile;
      }
      h := RecvLoop(l, Gather);
    }

    /** Reads one message of the answer. */
    method NextMessage(ghost gather: seq<byte> -> Gathered) returns (m: Message)
      requires forall b :: Parses(gather, b)
      modifies this`inp
      ensures gather(old(inp)) == Pending(gather, m, inp)
      ensures m.Break? && m.why.NotData? ==> inp == m.why.rest
      ensures |inp| <= |old(inp)| && (m.Chunk? ==> |inp| < |old(inp)|)
      ensures |old(inp)| >= 8 && Unword(old(inp)[..4]) != DATA && Unword(old(inp)[..4]) != DONE ==>
                m.Break? && m.why.NotData?
    {
      assert Parses(gather, inp);
      if |inp| < 8 { return Break(Short); }
      var id, len := Unword(inp[..4]), Unword(inp[4..8]);
      var body := inp[8..];
      if id == DONE {
        inp := body;
        return Finished(len);
      }
      if id != DATA {
        inp := body;
        return Break(NotData(id, len, body));
      }
      if len > DATA_MAX { return Break(Oversize); }
      if |inp| < 8 + len { return Break(Short); }
      m := Chunk(inp[8..8 + len]);
      inp := inp[8 + len..];
    }

    /** Its message loop. */
    method RecvLoop(l: Local, ghost gather: seq<byte> -> Gathered) returns (h: Heard)
      requires forall b :: Parses(gather, b)
      requires saved == File([]) || (saved == NoFile && |inp| >= 8 && Unword(inp[..4]) != DATA && Unword(inp[..4]) != DONE)
      modifies this`inp, this`saved
      ensures h == if l.badWrite >= |gather(old(inp)).chunks| then HearFile(gather(old(inp))) else Lost
      ensures h.Heard? ==> inp == h.rest && saved == if h.result.GotFile? then File(h.result.data) else NoFile
    {
      ghost var done: seq<seq<byte>> := [];
      ghost var goal := gather(inp);
      var n := 0;
      var m := NextMessage(gather);
      while m.Chunk?
        invariant saved.File? ==> saved.data == Flat(done)
        invariant saved.File? || (m.Break? && m.why.NotData?)
        invariant m.Break? && m.why.NotData? ==> inp == m.why.rest
        invariant n == |done| <= l.badWrite
        invariant goal == After(done, Pending(gather, m, inp))
        decreases |inp| + if m.Chunk? then 1 else 0
      {
        AfterMore(done, m.buffer, gather(inp));
        FlatSnoc(done, m.buffer);
        if n == l.badWrite { return Lost; }
        saved := File(saved.data + m.buffer);
        done, n := done + [m.buffer], n + 1;
        m := NextMessage(gather);
      }
      GatheredAll(done, m, gather, inp);
      match m
      case Finished(_) => h := Heard(GotFile(saved.data), inp);
      case Break(NotData(id, size, _)) => h := RemoteError(id, size);
      case Break(_) => h := Lost;
    }
  }
}
