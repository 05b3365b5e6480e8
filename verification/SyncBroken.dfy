/** What the two sides of the sync protocol make of input that breaks off or is not what the protocol says. */
module SyncBroken {
  import opened Bytes
  import opened Framing
  import opened Hexadecimal
  import opened Sync
  import opened SyncFiles
  import opened SyncSession
  import opened SyncPrograms

  /** After this no more chunks are read, and the service says these words: the input ends in a header or in a
      chunk, or there is a header of another kind, or one of too large a chunk. */
  ghost predicate BreaksOff(tail: seq<byte>, words: seq<byte>)
  {
    || (|tail| < 8 && words == [])
    || (exists id: nat, size: nat, rest ::
          tail == Head(id, size) + rest && id < WORD && size < WORD && id != DATA && id != DONE
          && words == Msg(FAIL, Ascii("invalid data message")))
    || (exists size: nat, rest ::
          tail == Head(DATA, size) + rest && DATA_MAX < size < WORD && words == Msg(FAIL, Ascii("oversize data message")))
    || (exists size: nat, rest :: tail == Head(DATA, size) + rest && |rest| < size <= DATA_MAX && words == [])
  }

  lemma HeaderStops(id: nat, size: nat, rest: seq<byte>)
    requires id < WORD && size < WORD
    ensures id != DATA && id != DONE ==> Gather(Head(id, size) + rest) == Stopped([], NotData(id, size, rest))
    ensures id == DATA && size > DATA_MAX ==> Gather(Head(id, size) + rest) == Stopped([], Oversize)
    ensures id == DATA && |rest| < size <= DATA_MAX ==> Gather(Head(id, size) + rest) == Stopped([], Short)
  {
    HeadReads(id, size, rest);
  }

  lemma TailStops(tail: seq<byte>, words: seq<byte>) returns (why: Stop)
    requires BreaksOff(tail, words)
    ensures Gather(tail) == Stopped([], why) && StopWords(why) == words
  {
    if |tail| < 8 && words == [] {
      return Short;
    }
    if id: nat, size: nat, rest :|
         tail == Head(id, size) + rest && id < WORD && size < WORD && id != DATA && id != DONE
         && words == Msg(FAIL, Ascii("invalid data message")) {
      HeaderStops(id, size, rest);
      return NotData(id, size, rest);
    }
    if size: nat, rest :|
         tail == Head(DATA, size) + rest && DATA_MAX < size < WORD && words == Msg(FAIL, Ascii("oversize data message")) {
      HeaderStops(DATA, size, rest);
      return Oversize;
    }
    var size: nat, rest :| tail == Head(DATA, size) + rest && |rest| < size <= DATA_MAX && words == [];
    HeaderStops(DATA, size, rest);
    why := Short;
  }

  lemma {:induction false} GatherBroken(chunks: seq<seq<byte>>, tail: seq<byte>, why: Stop)
    requires Chunks(chunks) && Gather(tail) == Stopped([], why)
    ensures Gather(Messages(chunks) + tail) == Stopped(chunks, why)
  {
    if chunks == [] {
      assert [] + tail == tail;
    } else {
      GatherBroken(chunks[1..], tail, why);
      Regroup(Msg(DATA, chunks[0]), Messages(chunks[1..]), tail);
      MsgReads(DATA, chunks[0], Messages(chunks[1..]) + tail);
      assert chunks == [chunks[0]] + chunks[1..];
    }
  }

  /** A push that breaks off after some chunks ends the session with the right last words, and whatever was stored
      of the file is unlinked; so nothing is left of it if that succeeds. */
  lemma BrokenPush(files: Files, path: seq<byte>, mode: nat, chunks: seq<seq<byte>>, tail: seq<byte>, words: seq<byte>,
                   w: World)
    requires 0 !in path && |Name(path, mode)| <= NAME_MAX && !IsLink(mode) && !ThroughLink(files, path, w.put)
    requires Chunks(chunks) && BreaksOff(tail, words)
    ensures var s, r := Store(files, path, chunks, w.put),
                        Serve(files, Msg(SEND, Name(path, mode)) + (Messages(chunks) + tail), w);
            && r.Closed? && r.answer == (if s.okay then [] else Msg(FAIL, w.text)) + words
            && (w.put.unlinkLastOk ==> path !in r.files)
            && (!w.put.unlinkLastOk ==> r.files == s.files)
  {
    var why := TailStops(tail, words);
    GatherBroken(chunks, tail, why);
    NameHasNoNul(path, mode);
    SplitName(path, mode);
    ServeMsg(files, SEND, Name(path, mode), Messages(chunks) + tail, w);
  }

  /** A link request that breaks off before its target: nothing is made. */
  lemma BrokenLink(files: Files, path: seq<byte>, mode: nat, tail: seq<byte>, w: World)
    requires 0 !in path && |Name(path, mode)| <= NAME_MAX && IsLink(mode)
    ensures var r := Serve(files, Msg(SEND, Name(path, mode)) + tail, w);
            var base := Unlinked(files, path, w.put.unlinkOk);
            && (|tail| < 8 ==> r == Closed(base, []))
            && (forall id: nat, size: nat, rest :: id < WORD && size < WORD && tail == Head(id, size) + rest ==>
                  && (id != DATA ==> r == Closed(base, Msg(FAIL, Ascii("invalid data message: expected ID_DATA"))))
                  && (id == DATA && size > DATA_MAX ==> r == Closed(base, Msg(FAIL, Ascii("oversize data message"))))
                  && (id == DATA && size <= DATA_MAX && |rest| < size ==> r == Closed(base, [])))
  {
    NameHasNoNul(path, mode);
    SplitName(path, mode);
    ServeMsg(files, SEND, Name(path, mode), tail, w);
    forall id: nat, size: nat, rest | id < WORD && size < WORD && tail == Head(id, size) + rest
      ensures Unword(tail[..4]) == id && Unword(tail[4..8]) == size && |tail| == 8 + |rest|
    {
      HeadReads(id, size, rest);
    }
  }

  /** One that breaks off behind its target: the link is made, and the session ends. */
  lemma UnfinishedLink(files: Files, path: seq<byte>, mode: nat, target: seq<byte>, tail: seq<byte>, w: World)
    requires 0 !in path && |Name(path, mode)| <= NAME_MAX && IsLink(mode) && Links(files, path, w.put)
    requires 0 !in target && |target| < DATA_MAX
    ensures var r := Serve(files, Msg(SEND, Name(path, mode)) + (Msg(DATA, target + [0]) + tail), w);
            var made := Unlinked(files, path, w.put.unlinkOk)[path := Symlink(target)];
            && (|tail| < 8 ==> r == Closed(made, []))
            && (|tail| >= 8 && Unword(tail[..4]) != DONE ==>
                  r == Closed(made, Msg(FAIL, Ascii("invalid data message: expected ID_DONE"))))
  {
    NameHasNoNul(path, mode);
    SplitName(path, mode);
    ServeMsg(files, SEND, Name(path, mode), Msg(DATA, target + [0]) + tail, w);
    MsgReads(DATA, target + [0], tail);
    CStringEnds(target, []);
    assert target + [0] + [] == target + [0];
  }

  /** A request that is too short to be one. */
  lemma ShortRequest(files: Files, b: seq<byte>, w: World)
    ensures |b| < 8 ==> Serve(files, b, w) == Closed(files, Msg(FAIL, Ascii("command read failure")))
    ensures |b| >= 8 && Unword(b[4..8]) <= NAME_MAX && |b| < 8 + Unword(b[4..8]) ==>
              Serve(files, b, w) == Closed(files, Msg(FAIL, Ascii("filename read failure")))
  {
  }

  /** An answer that is too short to be one, or of another kind. */
  lemma ShortAnswer(r: Req, b: seq<byte>)
    ensures |b| < (if r.AskStat? then 16 else 8) ==> Hear(r, b) == Lost
    ensures r.AskStat? && |b| >= 16 && Unword(b[..4]) != STAT ==> Hear(r, b) == Lost
    ensures r.PutFile? && |b| >= 8 && Unword(b[..4]) !in {OKAY, FAIL} ==> Hear(r, b) == Heard(PutFailed([]), b[8..])
    ensures r.GetFile? && |b| >= 8 && Unword(b[..4]) !in {DATA, DONE, FAIL} ==> Hear(r, b) == Heard(GetFailed([]), b[8..])
    ensures !r.AskStat? && |b| >= 8 && Unword(b[..4]) == FAIL && Unword(b[4..8]) <= 256 && |b| < 8 + Unword(b[4..8]) ==>
              Hear(r, b) == Lost
  {
  }

  /** A pull that fails: the file is not there or cannot be opened, or a read fails, be it the one that would have
      found the end.  The client hears why, as far as it listens. */
  lemma PullFails(files: Files, path: seq<byte>, w: World, rest: seq<byte>)
    requires Plain(w) && (path in files ==> files[path].Regular?)
    requires path in files && w.get.openOk ==> w.get.badRead <= ReadCount(files[path].data, w.get.sizes)
    ensures var h := Hear(GetFile(path), Answer(files, GetFile(path), w, rest));
            h.Heard? && h.result == GetFailed(w.text[..Min(|w.text|, 256)])
  {
    ClientInStep(files, GetFile(path), w, rest);
  }
}
