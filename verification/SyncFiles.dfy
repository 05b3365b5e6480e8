/** What the file system of the sync service does during one request, and the files it leaves. */
module SyncFiles {
  import opened Bytes
  import opened Sync

  datatype Node = Regular(data: seq<byte>) | Symlink(target: seq<byte>)

  type Files = map<seq<byte>, Node>

  /** Results of the system calls of do_send: the unlink before, opening a new file, reopening one that is
      still there, the write that fails and how much of it got through, the unlink after that, the
      unlink when the client breaks off, and symlink. */
  datatype PutWorld = PutWorld(unlinkOk: bool, createOk: bool, reopenOk: bool, badWrite: nat, partial: nat,
                               unlinkAgainOk: bool, unlinkLastOk: bool, linkOk: bool)

  /** Results of the system calls of do_recv: open, the sizes of the reads, and the read that fails. */
  datatype GetWorld = GetWorld(openOk: bool, sizes: seq<nat>, badRead: nat)

  function Min(a: nat, b: nat): nat { if a < b then a else b }

  function Unlinked(files: Files, path: seq<byte>, ok: bool): Files { if ok then files - {path} else files }

  function OldData(files: Files, path: seq<byte>): seq<byte>
  {
    if path in files && files[path].Regular? then files[path].data else []
  }

  /** Writing from the start of a file that is not truncated. */
  function Overlay(under: seq<byte>, data: seq<byte>): (r: seq<byte>)
    ensures |r| >= |data| && r[..|data|] == data
    ensures r == data <==> |under| <= |data|
  {
    data + if |data| < |under| then under[|data|..] else []
  }

  datatype Stored = Stored(files: Files, okay: bool)

  /** The file can be opened: afresh, or as it is when the unlink did not remove it. */
  predicate Opens(files: Files, path: seq<byte>, w: PutWorld)
  {
    if path in Unlinked(files, path, w.unlinkOk) then w.reopenOk else w.createOk
  }

  lemma OpensExactly(files: Files, path: seq<byte>, w: PutWorld)
    ensures Opens(files, path, w) <==> if path !in files || w.unlinkOk then w.createOk else w.reopenOk
  {
  }

  /** What is left of the old file under what is written. */
  function Under(files: Files, path: seq<byte>, w: PutWorld): seq<byte>
  {
    OldData(Unlinked(files, path, w.unlinkOk), path)
  }

  /** do_send and handle_send_file on these chunks. */
  function Store(files: Files, path: seq<byte>, chunks: seq<seq<byte>>, w: PutWorld): (s: Stored)
  {
    var base := Unlinked(files, path, w.unlinkOk);
    if !Opens(files, path, w) then Stored(base, false)
    else if w.badWrite >= |chunks| then
      Stored(base[path := Regular(Overlay(Under(files, path, w), Flat(chunks)))], true)
    else
      var bad := chunks[w.badWrite];
      var part := Flat(chunks[..w.badWrite]) + bad[..Min(w.partial, |bad|)];
      Stored(Unlinked(base[path := Regular(Overlay(Under(files, path, w), part))], path, w.unlinkAgainOk), false)
  }

  /** The exact outcome of storing a file.  It is said to be stored if and only if it could be opened and
      no write failed; what is stored then is the concatenation if and only if there was no old file, or
      it was unlinked, or it was not longer.  A failure leaves nothing there if and only if the unlink
      before it, or the one after the failed write, succeeded or had nothing to do. */
  lemma StoreExactly(files: Files, path: seq<byte>, chunks: seq<seq<byte>>, w: PutWorld)
    ensures var s := Store(files, path, chunks, w);
            && (s.okay <==> Opens(files, path, w) && w.badWrite >= |chunks|)
            && (s.okay ==> path in s.files && s.files[path].Regular?
                           && (s.files[path].data == Flat(chunks) <==>
                               path !in files || w.unlinkOk || |OldData(files, path)| <= |Flat(chunks)|))
            && (!s.okay ==>
                  (path !in s.files <==> if Opens(files, path, w) then w.unlinkAgainOk
                                         else path !in files || w.unlinkOk))
            && (forall p :: p != path ==> (p in s.files <==> p in files) && (p in s.files ==> s.files[p] == files[p]))
  {
  }

  /** A longer old file that cannot be unlinked keeps its tail, and the answer is still OKAY. */
  lemma OldTailStays(path: seq<byte>)
    ensures var w := PutWorld(false, true, true, 1, 0, true, true, true);
            Store(map[path := Regular([1, 2, 3])], path, [[9]], w) == Stored(map[path := Regular([9, 2, 3])], true)
  {
    var files: Files := map[path := Regular([1, 2, 3])];
    assert [[9]][1..] == [] && Flat([[9]]) == [9] + Flat([]) == [9];
    assert Overlay([1, 2, 3], [9]) == [9, 2, 3];
    assert files[path := Regular([9, 2, 3])] == map[path := Regular([9, 2, 3])];
  }

  /** How much a read returns: what the script says, but something before the end of the file, and no more
      than is there or than the buffer holds. */
  function ReadSize(left: nat, sizes: seq<nat>): (n: nat)
    requires left > 0
    ensures 0 < n <= left && n <= DATA_MAX
  {
    var most := Min(left, DATA_MAX);
    if sizes == [] || sizes[0] == 0 then most else Min(sizes[0], most)
  }

  function Rest(sizes: seq<nat>): seq<nat> { if sizes == [] then [] else sizes[1..] }

  /** The world of the reads after the first one, which did not fail. */
  function NextRead(w: GetWorld): GetWorld
    requires w.badRead > 0
  {
    w.(sizes := Rest(w.sizes), badRead := w.badRead - 1)
  }

  /** How many reads it takes to get all of a file, without the one that finds its end. */
  function ReadCount(data: seq<byte>, sizes: seq<nat>): (n: nat)
    decreases |data|
  {
    if data == [] then 0 else 1 + ReadCount(data[ReadSize(|data|, sizes)..], Rest(sizes))
  }

  /** The pieces read before the end of the file or a failure. */
  function ReadUpTo(data: seq<byte>, w: GetWorld): (ps: seq<seq<byte>>)
    ensures Chunks(ps)
    decreases |data|
  {
    if data == [] || w.badRead == 0 then []
    else
      var n := ReadSize(|data|, w.sizes);
      [data[..n]] + ReadUpTo(data[n..], NextRead(w))
  }

  /** A read fails, perhaps the one that would have found the end of the file. */
  predicate ReadBreaks(data: seq<byte>, w: GetWorld) { w.badRead <= ReadCount(data, w.sizes) }

  /** What was read is all of the file if and only if no read failed before its end. */
  lemma {:induction false} ReadExactly(data: seq<byte>, w: GetWorld)
    ensures Flat(ReadUpTo(data, w)) <= data
    ensures Flat(ReadUpTo(data, w)) == data <==> w.badRead >= ReadCount(data, w.sizes)
    decreases |data|
  {
    if data != [] && w.badRead > 0 {
      var n := ReadSize(|data|, w.sizes);
      ReadExactly(data[n..], NextRead(w));
      var ps := ReadUpTo(data, w);
      assert ps[0] == data[..n] && ps[1..] == ReadUpTo(data[n..], NextRead(w));
      assert data == data[..n] + data[n..];
      if Flat(ps) == data { assert Flat(ps)[n..] == Flat(ps[1..]); }
    }
  }
}
