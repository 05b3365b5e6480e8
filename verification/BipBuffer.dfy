/** The buffer behind the emulated socket pair: two regions of one array, A from `aStart` to
    `aEnd` and, once A has reached the end of the array, B from 0 to `bEnd`.  It behaves as a
    bounded queue of bytes. */
module BipBuffer {
  import opened Bytes

  const SIZE: nat := 4096

  function Min(a: nat, b: nat): nat { if a < b then a else b }

  /** What two regions hold: A, then B. */
  function Regions(s: seq<byte>, aStart: nat, aEnd: nat, bEnd: nat): (r: seq<byte>)
    requires aStart <= aEnd <= |s| && bEnd <= |s|
    ensures |r| == aEnd - aStart + bEnd
  {
    s[aStart..aEnd] + s[..bEnd]
  }

  lemma TakeMore(c: seq<byte>, src: seq<byte>, m: nat, n: nat)
    requires m + n <= |src|
    ensures c + src[..m] + src[m..][..n] == c + src[..m + n]
  {
    assert src[..m + n] == src[..m] + src[m..][..n];
  }

  /** An array after a copy. */
  function Copied(s: seq<byte>, at: nat, src: seq<byte>): (r: seq<byte>)
    requires at + |src| <= |s|
    ensures |r| == |s|
  {
    s[..at] + src + s[at + |src|..]
  }

  /** Copying behind region A appends to the contents. */
  lemma CopiedToA(s: seq<byte>, aStart: nat, aEnd: nat, src: seq<byte>)
    requires aStart <= aEnd && aEnd + |src| <= |s|
    ensures Regions(Copied(s, aEnd, src), aStart, aEnd + |src|, 0) == Regions(s, aStart, aEnd, 0) + src
  {
    var c := Copied(s, aEnd, src);
    assert c[aStart..aEnd + |src|] == s[aStart..aEnd] + src;
  }

  /** And so does copying behind region B. */
  lemma CopiedToB(s: seq<byte>, aStart: nat, aEnd: nat, bEnd: nat, src: seq<byte>)
    requires bEnd + |src| <= aStart <= aEnd <= |s|
    ensures Regions(Copied(s, bEnd, src), aStart, aEnd, bEnd + |src|) == Regions(s, aStart, aEnd, bEnd) + src
  {
    var c := Copied(s, bEnd, src);
    assert c[aStart..aEnd] == s[aStart..aEnd];
    assert c[..bEnd + |src|] == s[..bEnd] + src;
  }

  class Bip {
    const buff: array<byte>
    var aStart: nat
    var aEnd: nat
    var bEnd: nat
    var canWrite: bool
    var evtWrite: bool
    var canRead: bool
    var evtRead: bool
    var closed: bool

    ghost predicate Shape()
      reads this
    {
      && buff.Length == SIZE
      && aStart <= aEnd <= SIZE
      && bEnd <= aStart
      && (bEnd > 0 ==> aEnd == SIZE)
      && (aStart == aEnd ==> aEnd == 0)
    }

    ghost function Stored(): (n: nat)
      reads this
      requires Shape()
      ensures n <= SIZE
    {
      aEnd - aStart + bEnd
    }

    /** The bytes stored, oldest first: region A, then region B. */
    ghost function Contents(): (s: seq<byte>)
      reads this, buff
      requires Shape()
      ensures |s| == Stored()
    {
      Regions(buff[..], aStart, aEnd, bEnd)
    }

    /** Each flag tells the truth about the contents, and before closing each event agrees with
        its flag. */
    ghost predicate Valid()
      reads this
    {
      && Shape()
      && (canRead <==> Stored() > 0)
      && (canWrite <==> Stored() < SIZE)
      && (!closed ==> evtRead == canRead && evtWrite == canWrite)
      && (canRead ==> evtRead) && (canWrite ==> evtWrite)
    }

    /** bip_buffer_init. */
    constructor ()
      ensures Valid() && Contents() == [] && !closed && fresh(buff)
    {
      buff := new byte[SIZE](_ => 0);
      aStart, aEnd, bEnd := 0, 0, 0;
      canWrite, canRead := true, false;
      evtWrite, evtRead := true, false;
      closed := false;
    }

    /** bip_buffer_close: wake whoever waits. */
    method Close()
      requires Valid()
      modifies this`closed, this`evtRead, this`evtWrite
      ensures Valid() && closed && evtRead && evtWrite
      ensures Contents() == old(Contents())
    {
      closed := true;
      if !canRead { evtRead := true; }
      if !canWrite { evtWrite := true; }
    }

    method CopyIn(at: nat, src: seq<byte>)
      requires at + |src| <= buff.Length
      modifies buff
      ensures buff[..] == Copied(old(buff[..]), at, src)
    {
      forall i | 0 <= i < |src| { buff[at + i] := src[i]; }
      ghost var c := Copied(old(buff[..]), at, src);
      assert forall i :: 0 <= i < |c| ==> buff[..][i] == c[i];
    }

    /** Append to region A, which reaches up to the end of the array. */
    method AppendA(src: seq<byte>) returns (n: nat)
      requires Shape()
      modifies this`aEnd, buff
      ensures n == Min(SIZE - old(aEnd), |src|) && aEnd == old(aEnd) + n
      ensures Shape() && Contents() == old(Contents()) + src[..n]
    {
      n := Min(SIZE - aEnd, |src|);
      if n > 0 {
        CopiedToA(buff[..], aStart, aEnd, src[..n]);
        CopyIn(aEnd, src[..n]);
        aEnd := aEnd + n;
      }
    }

    /** Append to region B, which reaches up to the start of region A. */
    method AppendB(src: seq<byte>) returns (n: nat)
      requires Shape() && aEnd == SIZE && bEnd < aStart
      modifies this`bEnd, buff
      ensures n == Min(aStart - old(bEnd), |src|) && bEnd == old(bEnd) + n
      ensures Shape() && Contents() == old(Contents()) + src[..n]
    {
      n := Min(aStart - bEnd, |src|);
      CopiedToB(buff[..], aStart, aEnd, bEnd, src[..n]);
      CopyIn(bEnd, src[..n]);
      bEnd := bEnd + n;
    }

    /** The two copies of bip_buffer_write; `full` says that no room is left. */
    method Fill(src: seq<byte>) returns (count: nat, full: bool)
      requires Shape() && Stored() < SIZE && src != []
      modifies this`aEnd, this`bEnd, buff
      ensures Shape() && (full <==> Stored() == SIZE)
      ensures count == Min(|src|, SIZE - old(Stored())) && count > 0
      ensures Contents() == old(Contents()) + src[..count]
    {
      count := AppendA(src);
      full := count > 0 && aEnd == SIZE && aStart == 0;
      if !full && count < |src| {
        var n := AppendB(src[count..]);
        TakeMore(old(Contents()), src, count, n);
        count := count + n;
        full := bEnd == aStart;
      }
    }

    /** One passage of bip_buffer_write through its critical section; false when it finds no room and has to
        wait.  The events follow the flags. */
    method Write(src: seq<byte>) returns (done: bool, count: nat)
      requires Valid()
      modifies this, buff
      ensures Valid() && closed == old(closed)
      ensures done <==> src == [] || old(canWrite)
      ensures count == (if done then Min(|src|, SIZE - old(Stored())) else 0) && (done && src != [] ==> count > 0)
      ensures Contents() == old(Contents()) + src[..count]
      ensures evtWrite == (old(evtWrite) && !(count > 0 && Stored() == SIZE))
      ensures evtRead == (old(evtRead) || (count > 0 && !old(canRead)))
    {
      done, count := src == [] || canWrite, 0;
      if src == [] || !canWrite { return; }
      var full;
      count, full := Fill(src);
      if full { canWrite, evtWrite := false, false; }
      if !canRead { canRead, evtRead := true, true; }
    }

    /** Take from region A; when it is used up, region B becomes region A. */
    method TakeA(len: nat) returns (dst: seq<byte>)
      requires Shape()
      modifies this`aStart, this`aEnd, this`bEnd
      ensures Shape() && |dst| == Min(len, old(aEnd - aStart))
      ensures old(Contents()) == dst + Contents()
      ensures |dst| == old(aEnd - aStart) ==> aStart == bEnd == 0 && aEnd == old(bEnd)
    {
      var n := Min(aEnd - aStart, len);
      dst := buff[aStart..aStart + n];
      assert buff[..][aStart..aEnd] == dst + buff[..][aStart + n..aEnd];
      assert buff[..][..bEnd] == buff[..][0..bEnd];
      aStart := aStart + n;
      if aStart == aEnd {
        aStart, aEnd, bEnd := 0, bEnd, 0;
      }
    }

    /** The two copies of bip_buffer_read; `empty` says that nothing is left. */
    method Take(len: nat) returns (dst: seq<byte>, empty: bool)
      requires Shape() && Stored() > 0 && len > 0
      modifies this`aStart, this`aEnd, this`bEnd
      ensures Shape() && (empty <==> Stored() == 0)
      ensures |dst| == Min(len, old(Stored()))
      ensures old(Contents()) == dst + Contents()
    {
      var avail := aEnd - aStart;
      assert avail > 0;
      empty := false;
      dst := TakeA(len);
      if |dst| == avail {
        var more := TakeA(len - |dst|);
        dst := dst + more;
        empty := aStart == aEnd;
      }
    }

    /** One passage of bip_buffer_read, likewise. */
    method Read(len: nat) returns (done: bool, dst: seq<byte>)
      requires Valid()
      modifies this
      ensures Valid() && closed == old(closed)
      ensures done <==> len == 0 || old(canRead)
      ensures |dst| == (if done then Min(len, old(Stored())) else 0) && (done && len > 0 ==> dst != [])
      ensures old(Contents()) == dst + Contents()
      ensures evtRead == (old(evtRead) && !(dst != [] && Stored() == 0))
      ensures evtWrite == (old(evtWrite) || (dst != [] && !old(canWrite)))
    {
      done, dst := len == 0 || canRead, [];
      if len == 0 || !canRead { return; }
      var empty;
      dst, empty := Take(len);
      if empty { canRead, evtRead := false, false; }
      if !canWrite { canWrite, evtWrite := true, true; }
    }
  }
}
