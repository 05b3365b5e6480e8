/** The buffering writer of fastboot's sparse download: pieces of any size go in, transfers of whole
    512-byte blocks come out, and nothing changes but the cuts. */
module SparseWriter {
  import opened Bytes

  const BLOCK: nat := 512

  function Flat(ts: seq<seq<byte>>): (s: seq<byte>)
  {
    if ts == [] then [] else Flat(ts[..|ts| - 1]) + ts[|ts| - 1]
  }

  lemma FlatSnoc(ts: seq<seq<byte>>, t: seq<byte>)
    ensures Flat(ts + [t]) == Flat(ts) + t
  {
    assert (ts + [t])[..|ts|] == ts;
  }

  ghost predicate Blocks(ts: seq<seq<byte>>)
  {
    forall i :: 0 <= i < |ts| ==> |ts[i]| > 0 && |ts[i]| % BLOCK == 0
  }

  class Writer {
    const buf: array<byte>
    var len: nat
    /** What _command_data has transferred. */
    var sent: seq<seq<byte>>

    ghost predicate Valid()
      reads this
    {
      buf.Length == BLOCK && len <= BLOCK && Blocks(sent)
    }

    /** All bytes given so far: transferred, then buffered. */
    ghost function Given(): (s: seq<byte>)
      reads this, buf
      requires Valid()
    {
      Flat(sent) + buf[..len]
    }

    constructor ()
      ensures Valid() && Given() == [] && fresh(buf)
    {
      buf := new byte[BLOCK](_ => 0);
      len, sent := 0, [];
    }

    /** Adds what fits to a buffer that is not empty. */
    method TopUp(data: seq<byte>) returns (n: nat)
      requires Valid()
      modifies this`len, buf
      ensures Valid() && n <= |data|
      ensures Given() == old(Given()) + data[..n]
      ensures old(len) > 0 ==> n == |data| || len == BLOCK
      ensures old(len) == 0 ==> n == 0 && len == 0
    {
      n := 0;
      if len > 0 {
        n := if BLOCK - len < |data| then BLOCK - len else |data|;
        forall i | 0 <= i < n { buf[len + i] := data[i]; }
        assert buf[..len + n] == old(buf[..len]) + data[..n];
        len := len + n;
      }
    }

    /** Transfers a full buffer. */
    method Drain(ok: bool) returns (r: bool)
      requires Valid()
      modifies this`len, this`sent
      ensures Valid() && (r <==> ok || old(len) < BLOCK)
      ensures r ==> Given() == old(Given()) && len < BLOCK && (old(len) == BLOCK ==> len == 0)
      ensures old(len) < BLOCK ==> len == old(len)
    {
      if len == BLOCK {
        if !ok { return false; }
        FlatSnoc(sent, buf[..]);
        assert buf[..BLOCK] == buf[..];
        sent := sent + [buf[..]];
        len := 0;
      }
      r := true;
    }

    /** Transfers whole blocks straight from the caller's data. */
    method PassThrough(data: seq<byte>, ok: bool) returns (r: bool, n: nat)
      requires Valid() && len == 0 && |data| > BLOCK
      modifies this`sent
      ensures Valid() && n <= |data| && r == ok
      ensures r ==> Given() == old(Given()) + data[..n] && |data| - n < BLOCK
    {
      r, n := ok, 0;
      if ok {
        n := |data| - |data| % BLOCK;
        FlatSnoc(sent, data[..n]);
        sent := sent + [data[..n]];
      }
    }

    /** Puts the rest into the empty buffer. */
    method Hold(data: seq<byte>)
      requires Valid() && len == 0 && |data| <= BLOCK
      modifies this`len, buf
      ensures Valid() && Given() == old(Given()) + data
    {
      forall i | 0 <= i < |data| { buf[i] := data[i]; }
      len := |data|;
      assert buf[..len] == data;
    }

    /** fb_download_data_sparse_write; `ok1` and `ok2` say whether its transfers succeed.  Neither of
        its internal errors can occur. */
    method Write(data: seq<byte>, ok1: bool, ok2: bool) returns (r: int)
      requires Valid()
      modifies this`len, this`sent, buf
      ensures Valid() && (r == 0 || r == -1)
      ensures r == 0 ==> Given() == old(Given()) + data
      ensures ok1 && ok2 ==> r == 0
    {
      ghost var g0 := Given();
      var n := TopUp(data);
      var good := Drain(ok1);
      if !good { return -1; }
      if |data| - n > BLOCK {
        assert len == 0;
        ghost var g1 := Given();
        var m;
        good, m := PassThrough(data[n..], ok2);
        if !good { return -1; }
        TakeMore(g0, g1, data, n, m);
        n := n + m;
      }
      if n < |data| {
        assert len == 0 && |data| - n <= BLOCK;
        ghost var g2 := Given();
        Hold(data[n..]);
        TakeMore(g0, g2, data, n, |data| - n);
        assert data[n..][..|data| - n] == data[n..];
        n := |data|;
      }
      assert data[..n] == data;
      r := 0;
    }

    /** fb_download_data_sparse_flush. */
    method Flush(ok: bool) returns (r: int)
      requires Valid()
      modifies this`len, this`sent
      ensures ok ==> r == 0 && len == 0 && Flat(sent) == old(Given())
      ensures ok ==> old(sent) <= sent && |sent| <= |old(sent)| + 1
    {
      if len > 0 {
        if !ok { return -1; }
        FlatSnoc(sent, buf[..len]);
        sent := sent + [buf[..len]];
        len := 0;
      }
      r := 0;
    }
  }

  lemma TakeMore(g0: seq<byte>, g: seq<byte>, data: seq<byte>, n: nat, m: nat)
    requires n + m <= |data| && g == g0 + data[..n]
    ensures g + data[n..][..m] == g0 + data[..n + m]
  {
    assert data[..n + m] == data[..n] + data[n..][..m];
  }

  /** A whole sparse download without transfer errors: for any pieces, what is transferred is their
      concatenation, in whole blocks except for the last transfer. */
  method Download(pieces: seq<seq<byte>>) returns (sent: seq<seq<byte>>)
    ensures Flat(sent) == Flat(pieces)
    ensures forall i :: 0 <= i < |sent| - 1 ==> |sent[i]| > 0 && |sent[i]| % BLOCK == 0
  {
    var w := new Writer();
    for i := 0 to |pieces|
      invariant w.Valid() && w.Given() == Flat(pieces[..i]) && fresh(w) && fresh(w.buf)
    {
      assert pieces[..i + 1] == pieces[..i] + [pieces[i]];
      FlatSnoc(pieces[..i], pieces[i]);
      var _ := w.Write(pieces[i], true, true);
    }
    assert pieces[..|pieces|] == pieces;
    ghost var blocks := w.sent;
    var _ := w.Flush(true);
    sent := w.sent;
  }
}
