/** An adb node: the local sockets of one process and the packets it hands to its transport.
    Its methods are the loops and branches of handle_packet and of the local socket's event
    function; each is proved to be a step of the multiplexer in Mux.dfy. */
module AdbNode {
  import opened Bytes
  import opened Endpoint
  import opened Streams
  import opened Mux

  /** What the next adb_write returns: a positive count (never more than was asked for), zero, or
      an error.  A script that has run out means EAGAIN. */
  datatype WriteResult = Wrote(n: nat) | Again | Interrupted | Failed

  /** What the next adb_read returns. */
  datatype ReadResult = Got(data: seq<byte>) | ReadAgain | ReadInterrupted | Ended

  datatype Push = Push(k: nat, st: WriteEnd, rest: seq<WriteResult>)

  /** How far a write loop over `len` bytes gets.  The loop in local_socket_enqueue gives up on
      EINTR, the one in the event function retries. */
  function Pushed(len: nat, script: seq<WriteResult>, retry: bool): (p: Push)
    ensures WriteOutcome(len, p.k, p.st)
    ensures |p.rest| <= |script|
    decreases |script|
  {
    if len == 0 then Push(0, Done, script)
    else if script == [] then Push(0, Blocked, [])
    else
      var rest := script[1..];
      match script[0]
      case Wrote(n) =>
        if n == 0 then Push(0, Broken, rest)
        else
          var m := if n < len then n else len;
          var p := Pushed(len - m, rest, retry);
          p.(k := m + p.k)
      case Again => Push(0, Blocked, rest)
      case Failed => Push(0, Broken, rest)
      case Interrupted => if retry then Pushed(len, rest, retry) else Push(0, Broken, rest)
  }

  /** One write of the loop that retries. */
  ghost predicate PushesOne(pushed: (nat, seq<WriteResult>) -> Push, len: nat, script: seq<WriteResult>)
  {
    if len == 0 then pushed(len, script) == Push(0, Done, script)
    else if script == [] then pushed(len, script) == Push(0, Blocked, [])
    else
      var p, rest := pushed(len, script), script[1..];
      match script[0]
      case Wrote(n) =>
        var m := if n < len then n else len;
        if n == 0 then p == Push(0, Broken, rest) else p == pushed(len - m, rest).(k := m + pushed(len - m, rest).k)
      case Again => p == Push(0, Blocked, rest)
      case Failed => p == Push(0, Broken, rest)
      case Interrupted => p == pushed(len, rest)
  }

  /** Writes that take these numbers of bytes. */
  function Wrotes(ns: seq<nat>): seq<WriteResult> { seq(|ns|, i requires 0 <= i < |ns| => Wrote(ns[i])) }

  function Total(ns: seq<nat>): nat { if ns == [] then 0 else ns[0] + Total(ns[1..]) }

  /** The loop is done once the writes have taken everything; before that it ends at the first result that is no
      progress: EAGAIN blocks it, a write of nothing or an error breaks it, and so does EINTR in the loop that
      does not retry. */
  lemma {:induction false} PushedExactly(len: nat, ns: seq<nat>, stop: WriteResult, rest: seq<WriteResult>, retry: bool)
    requires 0 !in ns && (stop.Wrote? ==> stop.n == 0) && (stop.Interrupted? ==> !retry)
    ensures var p := Pushed(len, Wrotes(ns) + [stop] + rest, retry);
            if Total(ns) >= len then p.k == len && p.st == Done
            else p.k == Total(ns) && p.st == if stop.Again? then Blocked else Broken
    decreases |ns|
  {
    var script := Wrotes(ns) + [stop] + rest;
    if ns == [] {
      assert script[0] == stop;
    } else if len > 0 {
      var n, more := ns[0], ns[1..];
      assert script[0] == Wrote(n) && script[1..] == Wrotes(more) + [stop] + rest;
      assert 0 !in more && n > 0;
      PushedExactly(len - if n < len then n else len, more, stop, rest, retry);
    }
  }

  /** The loop that retries does not notice EINTR. */
  lemma {:induction false} InterruptedWrite(len: nat, before: seq<WriteResult>, rest: seq<WriteResult>)
    ensures var p, q := Pushed(len, before + [Interrupted] + rest, true), Pushed(len, before + rest, true);
            p.k == q.k && p.st == q.st
    decreases |before|
  {
    var x, y := before + [Interrupted] + rest, before + rest;
    if before == [] {
      assert x[0] == Interrupted && x[1..] == rest == y;
    } else {
      assert x[0] == y[0] == before[0] && x[1..] == before[1..] + [Interrupted] + rest && y[1..] == before[1..] + rest;
      match before[0]
      case Wrote(n) =>
        if n > 0 && len > 0 { InterruptedWrite(len - if n < len then n else len, before[1..], rest); }
      case Interrupted => InterruptedWrite(len, before[1..], rest);
      case _ =>
    }
  }

  /** The same for a queue of packets, each written by its own loop. */
  function Drained(q: seq<seq<byte>>, script: seq<WriteResult>): (p: Push)
    ensures WriteOutcome(|Flat(q)|, p.k, p.st)
  {
    if q == [] then Push(0, Done, script)
    else
      var h := Pushed(|q[0]|, script, true);
      if h.st != Done then h
      else
        var t := Drained(q[1..], h.rest);
        t.(k := h.k + t.k)
  }

  datatype Pull = Pull(data: seq<byte>, eof: bool)

  /** What the read loop of local_socket_event_func collects with room for `avail` bytes. */
  function Pulled(avail: nat, script: seq<ReadResult>): (p: Pull)
    ensures |p.data| <= avail
    decreases |script|
  {
    if avail == 0 || script == [] then Pull([], false)
    else
      match script[0]
      case Got(d) =>
        if d == [] then Pull([], true)
        else
          var d := if |d| < avail then d else d[..avail];
          var p := Pulled(avail - |d|, script[1..]);
          p.(data := d + p.data)
      case ReadAgain => Pull([], false)
      case ReadInterrupted => Pulled(avail, script[1..])
      case Ended => Pull([], true)
  }

  /** Reads that return these pieces. */
  function Gots(ds: seq<seq<byte>>): seq<ReadResult> { seq(|ds|, i requires 0 <= i < |ds| => Got(ds[i])) }

  /** Whatever pieces the bytes come in, they are collected in order up to the room there is; before that the
      loop ends where nothing can be read, and finds an end of file unless it was told to come back. */
  lemma {:induction false} PulledInOrder(avail: nat, ds: seq<seq<byte>>, stop: ReadResult, rest: seq<ReadResult>)
    requires [] !in ds && (stop == Got([]) || stop == ReadAgain || stop == Ended)
    ensures Pulled(avail, Gots(ds) + [stop] + rest) ==
            if |Flat(ds)| >= avail then Pull(Flat(ds)[..avail], false) else Pull(Flat(ds), stop != ReadAgain)
    decreases |ds|
  {
    var script := Gots(ds) + [stop] + rest;
    if ds == [] {
      assert script[0] == stop;
    } else if avail > 0 {
      var d, more := ds[0], ds[1..];
      assert script[0] == Got(d) && script[1..] == Gots(more) + [stop] + rest;
      assert [] !in more && d != [];
      if |d| < avail { PulledInOrder(avail - |d|, more, stop, rest); } else { PulledFull(script[1..]); }
      PiecesCut(d, Flat(more), avail);
    }
  }

  lemma PulledFull(script: seq<ReadResult>)
    ensures Pulled(0, script) == Pull([], false)
  {
  }

  lemma PiecesCut(d: seq<byte>, more: seq<byte>, n: nat)
    ensures n <= |d| ==> (d + more)[..n] == d[..n] && d[..n] + [] == d[..n]
    ensures |d| <= n <= |d + more| ==> (d + more)[..n] == d + more[..n - |d|]
  {
  }

  /** An interrupted read is as if it had not happened. */
  lemma {:induction false} InterruptedRead(avail: nat, before: seq<ReadResult>, rest: seq<ReadResult>)
    ensures Pulled(avail, before + [ReadInterrupted] + rest) == Pulled(avail, before + rest)
    decreases |before|
  {
    var x, y := before + [ReadInterrupted] + rest, before + rest;
    if before == [] {
      assert x[0] == ReadInterrupted && x[1..] == rest == y;
    } else {
      assert x[0] == y[0] == before[0] && x[1..] == before[1..] + [ReadInterrupted] + rest && y[1..] == before[1..] + rest;
      match before[0]
      case Got(d) =>
        if d != [] && avail > 0 { InterruptedRead(avail - if |d| < avail then |d| else avail, before[1..], rest); }
      case ReadInterrupted => InterruptedRead(avail, before[1..], rest);
      case _ =>
    }
  }

  /** Reading only finds out whether the file has ended: the descriptor is bad, or a subprocess has exited. */
  predicate Probes(rs: seq<ReadResult>) { Pulled(MAX_PAYLOAD, rs).data == [] }

  /** A sequence of descriptor events on one socket, and the packets they send. */
  ghost predicate CanServe(n: Node, id: nat, acts: seq<Act>)
    decreases |acts|
  {
    acts == [] ||
    (NodeCan(n, [], Event(id, acts[0])) && CanServe(NodeStep(n, [], Event(id, acts[0])).n, id, acts[1..]))
  }

  ghost function Serve(n: Node, id: nat, acts: seq<Act>): (r: (Node, seq<Packet>))
    requires CanServe(n, id, acts)
    decreases |acts|
  {
    if acts == [] then (n, [])
    else
      var o := NodeStep(n, [], Event(id, acts[0]));
      var (n', out) := Serve(o.n, id, acts[1..]);
      (n', o.out + out)
  }

  class Adb {
    var next: nat
    var socks: map<nat, Sock>
    /** Packets given to send_packet, in order. */
    var outbox: seq<Packet>

    function Abs(): Node
      reads this
    {
      Node(next, socks)
    }

    constructor ()
      ensures Abs() == START.a && outbox == []
    {
      next, socks, outbox := 1, map[], [];
    }

    /** The write loop of local_socket_enqueue. */
    method WriteLoop(data: seq<byte>, script: seq<WriteResult>) returns (k: nat, st: WriteEnd)
      ensures k == Pushed(|data|, script, false).k && st == Pushed(|data|, script, false).st
    {
      k, st := 0, Blocked;
      var i := 0;
      while k < |data|
        invariant k <= |data| && i <= |script|
        invariant var p, t := Pushed(|data|, script, false), Pushed(|data| - k, script[i..], false);
                  p.k == k + t.k && p.st == t.st
        decreases |script| - i, |data| - k
      {
        if i == |script| { return k, Blocked; }
        var r := script[i];
        assert script[i..][1..] == script[i + 1..];
        i := i + 1;
        if r.Wrote? && r.n > 0 {
          k := k + if r.n < |data| - k then r.n else |data| - k;
        } else if r.Again? {
          return k, Blocked;
        } else {
          return k, Broken;
        }
      }
      st := Done;
    }

    /** The nested write loops of local_socket_event_func. */
    method DrainLoop(q: seq<seq<byte>>, script: seq<WriteResult>)
      returns (q': seq<seq<byte>>, k: nat, st: WriteEnd)
      ensures k == Drained(q, script).k && st == Drained(q, script).st
      ensures q' == DropBytes(q, k)
    {
      q', k, st := q, 0, Done;
      var i := 0;
      while q' != []
        invariant 0 <= i <= |script| && k <= |Flat(q)|
        invariant DropBytes(q', 0) == DropBytes(q, k) && st == Done
        invariant var p, t := Drained(q, script), Drained(q', script[i..]);
                  p.k == k + t.k && p.st == t.st
        decreases |q'|
      {
        var p := q'[0];
        var h: Push;
        h, i := WritePacket(|p|, script, i);
        DropDrop(q, k, h.k);
        DropDrop(q', 0, h.k);
        if h.st != Done {
          k, st := k + h.k, h.st;
          q' := [p[h.k..]] + q'[1..];
          return;
        }
        k := k + |p|;
        q' := q'[1..];
      }
    }

    /** The inner loop of local_socket_event_func: EINTR is retried. */
    method WritePacket(len: nat, script: seq<WriteResult>, i0: nat) returns (h: Push, i: nat)
      requires i0 <= |script|
      ensures h == Pushed(len, script[i0..], true)
      ensures i <= |script| && h.rest == script[i..]
    {
      h, i := RetryLoop(len, script, i0, (n: nat, rs) => Pushed(n, rs, true));
    }

    method RetryLoop(len: nat, script: seq<WriteResult>, i0: nat, ghost pushed: (nat, seq<WriteResult>) -> Push)
      returns (h: Push, i: nat)
      requires i0 <= |script| && forall n: nat, rs :: PushesOne(pushed, n, rs)
      ensures h == pushed(len, script[i0..])
      ensures i <= |script| && h.rest == script[i..]
    {
      var k: nat := 0;
      i := i0;
      while k < len
        invariant k <= len && i0 <= i <= |script|
        invariant var t := pushed(len - k, script[i..]); pushed(len, script[i0..]) == t.(k := k + t.k)
        decreases |script| - i, len - k
      {
        assert PushesOne(pushed, len - k, script[i..]);
        if i == |script| { return Push(k, Blocked, []), i; }
        var r := script[i];
        assert script[i..][1..] == script[i + 1..];
        i := i + 1;
        if r.Wrote? && r.n > 0 {
          k := k + if r.n < len - k then r.n else len - k;
        } else if r.Again? {
          return Push(k, Blocked, script[i..]), i;
        } else if !r.Interrupted? {
          return Push(k, Broken, script[i..]), i;
        }
      }
      assert PushesOne(pushed, 0, script[i..]);
      h := Push(k, Done, script[i..]);
    }

    /** The read loop of local_socket_event_func. */
    method ReadLoop(script: seq<ReadResult>) returns (data: seq<byte>, eof: bool)
      ensures Pull(data, eof) == Pulled(MAX_PAYLOAD, script)
    {
      data, eof := [], false;
      var i := 0;
      while |data| < MAX_PAYLOAD
        invariant |data| <= MAX_PAYLOAD && i <= |script| && !eof
        invariant var p, t := Pulled(MAX_PAYLOAD, script), Pulled(MAX_PAYLOAD - |data|, script[i..]);
                  p == t.(data := data + t.data)
        decreases |script| - i
      {
        if i == |script| { return; }
        var r := script[i];
        assert script[i..][1..] == script[i + 1..];
        i := i + 1;
        if r.Got? && r.data != [] {
          var avail := MAX_PAYLOAD - |data|;
          data := data + if |r.data| < avail then r.data else r.data[..avail];
        } else if r.ReadAgain? {
          return;
        } else if !r.ReadInterrupted? {
          eof := true;
          return;
        }
      }
    }

    /** local_socket_close: the linked remote socket says CLSE. */
    method CloseSocket(id: nat, cause: Cause)
      requires id in socks && socks[id].e.phase != Gone
      modifies this
      ensures next == old(next)
      ensures var s := old(socks[id]);
              && socks == old(socks)[id := s.(e := Close(s.e, cause).e)]
              && outbox == old(outbox) + Wrap(id, s.remote, Close(s.e, cause).out)
    {
      var s := socks[id];
      var e := s.e;
      if e.linked {
        if s.remote.Bound? {
          WrapOne(id, s.remote, Clse);
          outbox := outbox + [PClse(0, s.remote.id)];
        }
        e := e.(linked := false, clses := e.clses + 1);
      }
      if e.phase == Closing || e.queue == [] {
        e := e.(phase := Gone, queue := [], rd := false, wr := false, cause := Why(e, cause));
      } else {
        e := e.(phase := Closing, rd := false, cause := cause);
      }
      assert e == Close(s.e, cause).e;
      socks := socks[id := s.(e := e)];
    }

    /** local_socket_enqueue on a live socket; the result says whether it can take more. */
    method EnqueuePacket(id: nat, data: seq<byte>, script: seq<WriteResult>)
      returns (ready: bool, k: nat, st: WriteEnd)
      requires Found(Abs(), id)
      modifies this
      ensures next == old(next) && WriteOutcome(|data|, k, st)
      ensures var s := old(socks[id]);
              var (m, r) := Enqueue(s.e, data, k, st);
              && socks == old(socks)[id := s.(e := m.e)]
              && outbox == old(outbox) + Wrap(id, s.remote, m.out)
              && ready == r
      ensures old(socks[id].e.queue) == [] ==>
                k == Pushed(|data|, script, false).k && st == Pushed(|data|, script, false).st
    {
      var s := socks[id];
      k, st, ready := |data|, Done, false;
      if s.e.queue == [] {
        k, st := WriteLoop(data, script);
        socks := socks[id := s.(e := s.e.(written := s.e.written + data[..k]))];
        if st == Broken {
          CloseSocket(id, ByError);
        } else if st == Done {
          ready := true;
        } else {
          var e := socks[id].e;
          socks := socks[id := s.(e := e.(queue := [data[k..]], wr := true))];
        }
      } else {
        socks := socks[id := s.(e := s.e.(queue := s.e.queue + [data], wr := true))];
      }
    }

    /** handle_packet: a step of the multiplexer. */
    method HandlePacket(p: Packet, accept: bool, script: seq<WriteResult>)
      returns (k: nat, st: WriteEnd)
      modifies this
      ensures p.PWrte? ==> WriteOutcome(|p.data|, k, st)
      ensures var (n', out) := Handle(old(Abs()), p, accept, k, st);
              Abs() == n' && outbox == old(outbox) + out
      ensures p.PWrte? && Found(old(Abs()), p.arg1) && old(socks[p.arg1].e.queue) == [] ==>
                k == Pushed(|p.data|, script, false).k && st == Pushed(|p.data|, script, false).st
    {
      k, st := 0, Done;
      match p
      case POpen(r) =>
        if accept {
          var s := Sock(FRESH.(linked := true), false, Bound(r));
          outbox := outbox + [POkay(next, r)];
          socks := socks[next := s.(e := s.e.(rd := true))];
          next := next + 1;
        } else {
          outbox := outbox + [PClse(0, r)];
        }
      case POkay(r, id) =>
        if id in socks && socks[id].e.phase == Live {
          var s := socks[id];
          if !s.e.linked { s := s.(remote := Bound(r), e := s.e.(linked := true)); }
          socks := socks[id := s.(e := s.e.(rd := true))];
        }
      case PClse(_, id) =>
        if id in socks && socks[id].e.phase == Live { CloseSocket(id, ByPeer); }
      case PWrte(r, id, data) =>
        if id in socks && socks[id].e.phase == Live {
          var ready;
          ready, k, st := EnqueuePacket(id, data, script);
          if ready { outbox := outbox + [POkay(id, r)]; }
          WrapOne(id, Bound(r), Okay);
        } else {
          k := |data|;
        }
    }

    /** connect_to_remote on a new local socket. */
    method Connect() returns (id: nat)
      modifies this
      ensures id == old(next)
      ensures var o := NodeStep(old(Abs()), [], Dial);
              Abs() == o.n && outbox == old(outbox) + o.out
    {
      id := next;
      next := next + 1;
      socks := socks[id := Sock(FRESH, true, Unbound)];
      outbox := outbox + [POpen(id)];
    }

    /** The FDE_WRITE half of local_socket_event_func; `go` tells whether to look at FDE_READ. */
    method ServeWritable(id: nat, ws: seq<WriteResult>) returns (k: nat, st: WriteEnd, go: bool)
      requires id in socks && socks[id].e.phase != Gone && socks[id].e.wr
      requires socks[id].e.phase == Live ==> socks[id].e.linked
      requires socks[id].e.linked ==> socks[id].remote.Bound?
      modifies this
      ensures NodeCan(old(Abs()), [], Event(id, Writable(k, st)))
      ensures var o := NodeStep(old(Abs()), [], Event(id, Writable(k, st)));
              Abs() == o.n && outbox == old(outbox) + o.out
      ensures k == Drained(old(socks[id].e.queue), ws).k && st == Drained(old(socks[id].e.queue), ws).st
      ensures go <==> st == Done && old(socks[id].e.phase) == Live
    {
      var q';
      q', k, st := DrainLoop(socks[id].e.queue, ws);
      go := AfterDrain(id, q', k, st);
    }

    /** What follows the write loops. */
    method AfterDrain(id: nat, q': seq<seq<byte>>, k: nat, st: WriteEnd) returns (go: bool)
      requires id in socks && socks[id].e.phase != Gone
      requires socks[id].e.phase == Live ==> socks[id].remote.Bound?
      requires WriteOutcome(|Flat(socks[id].e.queue)|, k, st) && q' == DropBytes(socks[id].e.queue, k)
      modifies this
      ensures next == old(next)
      ensures var s := old(socks[id]);
              var m := OnWritable(s.e, k, st);
              && socks == old(socks)[id := s.(e := m.e)]
              && outbox == old(outbox) + Wrap(id, s.remote, m.out)
      ensures go <==> st == Done && old(socks[id].e.phase) == Live
    {
      go := false;
      var s := socks[id];
      socks := socks[id := s.(e := s.e.(queue := q', written := s.e.written + Flat(s.e.queue)[..k]))];
      if st == Blocked { return; }
      if st == Broken { CloseSocket(id, ByError); return; }
      if s.e.phase == Closing { CloseSocket(id, s.e.cause); return; }
      s := socks[id];
      socks := socks[id := s.(e := s.e.(wr := false))];
      WrapOne(id, s.remote, Okay);
      outbox := outbox + [POkay(id, s.remote.id)];
      go := true;
    }

    /** The FDE_READ half of local_socket_event_func. */
    method ServeReadable(id: nat, rs: seq<ReadResult>) returns (data: seq<byte>, eof: bool)
      requires id in socks && socks[id].e.phase != Gone
      requires socks[id].e.rd || socks[id].e.phase == Closing || (Probes(rs) && socks[id].e.linked)
      requires socks[id].e.linked ==> socks[id].remote.Bound?
      modifies this
      ensures Pull(data, eof) == Pulled(MAX_PAYLOAD, rs)
      ensures NodeCan(old(Abs()), [], Event(id, Readable(data, eof)))
      ensures var o := NodeStep(old(Abs()), [], Event(id, Readable(data, eof)));
              Abs() == o.n && outbox == old(outbox) + o.out
    {
      data, eof := ReadLoop(rs);
      AfterRead(id, data, eof);
    }

    /** What follows the read loop. */
    method AfterRead(id: nat, data: seq<byte>, eof: bool)
      requires id in socks && socks[id].e.phase != Gone
      requires socks[id].e.linked ==> socks[id].remote.Bound?
      modifies this
      ensures next == old(next)
      ensures var s := old(socks[id]);
              var m := OnReadable(s.e, data, eof);
              && socks == old(socks)[id := s.(e := m.e)]
              && outbox == old(outbox) + Wrap(id, s.remote, m.out)
    {
      var s := socks[id];
      if data != [] && s.e.linked {
        outbox := outbox + [PWrte(id, s.remote.id, data)];
        socks := socks[id := s.(e := s.e.(sent := s.e.sent + data, rd := false))];
        WrapOne(id, s.remote, Wrte(data));
        WrapTwo(id, s.remote, Wrte(data), Clse);
      }
      if eof {
        ghost var c := Close(socks[id].e, ByEof).out;
        assert [] + c == c;
        CloseSocket(id, ByEof);
      }
    }

    /** local_socket_event_func.  The remote socket of a live socket must be there, as it is in
        every reachable state in which an event can occur. */
    method EventFunc(id: nat, writable: bool, readable: bool,
                     ws: seq<WriteResult>, rs: seq<ReadResult>) returns (acts: seq<Act>)
      requires id in socks && socks[id].e.phase != Gone
      requires socks[id].e.phase == Live ==> socks[id].e.linked
      requires socks[id].e.linked ==> socks[id].remote.Bound?
      requires writable ==> socks[id].e.wr
      requires readable ==> socks[id].e.rd || socks[id].e.phase == Closing || Probes(rs)
      modifies this
      ensures CanServe(old(Abs()), id, acts)
      ensures var (n', out) := Serve(old(Abs()), id, acts);
              Abs() == n' && outbox == old(outbox) + out
      ensures var d, p := Drained(old(socks[id].e.queue), ws), Pulled(MAX_PAYLOAD, rs);
              var go := !writable || (d.st == Done && old(socks[id].e.phase) == Live);
              acts == (if writable then [Writable(d.k, d.st)] else [])
                    + (if go && readable then [Readable(p.data, p.eof)] else [])
    {
      acts := [];
      var go := true;
      ghost var n0, out0 := Abs(), outbox;
      if writable {
        var k, st;
        k, st, go := ServeWritable(id, ws);
        acts := [Writable(k, st)];
        ServeOne(n0, id, acts[0]);
      }
      if go && readable {
        ghost var n1, out1 := Abs(), outbox;
        var data, eof := ServeReadable(id, rs);
        var r := Readable(data, eof);
        ServeOne(n1, id, r);
        if writable { assert [acts[0], r][1..] == [r]; }
        acts := acts + [r];
      }
    }
  }

  lemma WrapOne(id: nat, remote: Remote, m: Msg)
    requires remote.Bound?
    ensures Wrap(id, remote, [m]) ==
            [match m case Wrte(data) => PWrte(id, remote.id, data)
                     case Okay => POkay(id, remote.id) case Clse => PClse(0, remote.id)]
  {
    assert [m][1..] == [];
  }

  lemma WrapTwo(id: nat, remote: Remote, m: Msg, m': Msg)
    ensures Wrap(id, remote, [m] + [m']) == Wrap(id, remote, [m]) + Wrap(id, remote, [m'])
  {
    assert ([m] + [m'])[1..] == [m'];
    assert [m][1..] == [];
  }

  /** Serving one event. */
  lemma ServeOne(n: Node, id: nat, a: Act)
    requires NodeCan(n, [], Event(id, a))
    ensures CanServe(n, id, [a])
    ensures var o := NodeStep(n, [], Event(id, a)); Serve(n, id, [a]) == (o.n, o.out)
  {
    var o := NodeStep(n, [], Event(id, a));
    assert Serve(o.n, id, []) == (o.n, []);
    assert [a][1..] == [];
    assert o.out + [] == o.out;
  }

  /** Dropping bytes in two goes. */
  lemma {:induction false} DropDrop(q: seq<seq<byte>>, k: nat, d: nat)
    ensures DropBytes(q, k + d) == DropBytes(DropBytes(q, k), d)
  {
    if q != [] && k >= |q[0]| {
      DropDrop(q[1..], k - |q[0]|, d);
    }
  }
}
