/** The sockets of a process as linked objects: the list of local sockets, the list of closing
    ones, and the peer pointers between sockets.  What every operation keeps, and what tearing
    down leaves behind. */
module SocketTable {
  import opened Bytes

  /** A local socket is bound to a descriptor, a remote one to the protocol engine. */
  datatype Kind = Local | Far

  class Asocket {
    const kind: Kind
    /** For a local socket its own id, or 0 when it is on no list; for a remote one the id of the
        socket at the other side. */
    var id: nat
    var closing: bool
    var peer: Asocket?
    var queue: seq<seq<byte>>
    /** 0 stands for no transport. */
    var transport: nat

    constructor (kind: Kind, id: nat, transport: nat)
      ensures this.kind == kind && this.id == id && this.transport == transport
      ensures !closing && peer == null && queue == []
    {
      this.kind, this.id, this.transport := kind, id, transport;
      closing, peer, queue := false, null, [];
    }
  }

  /** A CLSE packet, by the transport it was sent on and the id it is addressed to. */
  datatype Goodbye = Goodbye(transport: nat, id: nat)

  /** A list without one of its elements. */
  ghost function Without(q: seq<Asocket>, s: Asocket): (r: seq<Asocket>)
    ensures forall x :: x in r ==> x in q && x != s
    ensures forall x :: x in q && x != s ==> x in r
    ensures |r| <= |q| && (s in q ==> |r| < |q|)
    ensures s !in q ==> r == q
  {
    if q == [] then []
    else if q[0] == s then Without(q[1..], s)
    else [q[0]] + Without(q[1..], s)
  }

  ghost predicate Distinct(q: seq<Asocket>)
  {
    forall i, j :: 0 <= i < j < |q| ==> q[i] != q[j]
  }

  lemma {:induction false} WithoutDistinct(q: seq<Asocket>, s: Asocket)
    requires Distinct(q)
    ensures Distinct(Without(q, s))
  {
    if q != [] {
      WithoutDistinct(q[1..], s);
      assert q[0] !in q[1..];
    }
  }

  lemma {:induction false} WithoutSplit(q: seq<Asocket>, i: nat)
    requires Distinct(q) && i < |q|
    ensures Without(q, q[i]) == q[..i] + q[i + 1..]
  {
    if i == 0 {
      assert q[0] !in q[1..];
      assert Without(q, q[0]) == Without(q[1..], q[0]) == q[1..];
    } else {
      WithoutSplit(q[1..], i - 1);
      assert Without(q, q[i]) == [q[0]] + Without(q[1..], q[i]);
      SplitBehindHead(q, i);
    }
  }

  lemma SplitBehindHead(q: seq<Asocket>, i: nat)
    requires 0 < i < |q|
    ensures q[..i] + q[i + 1..] == [q[0]] + (q[1..][..i - 1] + q[1..][i..])
  {
  }

  class Table {
    var nextId: nat
    var locals: seq<Asocket>
    var closings: seq<Asocket>
    var goodbyes: seq<Goodbye>
    /** Every socket allocated and not freed. */
    ghost var live: set<Asocket>

    /** The invariant, apart from the peer pointer of `hole`. */
    ghost predicate ValidBut(hole: Asocket?)
      reads this, live
    {
      && 0 < nextId
      && Distinct(locals) && Distinct(closings)
      && (forall s :: s in locals ==> s in live && s.kind == Local && !s.closing && 0 < s.id < nextId)
      && (forall s :: s in closings ==>
            s in live && s.kind == Local && s.closing && s.id == 0 && s.peer == null && s.queue != [])
      && (forall s :: s in live && s.kind == Local ==> s in locals || s in closings)
      && (forall s, t :: s in locals && t in locals && s.id == t.id ==> s == t)
      && (forall s :: s in live && s != hole && s.peer != null ==>
            s.peer in live && s.peer != s && s.peer != hole && s.peer.peer == s)
    }

    /** Between callbacks peer links are symmetric. */
    ghost predicate Valid()
      reads this, live
    {
      ValidBut(null) && FarLinked()
    }

    /** A remote socket lives only as long as its link. */
    ghost predicate FarLinked()
      reads this, live
    {
      forall s :: s in live && s.kind == Far ==> s.peer != null
    }

    constructor ()
      ensures Valid() && locals == [] && closings == [] && live == {} && goodbyes == []
    {
      nextId := 1;
      locals, closings, goodbyes, live := [], [], [], {};
    }

    /** find_local_socket: closing sockets are not found. */
    method FindLocalSocket(id: nat) returns (s: Asocket?)
      requires Valid()
      ensures s != null ==> s in locals && s.id == id && !s.closing
      ensures s == null ==> forall t :: t in locals ==> t.id != id
    {
      for i := 0 to |locals|
        invariant forall t :: t in locals[..i] ==> t.id != id
      {
        if locals[i].id == id { return locals[i]; }
      }
      s := null;
    }

    /** create_local_socket with install_local_socket. */
    method CreateLocalSocket() returns (s: Asocket)
      requires Valid()
      modifies this
      ensures Valid() && fresh(s) && live == old(live) + {s}
      ensures locals == old(locals) + [s] && closings == old(closings) && goodbyes == old(goodbyes)
      ensures s.kind == Local && s.id == old(nextId) && s.peer == null && s.transport == 0
    {
      s := new Asocket(Local, nextId, 0);
      nextId := nextId + 1;
      locals := locals + [s];
      live := live + {s};
    }

    /** The A_OPEN and A_OKAY handlers give a local socket a remote socket for a peer. */
    method LinkRemoteSocket(s: Asocket, remoteId: nat, transport: nat) returns (r: Asocket)
      requires Valid() && s in locals && s.peer == null
      modifies this`live, s`peer
      ensures Valid() && fresh(r) && live == old(live) + {r}
      ensures s.peer == r && r.kind == Far && r.id == remoteId && r.transport == transport
    {
      r := new Asocket(Far, remoteId, transport);
      r.peer := s;
      s.peer := r;
      live := live + {r};
    }

    /** remove_socket. */
    method RemoveSocket(s: Asocket)
      requires Distinct(locals) && Distinct(closings)
      modifies this`locals, this`closings, s`id
      ensures locals == Without(old(locals), s) && closings == Without(old(closings), s)
      ensures Distinct(locals) && Distinct(closings)
      ensures s.id == if s in old(locals) || s in old(closings) then 0 else old(s.id)
    {
      WithoutDistinct(locals, s);
      WithoutDistinct(closings, s);
      if s in locals || s in closings { s.id := 0; }
      locals := Unlinked(locals, s);
      closings := Unlinked(closings, s);
    }

    /** A list with this socket taken out. */
    method Unlinked(q: seq<Asocket>, s: Asocket) returns (r: seq<Asocket>)
      requires Distinct(q)
      ensures r == Without(q, s)
    {
      for i := 0 to |q|
        invariant s !in q[..i]
      {
        if q[i] == s {
          WithoutSplit(q, i);
          return q[..i] + q[i + 1..];
        }
      }
      r := q;
    }

    /** The second half of local_socket_close_locked. */
    method RetireSocket(s: Asocket, ghost hole: Asocket?)
      requires ValidBut(hole) && FarLinked()
      requires s in live && s.kind == Local && s.peer == null && s != hole
      modifies this`locals, this`closings, this`live, s
      ensures ValidBut(hole) && FarLinked()
      ensures locals == Without(old(locals), s)
      ensures s.peer == null && s.transport == old(s.transport)
      ensures if old(s.closing || s.queue == [])
              then live == old(live) - {s} && closings == Without(old(closings), s)
              else live == old(live) && closings == old(closings) + [s] && s.queue == old(s.queue)
    {
      if s.closing || s.queue == [] { DestroySocket(s, hole); } else { ParkSocket(s, hole); }
    }

    /** local_socket_destroy. */
    method DestroySocket(s: Asocket, ghost hole: Asocket?)
      requires ValidBut(hole) && FarLinked()
      requires s in live && s.kind == Local && s.peer == null && s != hole
      modifies this`locals, this`closings, this`live, s`id
      ensures ValidBut(hole) && FarLinked() && live == old(live) - {s}
      ensures locals == Without(old(locals), s) && closings == Without(old(closings), s)
    {
      RemoveSocket(s);
      live := live - {s};
    }

    /** A socket with a backlog goes to the closing list. */
    method ParkSocket(s: Asocket, ghost hole: Asocket?)
      requires ValidBut(hole) && FarLinked()
      requires s in live && s.kind == Local && s.peer == null && s != hole && !s.closing && s.queue != []
      modifies this`locals, this`closings, s`id, s`closing
      ensures ValidBut(hole) && FarLinked()
      ensures locals == Without(old(locals), s) && closings == old(closings) + [s] && s.closing
    {
      RemoveSocket(s);
      s.closing := true;
      closings := closings + [s];
    }

    /** A closed local socket with a backlog is on the closing list, with all of it; without one it is freed. */
    twostate predicate Settled(x: Asocket)
      reads this, x
    {
      x.kind == Local ==>
        if old(!x.closing && x.queue != []) then x in live && x in closings && x.closing && x.queue == old(x.queue)
        else x !in live
    }

    /** local_socket_close_locked, with remote_socket_close.  The peer's link is cut before the
        peer is closed, so the recursion goes one level deep. */
    method CloseSocket(s: Asocket, ghost hole: Asocket?)
      requires ValidBut(hole) && FarLinked()
      requires s in live && s.kind == Local && s != hole
      requires hole != null ==> s.peer == null
      modifies this`locals, this`closings, this`live, this`goodbyes, s, s.peer
      ensures ValidBut(hole) && FarLinked()
      ensures s !in locals && s.peer == null
      ensures var p := old(s.peer);
              && locals == (if p == null then Without(old(locals), s)
                            else Without(Without(old(locals), p), s))
              && goodbyes == (if p != null && p.kind == Far
                              then old(goodbyes) + [Goodbye(old(p.transport), old(p.id))]
                              else old(goodbyes))
              && (p != null ==> p !in locals && (p.kind == Far ==> p !in live))
      ensures live <= old(live) && Settled(s) && (old(s.peer) != null ==> Settled(old(s.peer)))
      decreases if s.peer == null then 0 else 2
    {
      if s.peer != null { CutPeer(s); }
      RetireSocket(s, hole);
    }

    /** The first half of local_socket_close_locked: cut the peer's link, then close the peer. */
    method CutPeer(s: Asocket)
      requires Valid() && s in live && s.kind == Local && s.peer != null
      modifies this`locals, this`closings, this`live, this`goodbyes, s`peer, s.peer
      ensures Valid() && s.peer == null && s in live && live <= old(live)
      ensures var p := old(s.peer);
              && locals == Without(old(locals), p)
              && goodbyes == (if p.kind == Far
                              then old(goodbyes) + [Goodbye(old(p.transport), old(p.id))]
                              else old(goodbyes))
              && (p.kind == Far ==> p !in live)
      ensures Settled(old(s.peer))
      decreases 1
    {
      var p := s.peer;
      Sever(s, p);
      if p.kind == Local {
        CloseSocket(p, s);
      } else {
        CloseFar(p, s);
      }
      Unhook(s);
    }

    /** The peer no longer points back. */
    method Sever(s: Asocket, p: Asocket)
      requires Valid() && s in live && s.kind == Local && s.peer == p
      modifies p`peer
      ensures ValidBut(s) && p.peer == null && p in live && p != s
      ensures forall x :: x in live && x.kind == Far && x != p ==> x.peer != null
    {
      p.peer := null;
    }

    /** And the socket no longer points to the peer. */
    method Unhook(s: Asocket)
      requires ValidBut(s) && FarLinked() && s in live && s.kind == Local
      modifies s`peer
      ensures Valid() && s.peer == null
    {
      s.peer := null;
    }

    /** remote_socket_close, once its link is cut. */
    method CloseFar(p: Asocket, ghost hole: Asocket)
      requires ValidBut(hole) && p in live && p.kind == Far && p.peer == null && p != hole
      requires forall x :: x in live && x.kind == Far && x != p ==> x.peer != null
      modifies this`live, this`goodbyes
      ensures ValidBut(hole) && FarLinked() && live == old(live) - {p}
      ensures goodbyes == old(goodbyes) + [Goodbye(p.transport, p.id)]
    {
      goodbyes := goodbyes + [Goodbye(p.transport, p.id)];
      live := live - {p};
    }

    /** close_all_sockets: restart from the head of the list after each close.  It ends, and what
        is left of the list is exactly what was not bound to the transport, in order. */
    method CloseAllSockets(t: nat)
      requires Valid()
      modifies this, live
      ensures Valid() && live <= old(live)
      ensures locals == Minus(old(locals), old(Doomed(locals, t)))
      ensures forall s :: s in locals ==> !Bound(s, t)
      ensures forall s :: s in locals ==> Intact(s)
    {
      ghost var doomed := Doomed(locals, t);
      CloseBound(t, doomed, Minus(locals, doomed));
      MinusNothing(locals, doomed);
    }

    /** The loop of close_all_sockets; `rest` are the sockets that are not doomed. */
    method CloseBound(t: nat, ghost doomed: set<Asocket>, ghost rest: seq<Asocket>)
      requires Valid() && doomed == Doomed(locals, t) && Minus(locals, doomed) == rest
      modifies this, live
      ensures Valid() && live <= old(live)
      ensures forall x :: x in locals ==> x in old(locals) && x !in doomed && !Bound(x, t) && Intact(x)
      ensures Minus(locals, doomed) == rest
    {
      assert forall x :: x in locals && Bound(x, t) ==> x in doomed;
      var s := FirstBound(t);
      while s != null
        invariant Valid() && live <= old(live)
        invariant forall x :: x in locals ==> x in old(locals) && Intact(x)
        invariant Minus(locals, doomed) == rest
        invariant s != null ==> s in locals && Bound(s, t)
        invariant s == null ==> forall x :: x in locals ==> !Bound(x, t)
        decreases |locals|
      {
        CloseOne(s, t, doomed, rest);
        s := FirstBound(t);
      }
    }

    /** The scan that close_all_sockets restarts. */
    method FirstBound(t: nat) returns (s: Asocket?)
      ensures s != null ==> s in locals && Bound(s, t)
      ensures s == null ==> forall x :: x in locals ==> !Bound(x, t)
    {
      for i := 0 to |locals|
        invariant forall x :: x in locals[..i] ==> !Bound(x, t)
      {
        s := locals[i];
        if s.transport == t || (s.peer != null && s.peer.transport == t) { return s; }
      }
      s := null;
    }

    /** One round of close_all_sockets. */
    method CloseOne(s: Asocket, t: nat, ghost doomed: set<Asocket>, ghost rest: seq<Asocket>)
      requires Valid() && s in locals && Bound(s, t) && Minus(locals, doomed) == rest
      requires forall x :: x in locals && Bound(x, t) ==> x in doomed
      modifies this, live
      ensures Valid() && live <= old(live) && |locals| < |old(locals)|
      ensures forall x :: x in locals ==> x in old(locals) && Intact(x)
      ensures Minus(locals, doomed) == rest
    {
      ghost var p := s.peer;
      assert p == null || p in doomed || p !in locals;
      MinusPair(locals, s, p, doomed);
      CloseApart(s);
    }

    /** Closing a socket leaves all but it and its peer as they are. */
    method CloseApart(s: Asocket)
      requires Valid() && s in locals
      modifies this, live
      ensures Valid() && live <= old(live) && |locals| < |old(locals)|
      ensures forall x :: x in locals ==> x in old(locals) && Intact(x)
      ensures var p := old(s.peer);
              locals == if p == null then Without(old(locals), s) else Without(Without(old(locals), p), s)
    {
      ghost var p := s.peer;
      CloseSocket(s, null);
      assert forall x :: x in locals ==> Apart(x, s, p);
    }

    /** remote_socket_disconnect: the transport is gone, so no CLSE is sent. */
    method Disconnect(r: Asocket)
      requires Valid() && r in live && r.kind == Far && r.peer.kind == Local
      modifies this`locals, this`closings, this`live, this`goodbyes, r`peer, r.peer
      ensures Valid() && r !in live && live <= old(live)
      ensures locals == Without(old(locals), old(r.peer)) && goodbyes == old(goodbyes)
      ensures Settled(old(r.peer))
    {
      var p := r.peer;
      live := live - {r};
      p.peer := null;
      r.peer := null;
      CloseSocket(p, null);
    }
  }

  /** Neither `x` nor its peer is one of two given sockets. */
  ghost predicate Apart(x: Asocket, s: Asocket, p: Asocket?)
    reads x
  {
    x != s && x != p && x.peer != s && (p != null ==> x.peer != p)
  }

  /** A socket and the transport of its peer are as before. */
  twostate predicate Intact(s: Asocket)
    reads s, s.peer
  {
    && s.id == old(s.id) && s.queue == old(s.queue)
    && s.peer == old(s.peer) && s.transport == old(s.transport)
    && (s.peer != null ==> s.peer.transport == old(s.peer.transport))
  }

  ghost predicate Bound(s: Asocket, t: nat)
    reads s, s.peer
  {
    s.transport == t || (s.peer != null && s.peer.transport == t)
  }

  ghost function Doomed(q: seq<Asocket>, t: nat): set<Asocket>
    reads q, set s | s in q && s.peer != null :: s.peer
  {
    set s | s in q && Bound(s, t)
  }

  /** A list without the elements of a set. */
  ghost function Minus(q: seq<Asocket>, d: set<Asocket>): (r: seq<Asocket>)
  {
    if q == [] then []
    else if q[0] in d then Minus(q[1..], d)
    else [q[0]] + Minus(q[1..], d)
  }

  /** A doomed socket and its peer may go without a difference. */
  lemma MinusPair(q: seq<Asocket>, s: Asocket, p: Asocket?, d: set<Asocket>)
    requires s in d && (p == null || p in d || p !in q)
    ensures Minus(if p == null then Without(q, s) else Without(Without(q, p), s), d) == Minus(q, d)
  {
    if p != null { MinusWithout(q, p, d); }
    MinusWithout(if p == null then q else Without(q, p), s, d);
  }

  lemma {:induction false} MinusWithout(q: seq<Asocket>, s: Asocket, d: set<Asocket>)
    requires s in d || s !in q
    ensures Minus(Without(q, s), d) == Minus(q, d)
  {
    if q != [] {
      if s !in q {
        assert Without(q, s) == q;
      } else if q[0] == s {
        if s in d { MinusWithout(q[1..], s, d); }
      } else {
        MinusWithout(q[1..], s, d);
        assert Without(q, s)[1..] == Without(q[1..], s);
      }
    }
  }

  lemma {:induction false} MinusNothing(q: seq<Asocket>, d: set<Asocket>)
    requires forall x :: x in q ==> x !in d
    ensures Minus(q, d) == q
  {
    if q != [] { MinusNothing(q[1..], d); }
  }
}
