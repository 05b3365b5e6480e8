/** Many streams over one transport.  Each node keeps its local sockets by id; packets carry the
    sender's id in arg0 and the receiver's id in arg1.  The main result: seen from any one
    connected pair of sockets, a run of the multiplexer is a run of the two-ended stream of
    Streams.dfy, whatever the other sockets do in between. */
module Mux {
  import opened Bytes
  import opened Endpoint
  import opened Streams

  datatype Packet =
    | POpen(arg0: nat)
    | POkay(arg0: nat, arg1: nat)
    | PClse(arg0: nat, arg1: nat)
    | PWrte(arg0: nat, arg1: nat, data: seq<byte>)

  datatype Remote = Unbound | Bound(id: nat)

  /** A local socket.  `opener` tells connect_to_remote from the A_OPEN handler.  `remote` is the
      id its remote socket was created with; it is kept after the link is gone. */
  datatype Sock = Sock(e: End, opener: bool, remote: Remote)

  /** Local sockets by id, including (as history) those that have been closed; only live ones are
      found by find_local_socket.  Ids are handed out once and in order. */
  datatype Node = Node(next: nat, socks: map<nat, Sock>)

  datatype NodeAct =
    | Dial
    | Take(accept: bool, k: nat, st: WriteEnd)
    | Event(id: nat, act: Act)

  datatype NodeOut = NodeOut(n: Node, inp: seq<Packet>, out: seq<Packet>)

  /** The packets a socket's remote peer makes of the socket's messages.  By the time CLSE is
      sent the peer has been unlinked, so it carries no local id. */
  function Wrap(id: nat, remote: Remote, out: seq<Msg>): (ps: seq<Packet>)
  {
    if out == [] || remote == Unbound then []
    else
      [match out[0]
       case Wrte(data) => PWrte(id, remote.id, data)
       case Okay => POkay(id, remote.id)
       case Clse => PClse(0, remote.id)] + Wrap(id, remote, out[1..])
  }

  /** The message in a packet, for a packet that is not OPEN. */
  function Body(p: Packet): Msg
    requires !p.POpen?
  {
    match p
    case POkay(_, _) => Okay
    case PClse(_, _) => Clse
    case PWrte(_, _, data) => Wrte(data)
  }

  /** find_local_socket. */
  predicate Found(n: Node, id: nat) { id in n.socks && n.socks[id].e.phase == Live }

  ghost predicate NodeCan(n: Node, inp: seq<Packet>, act: NodeAct)
  {
    match act
    case Dial => true
    case Take(_, k, st) => inp != [] && (inp[0].PWrte? ==> WriteOutcome(|inp[0].data|, k, st))
    case Event(id, a) => id in n.socks && !a.Recv? && Enabled(n.socks[id].e, [], a)
  }

  /** handle_packet for a packet addressed to a socket that was found. */
  function Deliver(n: Node, p: Packet, k: nat, st: WriteEnd): (r: (Node, seq<Packet>))
    requires !p.POpen? && Found(n, p.arg1)
    requires p.PWrte? ==> WriteOutcome(|p.data|, k, st)
  {
    var s := n.socks[p.arg1];
    var m := Receive(s.e, Body(p), k, st);
    var remote := if p.POkay? && !s.e.linked then Bound(p.arg0) else s.remote;
    // The reply to a WRTE goes to the id the packet came with.
    var back := if p.PWrte? && m.out == [Okay] then Bound(p.arg0) else remote;
    (n.(socks := n.socks[p.arg1 := s.(e := m.e, remote := remote)]), Wrap(p.arg1, back, m.out))
  }

  /** handle_packet. */
  function Handle(n: Node, p: Packet, accept: bool, k: nat, st: WriteEnd): (r: (Node, seq<Packet>))
    requires p.PWrte? ==> WriteOutcome(|p.data|, k, st)
  {
    if p.POpen? then
      if accept then
        (Node(n.next + 1,
              n.socks[n.next := Sock(FRESH.(linked := true, rd := true), false, Bound(p.arg0))]),
         [POkay(n.next, p.arg0)])
      else (n, [PClse(0, p.arg0)])
    else if Found(n, p.arg1) then Deliver(n, p, k, st)
    else (n, [])
  }

  ghost function NodeStep(n: Node, inp: seq<Packet>, act: NodeAct): (o: NodeOut)
    requires NodeCan(n, inp, act)
  {
    match act
    case Dial =>
      NodeOut(Node(n.next + 1, n.socks[n.next := Sock(FRESH, true, Unbound)]), inp, [POpen(n.next)])
    case Take(accept, k, st) =>
      var (n', out) := Handle(n, inp[0], accept, k, st);
      NodeOut(n', inp[1..], out)
    case Event(id, a) =>
      var s := n.socks[id];
      var o := Act1(s.e, [], a);
      NodeOut(n.(socks := n.socks[id := s.(e := o.e)]), inp, Wrap(id, s.remote, o.out))
  }

  datatype Net = Net(a: Node, b: Node, ab: seq<Packet>, ba: seq<Packet>)

  datatype NetLabel = NetLabel(side: Side, act: NodeAct)

  function Flip(m: Net): Net { Net(m.b, m.a, m.ba, m.ab) }

  ghost predicate NetCan(m: Net, l: NetLabel)
  {
    if l.side == A then NodeCan(m.a, m.ba, l.act) else NodeCan(m.b, m.ab, l.act)
  }

  ghost function NetStep(m: Net, l: NetLabel): (m': Net)
    requires NetCan(m, l)
  {
    if l.side == A then
      var o := NodeStep(m.a, m.ba, l.act); Net(o.n, m.b, m.ab + o.out, o.inp)
    else
      var o := NodeStep(m.b, m.ab, l.act); Net(m.a, o.n, o.inp, m.ba + o.out)
  }

  ghost predicate NetRun(m: Net, labels: seq<NetLabel>, m': Net)
    decreases |labels|
  {
    if labels == [] then m' == m
    else NetCan(m, labels[0]) && NetRun(NetStep(m, labels[0]), labels[1..], m')
  }

  /** Two fresh nodes: ids start at 1. */
  const START := Net(Node(1, map[]), Node(1, map[]), [], [])

  // ---------------------------------------------------------------- one stream of many

  /** Socket `i` of node `a` and socket `j` of node `b` are the two ends of one stream: one of
      them opened it, the other was created for it. */
  ghost predicate Mates(a: Node, b: Node, i: nat, j: nat)
  {
    && i in a.socks && j in b.socks
    && a.socks[i].opener != b.socks[j].opener
    && (if a.socks[i].opener then b.socks[j].remote == Bound(i) else a.socks[i].remote == Bound(j))
  }

  /** The messages addressed to socket `id`. */
  function To(c: seq<Packet>, id: nat): (r: seq<Msg>)
  {
    if c == [] then []
    else (if !c[0].POpen? && c[0].arg1 == id then [Body(c[0])] else []) + To(c[1..], id)
  }

  lemma {:induction false} ToAppend(c: seq<Packet>, d: seq<Packet>, id: nat)
    ensures To(c + d, id) == To(c, id) + To(d, id)
  {
    if c == [] {
      assert c + d == d;
    } else {
      ToAppend(c[1..], d, id);
      assert (c + d)[1..] == c[1..] + d;
      MessagesAssoc(if !c[0].POpen? && c[0].arg1 == id then [Body(c[0])] else [], To(c[1..], id), To(d, id));
    }
  }

  lemma MessagesAssoc(x: seq<Msg>, y: seq<Msg>, z: seq<Msg>)
    ensures x + (y + z) == x + y + z
  {
  }

  lemma {:induction false} WrapTo(id: nat, remote: Remote, out: seq<Msg>, j: nat)
    ensures To(Wrap(id, remote, out), j) == if remote == Bound(j) then out else []
  {
    if out != [] && remote != Unbound {
      WrapTo(id, remote, out[1..], j);
      assert Wrap(id, remote, out)[1..] == Wrap(id, remote, out[1..]);
    }
  }

  /** The stream of a pair of mates. */
  ghost function View(m: Net, i: nat, j: nat): Stream
    requires i in m.a.socks && j in m.b.socks
  {
    Stream(m.a.socks[i].e, m.b.socks[j].e, To(m.ab, j), To(m.ba, i))
  }

  // ---------------------------------------------------------------- the invariant

  ghost predicate Addressed(p: Packet, id: nat) { !p.POpen? && p.arg1 == id }

  /** A socket that has been linked and is not destroyed, or that listens to its descriptor. */
  predicate Busy(e: End) { e.rd || e.wr || (e != FRESH && e.phase != Gone) }

  /** The sockets of node `a`, and their mates at `b`. */
  ghost predicate SockInv(a: Node, b: Node)
  {
    && 0 < a.next
    && (forall i :: i in a.socks ==> 0 < i < a.next)
    && (forall i :: i in a.socks && a.socks[i].remote != Unbound ==>
                      Mates(a, b, i, a.socks[i].remote.id))
    && (forall i :: i in a.socks && (a.socks[i].e.linked || !a.socks[i].opener) ==>
                      a.socks[i].remote != Unbound)
    && (forall i :: i in a.socks && Busy(a.socks[i].e) ==>
                      exists j :: Mates(a, b, i, j))
    && (forall i, j, j' :: Mates(a, b, i, j) && Mates(a, b, i, j') ==> j == j')
  }

  /** A packet on its way from `a` to `b` other than OPEN. */
  ghost predicate SentOk(a: Node, b: Node, p: Packet)
  {
    match p
    case POpen(_) => true
    case POkay(i, j) => Mates(a, b, i, j)
    case PWrte(i, j, _) => Mates(a, b, i, j)
    case PClse(_, j) => j in b.socks
  }

  /** An OPEN on its way from `a` to `b`: its socket is untouched and nobody talks to it yet. */
  ghost predicate OpenOk(a: Node, b: Node, ba: seq<Packet>, i: nat)
  {
    && i in a.socks && a.socks[i] == Sock(FRESH, true, Unbound)
    && (forall j :: !Mates(a, b, i, j))
    && (forall k :: 0 <= k < |ba| ==> !Addressed(ba[k], i))
  }

  ghost predicate WireInv(a: Node, b: Node, ab: seq<Packet>, ba: seq<Packet>)
  {
    && (forall k :: 0 <= k < |ab| ==> SentOk(a, b, ab[k]))
    && (forall k :: 0 <= k < |ab| && ab[k].POpen? ==> OpenOk(a, b, ba, ab[k].arg0))
    && (forall k, l :: 0 <= k < l < |ab| && ab[k].POpen? ==> ab[l] != ab[k])
  }

  ghost predicate StreamsInv(m: Net)
  {
    forall i, j :: Mates(m.a, m.b, i, j) ==> Inv(View(m, i, j))
  }

  ghost predicate NetInv(m: Net)
  {
    && SockInv(m.a, m.b) && SockInv(m.b, m.a)
    && WireInv(m.a, m.b, m.ab, m.ba) && WireInv(m.b, m.a, m.ba, m.ab)
    && StreamsInv(m)
  }

  lemma MatesFlip(a: Node, b: Node, i: nat, j: nat)
    ensures Mates(a, b, i, j) <==> Mates(b, a, j, i)
  {
  }

  // ---------------------------------------------------------------- a step of node a

  /** A socket changes, without changing who opened it nor (if it was created) for whom. */
  ghost predicate SameRole(s: Sock, s': Sock)
  {
    s'.opener == s.opener && (s.opener || s'.remote == s.remote)
  }

  function Put(n: Node, i: nat, s: Sock): Node { n.(socks := n.socks[i := s]) }

  lemma PutMates(a: Node, b: Node, i0: nat, s': Sock)
    requires i0 in a.socks && SameRole(a.socks[i0], s')
    ensures SameMates(a, Put(a, i0, s'), b)
  {
  }

  ghost predicate SameMates(a: Node, a': Node, b: Node)
  {
    && (forall i, j :: Mates(a', b, i, j) <==> Mates(a, b, i, j))
    && (forall i, j :: Mates(b, a', j, i) <==> Mates(b, a, j, i))
  }

  /** What may happen to socket `i0` of node `a` in one step, with mate `j0`. */
  ghost predicate Touches(a: Node, b: Node, ba: seq<Packet>, i0: nat, s': Sock, j0: nat,
                          ba': seq<Packet>, ps: seq<Packet>)
  {
    && Mates(a, b, i0, j0)
    && SameRole(a.socks[i0], s')
    && (s'.remote == a.socks[i0].remote || s'.remote == Bound(j0))
    && (s'.e.linked ==> s'.remote != Unbound)
    && (ba' == ba || (ba != [] && ba' == ba[1..] && Addressed(ba[0], i0)))
    && (forall k :: 0 <= k < |ps| ==> Addressed(ps[k], j0) && (ps[k].PClse? || ps[k].arg0 == i0))
  }

  lemma TouchSocksA(a: Node, b: Node, i0: nat, s': Sock, j0: nat)
    requires SockInv(a, b)
    requires Mates(a, b, i0, j0) && SameRole(a.socks[i0], s')
    requires s'.remote == a.socks[i0].remote || s'.remote == Bound(j0)
    requires s'.e.linked ==> s'.remote != Unbound
    requires SameMates(a, Put(a, i0, s'), b)
    ensures SockInv(Put(a, i0, s'), b)
  {
    var a' := Put(a, i0, s');
    forall i | i in a'.socks && Busy(a'.socks[i].e)
      ensures exists j :: Mates(a', b, i, j)
    {
      if i == i0 {
        assert Mates(a', b, i, j0);
      } else {
        var j :| Mates(a, b, i, j);
        assert Mates(a', b, i, j);
      }
    }
  }

  lemma TouchSocksB(a: Node, a': Node, b: Node)
    requires SockInv(b, a) && SameMates(a, a', b)
    ensures SockInv(b, a')
  {
    forall j | j in b.socks && Busy(b.socks[j].e)
      ensures exists i :: Mates(b, a', j, i)
    {
      var i :| Mates(b, a, j, i);
      assert Mates(b, a', j, i);
    }
  }

  lemma TouchWireOut(a: Node, b: Node, ab: seq<Packet>, ba: seq<Packet>,
                     i0: nat, s': Sock, j0: nat, ba': seq<Packet>, ps: seq<Packet>)
    requires WireInv(a, b, ab, ba) && Touches(a, b, ba, i0, s', j0, ba', ps)
    requires SameMates(a, Put(a, i0, s'), b)
    ensures WireInv(Put(a, i0, s'), b, ab + ps, ba')
  {
    var a' := Put(a, i0, s');
    forall k | 0 <= k < |ab + ps| ensures SentOk(a', b, (ab + ps)[k]) {
      if k < |ab| {
        assert SentOk(a, b, ab[k]);
      } else {
        assert Addressed(ps[k - |ab|], j0);
        assert Mates(a', b, i0, j0);
      }
    }
    forall k | 0 <= k < |ab + ps| && (ab + ps)[k].POpen?
      ensures OpenOk(a', b, ba', (ab + ps)[k].arg0)
    {
      assert k < |ab|;
      assert OpenOk(a, b, ba, ab[k].arg0);
    }
  }

  lemma TouchWireIn(a: Node, b: Node, ab: seq<Packet>, ba: seq<Packet>,
                    i0: nat, s': Sock, j0: nat, ba': seq<Packet>, ps: seq<Packet>)
    requires WireInv(b, a, ba, ab) && Touches(a, b, ba, i0, s', j0, ba', ps)
    requires SameMates(a, Put(a, i0, s'), b)
    ensures WireInv(b, Put(a, i0, s'), ba', ab + ps)
  {
    var a' := Put(a, i0, s');
    var d := if ba' == ba then 0 else 1;
    forall k | 0 <= k < |ba'| ensures SentOk(b, a', ba'[k]) {
      assert SentOk(b, a, ba[k + d]);
    }
    MatesFlip(a, b, i0, j0);
    forall k | 0 <= k < |ba'| && ba'[k].POpen? ensures OpenOk(b, a', ab + ps, ba'[k].arg0) {
      assert OpenOk(b, a, ab, ba[k + d].arg0);
      assert !Mates(b, a, ba[k + d].arg0, i0);
    }
  }

  /** The other streams do not notice. */
  lemma TouchOthers(m: Net, i0: nat, s': Sock, j0: nat, ba': seq<Packet>, ps: seq<Packet>,
                    i: nat, j: nat)
    requires SockInv(m.a, m.b) && SockInv(m.b, m.a) && Touches(m.a, m.b, m.ba, i0, s', j0, ba', ps)
    requires Mates(m.a, m.b, i, j) && i != i0
    ensures View(Net(Put(m.a, i0, s'), m.b, m.ab + ps, ba'), i, j) == View(m, i, j)
  {
    MatesFlip(m.a, m.b, i, j);
    MatesFlip(m.a, m.b, i0, j0);
    assert j != j0;
    ToAppend(m.ab, ps, j);
    NotTo(ps, j);
    assert To(m.ab, j) + [] == To(m.ab, j);
  }

  lemma {:induction false} NotTo(c: seq<Packet>, id: nat)
    requires forall k :: 0 <= k < |c| ==> !Addressed(c[k], id)
    ensures To(c, id) == []
  {
    if c != [] {
      assert !Addressed(c[0], id);
      NotTo(c[1..], id);
    }
  }

  // ---------------------------------------------------------------- steps simulate

  ghost predicate Follows(v: Stream, v': Stream)
  {
    v' == v || exists l :: CanStep(v, l) && Step(v, l) == v'
  }

  ghost predicate Begins(v: Stream) { Opened(v) || Opened(Swap(v)) }

  /** Every stream makes one step or none, and a stream that appears has just been opened. */
  ghost predicate Simulates(m: Net, m': Net)
  {
    && (forall i, j :: Mates(m.a, m.b, i, j) ==>
                         Mates(m'.a, m'.b, i, j) && Follows(View(m, i, j), View(m', i, j)))
    && (forall i, j :: Mates(m'.a, m'.b, i, j) && !Mates(m.a, m.b, i, j) ==>
                         Begins(View(m', i, j)))
  }

  /** The invariant without the streams: who is whose mate, and what is on the wires. */
  ghost predicate LinkedInv(m: Net)
  {
    && SockInv(m.a, m.b) && SockInv(m.b, m.a)
    && WireInv(m.a, m.b, m.ab, m.ba) && WireInv(m.b, m.a, m.ba, m.ab)
  }

  lemma TouchKeeps(m: Net, i0: nat, s': Sock, j0: nat, ba': seq<Packet>, ps: seq<Packet>, l: Label)
    requires LinkedInv(m) && Touches(m.a, m.b, m.ba, i0, s', j0, ba', ps)
    requires CanStep(View(m, i0, j0), l)
    requires Step(View(m, i0, j0), l) == View(Net(Put(m.a, i0, s'), m.b, m.ab + ps, ba'), i0, j0)
    ensures var m' := Net(Put(m.a, i0, s'), m.b, m.ab + ps, ba');
            LinkedInv(m') && Simulates(m, m')
  {
    var a' := Put(m.a, i0, s');
    var m' := Net(a', m.b, m.ab + ps, ba');
    PutMates(m.a, m.b, i0, s');
    TouchSocksA(m.a, m.b, i0, s', j0);
    TouchSocksB(m.a, a', m.b);
    TouchWireOut(m.a, m.b, m.ab, m.ba, i0, s', j0, ba', ps);
    TouchWireIn(m.a, m.b, m.ab, m.ba, i0, s', j0, ba', ps);
    forall i, j | Mates(m.a, m.b, i, j)
      ensures Mates(a', m.b, i, j) && Follows(View(m, i, j), View(m', i, j))
    {
      if i == i0 {
        assert j == j0;
      } else {
        TouchOthers(m, i0, s', j0, ba', ps, i, j);
      }
    }
  }

  lemma WrapShape(id: nat, remote: Remote, out: seq<Msg>)
    ensures remote != Unbound ==>
              forall k :: 0 <= k < |Wrap(id, remote, out)| ==>
                var p := Wrap(id, remote, out)[k];
                Addressed(p, remote.id) && (p.PClse? || p.arg0 == id)
  {
  }

  lemma EnabledAnyInput(e: End, inp: seq<Msg>, a: Act)
    requires !a.Recv? && Enabled(e, [], a)
    ensures Enabled(e, inp, a)
    ensures Act1(e, inp, a) == Act1(e, [], a).(inp := inp)
  {
  }

  /** A socket with an enabled event is linked if the event makes it speak. */
  lemma SpeakersAreLinked(v: Stream, a: Act)
    requires EndInv(v.a) && LinkInv(v.a, v.ba) && !a.Recv? && Enabled(v.a, v.ba, a)
    ensures Act1(v.a, v.ba, a).out != [] ==> v.a.linked
    ensures Act1(v.a, v.ba, a).e.linked ==> v.a.linked
  {
  }

  /** What an event makes a socket do and say. */
  ghost function After(m: Net, id: nat, a: Act): (r: (Sock, seq<Packet>))
    requires NodeCan(m.a, m.ba, Event(id, a))
  {
    var s := m.a.socks[id];
    var o := Act1(s.e, [], a);
    (s.(e := o.e), Wrap(id, s.remote, o.out))
  }

  lemma EventTouches(m: Net, id: nat, a: Act, j0: nat)
    requires NetInv(m) && NodeCan(m.a, m.ba, Event(id, a)) && Mates(m.a, m.b, id, j0)
    ensures Touches(m.a, m.b, m.ba, id, After(m, id, a).0, j0, m.ba, After(m, id, a).1)
  {
    var s, v := m.a.socks[id], View(m, id, j0);
    EnabledAnyInput(s.e, v.ba, a);
    assert Inv(v);
    SpeakersAreLinked(v, a);
    WrapShape(id, s.remote, Act1(s.e, [], a).out);
  }

  lemma EventSteps(m: Net, id: nat, a: Act, j0: nat)
    requires NetInv(m) && NodeCan(m.a, m.ba, Event(id, a)) && Mates(m.a, m.b, id, j0)
    ensures var (s', ps) := After(m, id, a);
            && CanStep(View(m, id, j0), Label(A, a))
            && Step(View(m, id, j0), Label(A, a)) == View(Net(Put(m.a, id, s'), m.b, m.ab + ps, m.ba), id, j0)
  {
    var s, v := m.a.socks[id], View(m, id, j0);
    EnabledAnyInput(s.e, v.ba, a);
    assert Inv(v);
    SpeakersAreLinked(v, a);
    var o := Act1(s.e, [], a);
    if o.out != [] { assert s.remote == Bound(j0); }
    WrapTo(id, s.remote, o.out, j0);
    ToAppend(m.ab, Wrap(id, s.remote, o.out), j0);
  }

  lemma EventKeeps(m: Net, id: nat, a: Act)
    requires NetInv(m) && NodeCan(m.a, m.ba, Event(id, a))
    ensures var m' := NetStep(m, NetLabel(A, Event(id, a)));
            LinkedInv(m') && Simulates(m, m')
  {
    assert Busy(m.a.socks[id].e);
    var j0 :| Mates(m.a, m.b, id, j0);
    EventTouches(m, id, a, j0);
    EventSteps(m, id, a, j0);
    var (s', ps) := After(m, id, a);
    TouchKeeps(m, id, s', j0, m.ba, ps, Label(A, a));
  }

  lemma ToHead(c: seq<Packet>, id: nat)
    requires c != [] && Addressed(c[0], id)
    ensures To(c, id) != [] && To(c, id)[0] == Body(c[0]) && To(c, id)[1..] == To(c[1..], id)
  {
  }

  /** Answers go to the mate. */
  lemma ReplyGoesToMate(a: Node, b: Node, p: Packet, k: nat, st: WriteEnd, j0: nat)
    requires SockInv(a, b) && SockInv(b, a) && SentOk(b, a, p) && !p.POpen?
    requires Found(a, p.arg1) && Mates(a, b, p.arg1, j0)
    requires p.PWrte? ==> WriteOutcome(|p.data|, k, st)
    ensures var (a', out) := Deliver(a, p, k, st);
            var s' := a'.socks[p.arg1];
            && a' == Put(a, p.arg1, s')
            && s'.e == Receive(a.socks[p.arg1].e, Body(p), k, st).e
            && SameRole(a.socks[p.arg1], s')
            && (s'.remote == a.socks[p.arg1].remote || s'.remote == Bound(j0))
            && (s'.e.linked ==> s'.remote != Unbound)
            && out == Wrap(p.arg1, Bound(j0), Receive(a.socks[p.arg1].e, Body(p), k, st).out)
  {
    var s := a.socks[p.arg1];
    MatesFlip(a, b, p.arg1, j0);
    if !p.PClse? { MatesFlip(b, a, p.arg0, p.arg1); }
    assert p.PClse? || p.arg0 == j0;
    var mv := Receive(s.e, Body(p), k, st);
    assert s.e.linked ==> s.remote == Bound(j0);
  }

  lemma DeliverMated(m: Net, k: nat, st: WriteEnd, j0: nat)
    requires LinkedInv(m) && NodeCan(m.a, m.ba, Take(false, k, st))
    requires !m.ba[0].POpen? && Found(m.a, m.ba[0].arg1) && Mates(m.a, m.b, m.ba[0].arg1, j0)
    ensures var (a', out) := Deliver(m.a, m.ba[0], k, st);
            var m' := Net(a', m.b, m.ab + out, m.ba[1..]);
            LinkedInv(m') && Simulates(m, m')
  {
    var p := m.ba[0];
    var i0 := p.arg1;
    ReplyGoesToMate(m.a, m.b, p, k, st, j0);
    var (a', out) := Deliver(m.a, p, k, st);
    var mv := Receive(m.a.socks[i0].e, Body(p), k, st);
    WrapShape(i0, Bound(j0), mv.out);
    WrapTo(i0, Bound(j0), mv.out, j0);
    ToAppend(m.ab, out, j0);
    ToHead(m.ba, i0);
    TouchKeeps(m, i0, a'.socks[i0], j0, m.ba[1..], out, Label(A, Recv(k, st)));
  }

  /** A packet for a socket that is not live any more is dropped. */
  lemma DropMated(m: Net, k: nat, st: WriteEnd, j0: nat)
    requires LinkedInv(m) && NodeCan(m.a, m.ba, Take(false, k, st))
    requires !m.ba[0].POpen? && !Found(m.a, m.ba[0].arg1) && Mates(m.a, m.b, m.ba[0].arg1, j0)
    ensures var m' := Net(m.a, m.b, m.ab + [], m.ba[1..]);
            LinkedInv(m') && Simulates(m, m')
  {
    var i0 := m.ba[0].arg1;
    var s := m.a.socks[i0];
    assert Put(m.a, i0, s) == m.a;
    assert To(m.ab, j0) + [] == To(m.ab, j0) && m.ab + [] == m.ab;
    ToHead(m.ba, i0);
    TouchKeeps(m, i0, s, j0, m.ba[1..], [], Label(A, Recv(k, st)));
  }

  /** A packet for a socket without a mate can only be the refusal of its OPEN. */
  lemma TakeUnmated(m: Net, k: nat, st: WriteEnd)
    requires LinkedInv(m) && NodeCan(m.a, m.ba, Take(false, k, st))
    requires !m.ba[0].POpen? && forall j :: !Mates(m.a, m.b, m.ba[0].arg1, j)
    ensures var (a', out) := Handle(m.a, m.ba[0], false, k, st);
            var m' := Net(a', m.b, m.ab + out, m.ba[1..]);
            LinkedInv(m') && Simulates(m, m')
  {
    assert SentOk(m.b, m.a, m.ba[0]);
    UnmatedTakesClse(m.a, m.b, m.ba[0], k, st);
    var (a', out) := Handle(m.a, m.ba[0], false, k, st);
    assert m.ab + out == m.ab;
    QuietKeeps(m, m.ba[0].arg1, a'.socks[m.ba[0].arg1]);
  }

  /** Nothing else notices that a socket without a mate is closed. */
  lemma QuietKeeps(m: Net, i0: nat, s': Sock)
    requires LinkedInv(m) && i0 in m.a.socks && m.ba != [] && Addressed(m.ba[0], i0)
    requires s' == m.a.socks[i0] || (!Busy(s'.e) && !s'.e.linked && s' == m.a.socks[i0].(e := s'.e))
    requires forall j :: !Mates(m.a, m.b, i0, j)
    ensures var m' := Net(Put(m.a, i0, s'), m.b, m.ab, m.ba[1..]);
            LinkedInv(m') && Simulates(m, m')
  {
    PutMates(m.a, m.b, i0, s');
    QuietSocks(m.a, m.b, i0, s');
    TouchSocksB(m.a, Put(m.a, i0, s'), m.b);
    QuietWires(m.a, m.b, m.ab, m.ba, i0, s');
    assert forall i :: i != i0 ==> To(m.ba, i) == To(m.ba[1..], i);
  }

  lemma UnmatedTakesClse(a: Node, b: Node, p: Packet, k: nat, st: WriteEnd)
    requires SockInv(a, b) && SentOk(b, a, p) && !p.POpen?
    requires p.PWrte? ==> WriteOutcome(|p.data|, k, st)
    requires forall j :: !Mates(a, b, p.arg1, j)
    ensures p.PClse? && p.arg1 in a.socks
    ensures var (a', out) := Handle(a, p, false, k, st);
            && p.arg1 in a'.socks && a' == Put(a, p.arg1, a'.socks[p.arg1]) && out == []
            && var s, s' := a.socks[p.arg1], a'.socks[p.arg1];
               s' == s || (!Busy(s'.e) && !s'.e.linked && s' == s.(e := s'.e))
  {
    if !p.PClse? { MatesFlip(b, a, p.arg0, p.arg1); }
    assert !Busy(a.socks[p.arg1].e);
    assert a.socks[p.arg1 := a.socks[p.arg1]] == a.socks;
  }

  lemma QuietSocks(a: Node, b: Node, i0: nat, s': Sock)
    requires SockInv(a, b) && i0 in a.socks
    requires s' == a.socks[i0] || (!Busy(s'.e) && !s'.e.linked && s' == a.socks[i0].(e := s'.e))
    requires SameMates(a, Put(a, i0, s'), b)
    ensures SockInv(Put(a, i0, s'), b)
  {
    var a' := Put(a, i0, s');
    forall i | i in a'.socks && Busy(a'.socks[i].e)
      ensures exists j :: Mates(a', b, i, j)
    {
      var j :| Mates(a, b, i, j);
      assert Mates(a', b, i, j);
    }
  }

  lemma QuietWires(a: Node, b: Node, ab: seq<Packet>, ba: seq<Packet>, i0: nat, s': Sock)
    requires WireInv(a, b, ab, ba) && WireInv(b, a, ba, ab)
    requires i0 in a.socks && ba != [] && Addressed(ba[0], i0)
    requires SameMates(a, Put(a, i0, s'), b)
    ensures WireInv(Put(a, i0, s'), b, ab, ba[1..]) && WireInv(b, Put(a, i0, s'), ba[1..], ab)
  {
    var a' := Put(a, i0, s');
    forall k | 0 <= k < |ab| ensures SentOk(a', b, ab[k]) { assert SentOk(a, b, ab[k]); }
    forall k | 0 <= k < |ab| && ab[k].POpen? ensures OpenOk(a', b, ba[1..], ab[k].arg0) {
      assert OpenOk(a, b, ba, ab[k].arg0);
    }
    forall k | 0 <= k < |ba[1..]| ensures SentOk(b, a', ba[1..][k]) { assert SentOk(b, a, ba[k + 1]); }
    forall k | 0 <= k < |ba[1..]| && ba[1..][k].POpen? ensures OpenOk(b, a', ab, ba[1..][k].arg0) {
      assert OpenOk(b, a, ab, ba[k + 1].arg0);
    }
  }

  lemma RefuseKeeps(m: Net)
    requires NetInv(m) && m.ba != [] && m.ba[0].POpen?
    ensures var m' := Net(m.a, m.b, m.ab + [PClse(0, m.ba[0].arg0)], m.ba[1..]);
            LinkedInv(m') && Simulates(m, m')
  {
    var r := m.ba[0].arg0;
    var ps := [PClse(0, r)];
    assert OpenOk(m.b, m.a, m.ab, r);
    RefuseWires(m.a, m.b, m.ab, m.ba);
    forall i, j | Mates(m.a, m.b, i, j)
      ensures View(Net(m.a, m.b, m.ab + ps, m.ba[1..]), i, j) == View(m, i, j)
    {
      MatesFlip(m.a, m.b, i, j);
      assert j != r;
      ToAppend(m.ab, ps, j);
      NotTo(ps, j);
    }
  }

  lemma RefuseWires(a: Node, b: Node, ab: seq<Packet>, ba: seq<Packet>)
    requires WireInv(a, b, ab, ba) && WireInv(b, a, ba, ab)
    requires ba != [] && ba[0].POpen?
    ensures WireInv(a, b, ab + [PClse(0, ba[0].arg0)], ba[1..])
    ensures WireInv(b, a, ba[1..], ab + [PClse(0, ba[0].arg0)])
  {
    var r := ba[0].arg0;
    assert OpenOk(b, a, ab, r);
    forall k | 0 <= k < |ab| && ab[k].POpen? ensures OpenOk(a, b, ba[1..], ab[k].arg0) {
      assert OpenOk(a, b, ba, ab[k].arg0);
    }
    forall k | 0 <= k < |ba[1..]| ensures SentOk(b, a, ba[1..][k]) { assert SentOk(b, a, ba[k + 1]); }
    forall k | 0 <= k < |ba[1..]| && ba[1..][k].POpen?
      ensures OpenOk(b, a, ab + [PClse(0, r)], ba[1..][k].arg0)
    {
      assert OpenOk(b, a, ab, ba[k + 1].arg0);
      assert ba[k + 1] != ba[0];
    }
  }

  /** A new socket is nobody's mate unless it was created for an OPEN. */
  lemma AddMates(a: Node, b: Node, s': Sock)
    requires SockInv(a, b) && SockInv(b, a)
    ensures var a' := Node(a.next + 1, a.socks[a.next := s']);
            && (forall i, j :: i != a.next ==> (Mates(a', b, i, j) <==> Mates(a, b, i, j)))
            && (forall i, j :: i != a.next ==> (Mates(b, a', j, i) <==> Mates(b, a, j, i)))
            && (forall j :: Mates(a', b, a.next, j) ==> !s'.opener && s'.remote == Bound(j))
            && (forall j :: Mates(b, a', j, a.next) <==> Mates(a', b, a.next, j))
            && (forall i, j :: Mates(a, b, i, j) ==> i != a.next)
            && (forall i, j :: Mates(b, a, j, i) ==> i != a.next)
  {
    var a' := Node(a.next + 1, a.socks[a.next := s']);
    forall j ensures Mates(b, a', j, a.next) <==> Mates(a', b, a.next, j) {
      MatesFlip(a', b, a.next, j);
    }
  }

  function Add(n: Node, s: Sock): Node { Node(n.next + 1, n.socks[n.next := s]) }

  /** A fresh id is not mentioned on the wire. */
  lemma FreshId(a: Node, b: Node, ba: seq<Packet>, ab: seq<Packet>)
    requires SockInv(a, b) && WireInv(b, a, ba, ab)
    ensures forall k :: 0 <= k < |ba| ==> !Addressed(ba[k], a.next)
  {
    forall k | 0 <= k < |ba| ensures !Addressed(ba[k], a.next) {
      assert SentOk(b, a, ba[k]);
    }
  }

  lemma AddSocksB(a: Node, b: Node, s': Sock)
    requires SockInv(a, b) && SockInv(b, a)
    requires forall j, i :: Mates(b, Add(a, s'), j, a.next) && Mates(b, a, j, i) ==> false
    ensures SockInv(b, Add(a, s'))
  {
    var a' := Add(a, s');
    AddMates(a, b, s');
    forall j | j in b.socks && Busy(b.socks[j].e)
      ensures exists i :: Mates(b, a', j, i)
    {
      var i :| Mates(b, a, j, i);
      assert Mates(b, a', j, i);
    }
  }

  lemma DialSocks(a: Node, b: Node)
    requires SockInv(a, b) && SockInv(b, a)
    ensures SockInv(Add(a, Sock(FRESH, true, Unbound)), b)
  {
    var a' := Add(a, Sock(FRESH, true, Unbound));
    AddMates(a, b, Sock(FRESH, true, Unbound));
    DialerIsAlone(a, b);
    forall i, j, j' | Mates(a', b, i, j) && Mates(a', b, i, j') ensures j == j' {
      assert i != a.next;
      assert Mates(a, b, i, j) && Mates(a, b, i, j');
    }
    forall i | i in a'.socks && Busy(a'.socks[i].e)
      ensures exists j :: Mates(a', b, i, j)
    {
      var j :| Mates(a, b, i, j);
      assert Mates(a', b, i, j);
    }
  }

  /** Nobody is the mate of a socket that has just been made to dial. */
  lemma DialerIsAlone(a: Node, b: Node)
    requires SockInv(a, b) && SockInv(b, a)
    ensures forall j :: !Mates(Add(a, Sock(FRESH, true, Unbound)), b, a.next, j)
  {
    AddMates(a, b, Sock(FRESH, true, Unbound));
  }

  lemma DialWires(a: Node, b: Node, ab: seq<Packet>, ba: seq<Packet>)
    requires SockInv(a, b) && SockInv(b, a)
    requires WireInv(a, b, ab, ba) && WireInv(b, a, ba, ab)
    ensures var a' := Add(a, Sock(FRESH, true, Unbound));
            WireInv(a', b, ab + [POpen(a.next)], ba) && WireInv(b, a', ba, ab + [POpen(a.next)])
  {
    var a' := Add(a, Sock(FRESH, true, Unbound));
    var ab' := ab + [POpen(a.next)];
    AddMates(a, b, Sock(FRESH, true, Unbound));
    FreshId(a, b, ba, ab);
    forall k | 0 <= k < |ab| ensures SentOk(a', b, ab[k]) { assert SentOk(a, b, ab[k]); }
    forall k | 0 <= k < |ab'| && ab'[k].POpen? ensures OpenOk(a', b, ba, ab'[k].arg0) {
      if k < |ab| { assert OpenOk(a, b, ba, ab[k].arg0); }
    }
    forall k | 0 <= k < |ba| ensures SentOk(b, a', ba[k]) { assert SentOk(b, a, ba[k]); }
    forall k | 0 <= k < |ba| && ba[k].POpen? ensures OpenOk(b, a', ab', ba[k].arg0) {
      assert OpenOk(b, a, ab, ba[k].arg0);
    }
  }

  lemma DialKeeps(m: Net)
    requires LinkedInv(m)
    ensures var m' := NetStep(m, NetLabel(A, Dial)); LinkedInv(m') && Simulates(m, m')
  {
    var m' := NetStep(m, NetLabel(A, Dial));
    DialSocks(m.a, m.b);
    AddMates(m.a, m.b, Sock(FRESH, true, Unbound));
    AddSocksB(m.a, m.b, Sock(FRESH, true, Unbound));
    DialWires(m.a, m.b, m.ab, m.ba);
    forall i, j | Mates(m.a, m.b, i, j) ensures View(m', i, j) == View(m, i, j) {
      ToAppend(m.ab, [POpen(m.a.next)], j);
      NotTo([POpen(m.a.next)], j);
    }
  }

  lemma AcceptSocks(a: Node, b: Node, r: nat)
    requires SockInv(a, b) && SockInv(b, a)
    requires r in b.socks && b.socks[r] == Sock(FRESH, true, Unbound) && (forall i :: !Mates(b, a, r, i))
    ensures var a' := Add(a, Sock(FRESH.(linked := true, rd := true), false, Bound(r)));
            SockInv(a', b) && Mates(a', b, a.next, r)
  {
    var s' := Sock(FRESH.(linked := true, rd := true), false, Bound(r));
    var a' := Add(a, s');
    AddMates(a, b, s');
    assert Mates(a', b, a.next, r);
    forall i | i in a'.socks && Busy(a'.socks[i].e)
      ensures exists j :: Mates(a', b, i, j)
    {
      if i != a.next {
        var j :| Mates(a, b, i, j);
        assert Mates(a', b, i, j);
      }
    }
  }

  lemma AcceptWires(a: Node, b: Node, ab: seq<Packet>, ba: seq<Packet>)
    requires SockInv(a, b) && SockInv(b, a)
    requires WireInv(a, b, ab, ba) && WireInv(b, a, ba, ab)
    requires ba != [] && ba[0].POpen?
    ensures var r := ba[0].arg0;
            var a' := Add(a, Sock(FRESH.(linked := true, rd := true), false, Bound(r)));
            && WireInv(a', b, ab + [POkay(a.next, r)], ba[1..])
            && WireInv(b, a', ba[1..], ab + [POkay(a.next, r)])
  {
    var r := ba[0].arg0;
    var s' := Sock(FRESH.(linked := true, rd := true), false, Bound(r));
    var a' := Add(a, s');
    var ab' := ab + [POkay(a.next, r)];
    assert OpenOk(b, a, ab, r);
    AddMates(a, b, s');
    forall k | 0 <= k < |ab'| ensures SentOk(a', b, ab'[k]) {
      if k < |ab| { assert SentOk(a, b, ab[k]); }
    }
    forall k | 0 <= k < |ab'| && ab'[k].POpen? ensures OpenOk(a', b, ba[1..], ab'[k].arg0) {
      assert OpenOk(a, b, ba, ab[k].arg0);
    }
    forall k | 0 <= k < |ba[1..]| ensures SentOk(b, a', ba[1..][k]) { assert SentOk(b, a, ba[k + 1]); }
    forall k | 0 <= k < |ba[1..]| && ba[1..][k].POpen? ensures OpenOk(b, a', ab', ba[1..][k].arg0) {
      assert OpenOk(b, a, ab, ba[k + 1].arg0);
      assert ba[k + 1] != ba[0];
    }
  }

  lemma AcceptOthers(m: Net, r: nat, s': Sock, i: nat, j: nat)
    requires SockInv(m.a, m.b) && Mates(m.a, m.b, i, j)
    requires m.ba != [] && m.ba[0] == POpen(r) && OpenOk(m.b, m.a, m.ab, r)
    ensures i != m.a.next
    ensures View(Net(Add(m.a, s'), m.b, m.ab + [POkay(m.a.next, r)], m.ba[1..]), i, j) == View(m, i, j)
  {
    MatesFlip(m.a, m.b, i, j);
    ToAppend(m.ab, [POkay(m.a.next, r)], j);
    NotTo([POkay(m.a.next, r)], j);
  }

  lemma AcceptBegins(m: Net, r: nat)
    requires SockInv(m.a, m.b) && WireInv(m.b, m.a, m.ba, m.ab)
    requires m.ba != [] && m.ba[0] == POpen(r) && OpenOk(m.b, m.a, m.ab, r)
    ensures var a' := Add(m.a, Sock(FRESH.(linked := true, rd := true), false, Bound(r)));
            var m' := Net(a', m.b, m.ab + [POkay(m.a.next, r)], m.ba[1..]);
            Begins(View(m', m.a.next, r))
  {
    var ps := [POkay(m.a.next, r)];
    FreshId(m.a, m.b, m.ba, m.ab);
    NotTo(m.ba[1..], m.a.next);
    NotTo(m.ab, r);
    ToAppend(m.ab, ps, r);
    assert To(ps, r) == [Okay] + To(ps[1..], r);
  }

  lemma AcceptKeeps(m: Net)
    requires LinkedInv(m) && m.ba != [] && m.ba[0].POpen?
    ensures var r := m.ba[0].arg0;
            var a' := Add(m.a, Sock(FRESH.(linked := true, rd := true), false, Bound(r)));
            var m' := Net(a', m.b, m.ab + [POkay(m.a.next, r)], m.ba[1..]);
            LinkedInv(m') && Simulates(m, m')
  {
    var r := m.ba[0].arg0;
    var s' := Sock(FRESH.(linked := true, rd := true), false, Bound(r));
    var m' := Net(Add(m.a, s'), m.b, m.ab + [POkay(m.a.next, r)], m.ba[1..]);
    assert OpenOk(m.b, m.a, m.ab, r);
    AddMates(m.a, m.b, s');
    AcceptSocks(m.a, m.b, r);
    AddSocksB(m.a, m.b, s');
    AcceptWires(m.a, m.b, m.ab, m.ba);
    AcceptBegins(m, r);
    forall i, j | Mates(m.a, m.b, i, j)
      ensures Mates(m'.a, m'.b, i, j) && Follows(View(m, i, j), View(m', i, j))
    {
      AcceptOthers(m, r, s', i, j);
    }
  }

  // ---------------------------------------------------------------- runs

  lemma StepAKeeps(m: Net, act: NodeAct)
    requires NetInv(m) && NodeCan(m.a, m.ba, act)
    ensures var m' := NetStep(m, NetLabel(A, act)); LinkedInv(m') && Simulates(m, m')
  {
    match act
    case Dial => DialKeeps(m);
    case Event(id, a) => EventKeeps(m, id, a);
    case Take(accept, k, st) =>
      var p := m.ba[0];
      if p.POpen? {
        if accept { AcceptKeeps(m); } else { RefuseKeeps(m); }
      } else {
        assert NodeCan(m.a, m.ba, Take(false, k, st));
        if j0 :| Mates(m.a, m.b, p.arg1, j0) {
          if Found(m.a, p.arg1) { DeliverMated(m, k, st, j0); } else { DropMated(m, k, st, j0); }
        } else {
          TakeUnmated(m, k, st);
        }
      }
  }

  lemma ViewFlip(m: Net, i: nat, j: nat)
    requires Mates(m.a, m.b, i, j)
    ensures Mates(m.b, m.a, j, i) && View(Flip(m), j, i) == Swap(View(m, i, j))
  {
    MatesFlip(m.a, m.b, i, j);
  }

  lemma NetInvFlip(m: Net)
    requires NetInv(m)
    ensures NetInv(Flip(m))
  {
    forall i, j | Mates(m.b, m.a, j, i) ensures Inv(View(Flip(m), j, i)) {
      MatesFlip(m.a, m.b, i, j);
      ViewFlip(m, i, j);
    }
  }

  lemma FollowsSwap(v: Stream, v': Stream)
    requires Follows(v, v')
    ensures Follows(Swap(v), Swap(v'))
  {
    if v' != v {
      var l :| CanStep(v, l) && Step(v, l) == v';
      SwapStep(v, l);
    }
  }

  lemma SimulatesFlip(m: Net, m': Net)
    requires Simulates(m, m')
    ensures Simulates(Flip(m), Flip(m'))
  {
    forall i, j | Mates(m.b, m.a, j, i)
      ensures Mates(m'.b, m'.a, j, i) && Follows(View(Flip(m), j, i), View(Flip(m'), j, i))
    {
      MatesFlip(m.a, m.b, i, j);
      ViewFlip(m, i, j);
      ViewFlip(m', i, j);
      FollowsSwap(View(m, i, j), View(m', i, j));
    }
    forall i, j | Mates(m'.b, m'.a, j, i) && !Mates(m.b, m.a, j, i) ensures Begins(View(Flip(m'), j, i)) {
      MatesFlip(m.a, m.b, i, j);
      MatesFlip(m'.a, m'.b, i, j);
      ViewFlip(m', i, j);
      assert Begins(View(m', i, j));
    }
  }

  /** One step of the multiplexer is, for each stream, one step or none; and the invariant of
      every stream holds again. */
  lemma NetStepSimulates(m: Net, l: NetLabel)
    requires NetInv(m) && NetCan(m, l)
    ensures NetInv(NetStep(m, l)) && Simulates(m, NetStep(m, l))
  {
    var m' := NetStep(m, l);
    if l.side == A {
      StepAKeeps(m, l.act);
    } else {
      NetInvFlip(m);
      StepAKeeps(Flip(m), l.act);
      SimulatesFlip(Flip(m), Flip(m'));
    }
    forall i, j | Mates(m'.a, m'.b, i, j) ensures Inv(View(m', i, j)) {
      if Mates(m.a, m.b, i, j) {
        FollowsKeeps(View(m, i, j), View(m', i, j));
      } else {
        BeginsInv(View(m', i, j));
      }
    }
  }

  lemma FollowsKeeps(v: Stream, v': Stream)
    requires Inv(v) && Follows(v, v')
    ensures Inv(v')
  {
    if v' != v {
      var l :| CanStep(v, l) && Step(v, l) == v';
      StepKeeps(v, l);
    }
  }

  lemma BeginsInv(v: Stream)
    requires Begins(v)
    ensures Inv(v)
  {
    if Opened(v) { OpenedInv(v); } else { OpenedInv(Swap(v)); }
  }

  // ---------------------------------------------------------------- what every run guarantees

  /** `v` is a state that a stream can reach on its own. */
  ghost predicate IsStreamRun(v: Stream)
  {
    exists s0, labels :: Begins(s0) && Run(s0, labels, v)
  }

  lemma {:induction false} RunSnoc(s0: Stream, labels: seq<Label>, v: Stream, l: Label)
    requires Run(s0, labels, v) && CanStep(v, l)
    ensures Run(s0, labels + [l], Step(v, l))
    decreases |labels|
  {
    if labels != [] {
      RunSnoc(Step(s0, labels[0]), labels[1..], v, l);
      assert (labels + [l])[1..] == labels[1..] + [l];
    }
  }

  lemma FollowsRun(v: Stream, v': Stream)
    requires IsStreamRun(v) && Follows(v, v')
    ensures IsStreamRun(v')
  {
    if v' != v {
      var s0, labels :| Begins(s0) && Run(s0, labels, v);
      var l :| CanStep(v, l) && Step(v, l) == v';
      RunSnoc(s0, labels, v, l);
    }
  }

  ghost predicate AllStreamRuns(m: Net)
  {
    forall i, j :: Mates(m.a, m.b, i, j) ==> IsStreamRun(View(m, i, j))
  }

  lemma {:induction false} NetRunKeeps(m: Net, labels: seq<NetLabel>, m': Net)
    requires NetInv(m) && AllStreamRuns(m) && NetRun(m, labels, m')
    ensures NetInv(m') && AllStreamRuns(m')
    decreases |labels|
  {
    if labels != [] {
      var m1 := NetStep(m, labels[0]);
      NetStepSimulates(m, labels[0]);
      forall i, j | Mates(m1.a, m1.b, i, j) ensures IsStreamRun(View(m1, i, j)) {
        var v := View(m1, i, j);
        if Mates(m.a, m.b, i, j) {
          FollowsRun(View(m, i, j), v);
        } else {
          assert Begins(v) && Run(v, [], v);
        }
      }
      NetRunKeeps(m1, labels[1..], m');
    }
  }

  /** Multiplexing is transparent: in every run of the two nodes, the view of each connected pair
      of sockets is a state of a single stream reached by a run of that stream alone. */
  lemma MultiplexingIsTransparent(labels: seq<NetLabel>, m: Net, i: nat, j: nat)
    requires NetRun(START, labels, m) && Mates(m.a, m.b, i, j)
    ensures IsStreamRun(View(m, i, j))
  {
    NetRunKeeps(START, labels, m);
  }

  /** So no byte goes astray between streams: with any number of streams opened, used and closed
      by both nodes in any order, each pair conserves its bytes, keeps its credit, and closes
      gracefully. */
  lemma StreamsDoNotInterfere(labels: seq<NetLabel>, m: Net, i: nat, j: nat)
    requires NetRun(START, labels, m) && Mates(m.a, m.b, i, j)
    ensures Healthy(View(m, i, j))
  {
    NetRunKeeps(START, labels, m);
    InvHealthy(View(m, i, j));
  }

  /** A socket has at most one mate, at either node; ids are positive and below the counter. */
  lemma MatesAreUnique(labels: seq<NetLabel>, m: Net)
    requires NetRun(START, labels, m)
    ensures forall i, j, j' :: Mates(m.a, m.b, i, j) && Mates(m.a, m.b, i, j') ==> j == j'
    ensures forall i, i', j :: Mates(m.a, m.b, i, j) && Mates(m.a, m.b, i', j) ==> i == i'
    ensures forall i :: i in m.a.socks ==> 0 < i < m.a.next
    ensures forall j :: j in m.b.socks ==> 0 < j < m.b.next
  {
    NetRunKeeps(START, labels, m);
    forall i, i', j | Mates(m.a, m.b, i, j) && Mates(m.a, m.b, i', j) ensures i == i' {
      MatesFlip(m.a, m.b, i, j);
      MatesFlip(m.a, m.b, i', j);
    }
  }

  /** A socket with a pending descriptor event has its remote socket: the event function never
      calls through a missing peer. */
  lemma EventsFindTheirPeer(labels: seq<NetLabel>, m: Net, id: nat)
    requires NetRun(START, labels, m) && id in m.a.socks
    requires m.a.socks[id].e.wr || m.a.socks[id].e.rd
    ensures var s := m.a.socks[id];
            && s.e.phase != Gone
            && (s.e.phase == Live ==> s.e.linked && s.remote.Bound?)
  {
    NetRunKeeps(START, labels, m);
    assert Busy(m.a.socks[id].e);
    var j :| Mates(m.a, m.b, id, j);
    assert Inv(View(m, id, j));
  }

  // ---------------------------------------------------------------- a stream is opened and used

  /** One node dials, the other accepts and answers, and the first learns who its peer is. */
  lemma ThreeSteps() returns (m: Net)
    ensures NetRun(START, [NetLabel(A, Dial), NetLabel(B, Take(true, 0, Done)), NetLabel(A, Take(false, 0, Done))], m)
    ensures m.a == Node(2, map[1 := Sock(FRESH.(linked := true, rd := true), true, Bound(1))]) && m.ab == [] && m.ba == []
    ensures m.b == Node(2, map[1 := Sock(FRESH.(linked := true, rd := true), false, Bound(1))])
  {
    var l1, l2, l3 := NetLabel(A, Dial), NetLabel(B, Take(true, 0, Done)), NetLabel(A, Take(false, 0, Done));
    var m1 := NetStep(START, l1);
    assert m1.ab == [POpen(1)];
    var m2 := NetStep(m1, l2);
    assert m2.ba == [POkay(1, 1)] && m2.ab == [];
    m := NetStep(m2, l3);
    assert [l3][1..] == [] && NetRun(m2, [l3], m);
    assert [l2, l3][1..] == [l3] && NetRun(m1, [l2, l3], m);
    assert [l1, l2, l3][1..] == [l2, l3];
  }

  /** What the dialer then reads is written at the other end, and acknowledged. */
  lemma TwoMore(m: Net, data: seq<byte>) returns (m': Net)
    requires 0 < |data| <= MAX_PAYLOAD && m.ab == [] && m.ba == []
    requires m.a == Node(2, map[1 := Sock(FRESH.(linked := true, rd := true), true, Bound(1))])
    requires m.b == Node(2, map[1 := Sock(FRESH.(linked := true, rd := true), false, Bound(1))])
    ensures NetRun(m, [NetLabel(A, Event(1, Readable(data, false))), NetLabel(B, Take(false, |data|, Done))], m')
    ensures 1 in m'.b.socks && m'.b.socks[1].e.written == data && m'.ab == [] && m'.ba == [POkay(1, 1)]
  {
    var k, l := NetLabel(A, Event(1, Readable(data, false))), NetLabel(B, Take(false, |data|, Done));
    var m1 := NetStep(m, k);
    var o := Act1(m.a.socks[1].e, [], Readable(data, false));
    assert o.out == [Wrte(data)] && [Wrte(data)][1..] == [];
    assert Wrap(1, Bound(1), o.out) == [PWrte(1, 1, data)];
    assert m1.ab == [] + [PWrte(1, 1, data)] == [PWrte(1, 1, data)];
    m' := NetStep(m1, l);
    assert [] + data == data && data[..|data|] == data && [] + [Okay] == [Okay] && [Okay][1..] == [];
    assert [l][1..] == [] && NetRun(m1, [l], m');
    assert [k, l][1..] == [l];
  }

  lemma {:induction false} NetRunConcat(m: Net, x: seq<NetLabel>, n: Net, y: seq<NetLabel>, m': Net)
    requires NetRun(m, x, n) && NetRun(n, y, m')
    ensures NetRun(m, x + y, m')
    decreases |x|
  {
    if x == [] {
      assert x + y == y;
    } else {
      NetRunConcat(NetStep(m, x[0]), x[1..], n, y, m');
      assert (x + y)[1..] == x[1..] + y;
    }
  }

  /** A run from two fresh nodes: a stream is opened, and the first bytes read at one end are written at the
      other. */
  lemma FirstBytesArrive(data: seq<byte>)
    requires 0 < |data| <= MAX_PAYLOAD
    ensures exists labels, m :: NetRun(START, labels, m) && 1 in m.b.socks && m.b.socks[1].e.written == data
  {
    var m := ThreeSteps();
    var m' := TwoMore(m, data);
    var x := [NetLabel(A, Dial), NetLabel(B, Take(true, 0, Done)), NetLabel(A, Take(false, 0, Done))];
    var y := [NetLabel(A, Event(1, Readable(data, false))), NetLabel(B, Take(false, |data|, Done))];
    NetRunConcat(START, x, m, y, m');
  }

  /** A node that refuses an OPEN says so to the socket that asked, and a packet for nobody is dropped. */
  lemma RefusedOrLost(m: Net, k: nat, st: WriteEnd)
    requires m.ab != [] && NodeCan(m.b, m.ab, Take(false, k, st))
    ensures var m' := NetStep(m, NetLabel(B, Take(false, k, st)));
            && (m.ab[0].POpen? ==>
                  m'.b == m.b && To(m'.ba, m.ab[0].arg0) == To(m.ba, m.ab[0].arg0) + [Clse])
            && (!m.ab[0].POpen? && !Found(m.b, m.ab[0].arg1) ==> m'.b == m.b && m'.ba == m.ba)
  {
    var m' := NetStep(m, NetLabel(B, Take(false, k, st)));
    if m.ab[0].POpen? {
      var p := PClse(0, m.ab[0].arg0);
      ToAppend(m.ba, [p], m.ab[0].arg0);
      assert [p][1..] == [] && [Clse] + [] == [Clse];
    }
  }
}
