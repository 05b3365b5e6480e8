/** Two linked ends of one adb stream, joined by two FIFO channels.  What holds in every state
    that any interleaving of packet deliveries and descriptor events can reach: no byte is lost,
    duplicated or reordered, one credit circulates per direction, and closing terminates. */
module Streams {
  import opened Bytes
  import opened Endpoint

  /** An action of one end: take the next message, or serve a descriptor event. */
  datatype Act =
    | Recv(k: nat, st: WriteEnd)
    | Writable(k: nat, st: WriteEnd)
    | Readable(data: seq<byte>, eof: bool)

  /** An end with its incoming channel, after an action, and the messages it emitted. */
  datatype Outcome = Outcome(e: End, inp: seq<Msg>, out: seq<Msg>)

  /** Write events need WRITE interest.  A live end reads data only under READ interest; a probe for end of
      file (the exit of a subprocess) may come at any time on an established stream, and a closing end may
      be called for a READ that was pending already. */
  ghost predicate Enabled(e: End, inp: seq<Msg>, act: Act)
  {
    match act
    case Recv(k, st) =>
      inp != [] && (inp[0].Wrte? ==> WriteOutcome(|inp[0].data|, k, st))
    case Writable(k, st) =>
      e.phase != Gone && e.wr && WriteOutcome(|Flat(e.queue)|, k, st)
    case Readable(data, eof) =>
      && e.phase != Gone
      && |data| <= MAX_PAYLOAD
      && (e.rd || e.phase == Closing || (data == [] && e.linked))
  }

  ghost function Act1(e: End, inp: seq<Msg>, act: Act): (o: Outcome)
    requires Enabled(e, inp, act)
  {
    match act
    case Recv(k, st) => var m := Receive(e, inp[0], k, st); Outcome(m.e, inp[1..], m.out)
    case Writable(k, st) => var m := OnWritable(e, k, st); Outcome(m.e, inp, m.out)
    case Readable(data, eof) => var m := OnReadable(e, data, eof); Outcome(m.e, inp, m.out)
  }

  datatype Stream = Stream(a: End, b: End, ab: seq<Msg>, ba: seq<Msg>)

  datatype Side = A | B

  datatype Label = Label(side: Side, act: Act)

  ghost predicate CanStep(s: Stream, l: Label)
  {
    if l.side == A then Enabled(s.a, s.ba, l.act) else Enabled(s.b, s.ab, l.act)
  }

  ghost function Step(s: Stream, l: Label): (s': Stream)
    requires CanStep(s, l)
  {
    if l.side == A then
      var o := Act1(s.a, s.ba, l.act); Stream(o.e, s.b, s.ab + o.out, o.inp)
    else
      var o := Act1(s.b, s.ab, l.act); Stream(s.a, o.e, o.inp, s.ba + o.out)
  }

  function Swap(s: Stream): Stream { Stream(s.b, s.a, s.ba, s.ab) }

  /** The stream as the A_OPEN handler of end `b` leaves it: `b` is linked and listens to its
      descriptor, the OKAY that will link `a` is on its way. */
  ghost predicate Opened(s: Stream)
  {
    s == Stream(FRESH, FRESH.(linked := true, rd := true), [], [Okay])
  }

  /** `s'` is reached from `s` by these labels. */
  ghost predicate Run(s: Stream, labels: seq<Label>, s': Stream)
    decreases |labels|
  {
    if labels == [] then s' == s
    else CanStep(s, labels[0]) && Run(Step(s, labels[0]), labels[1..], s')
  }

  // ---------------------------------------------------------------- measures of a channel

  function Count(b: bool): nat { if b then 1 else 0 }

  function Wrtes(c: seq<Msg>): nat { if c == [] then 0 else Count(c[0].Wrte?) + Wrtes(c[1..]) }

  function Okays(c: seq<Msg>): nat { if c == [] then 0 else Count(c[0].Okay?) + Okays(c[1..]) }

  function Carried(m: Msg): seq<byte> { if m.Wrte? then m.data else [] }

  function Payload(c: seq<Msg>): seq<byte> { if c == [] then [] else Carried(c[0]) + Payload(c[1..]) }

  lemma {:induction false} WrtesAppend(c: seq<Msg>, d: seq<Msg>)
    ensures Wrtes(c + d) == Wrtes(c) + Wrtes(d)
  {
    if c == [] {
      assert c + d == d;
    } else {
      WrtesAppend(c[1..], d);
      assert (c + d)[1..] == c[1..] + d;
    }
  }

  lemma {:induction false} OkaysAppend(c: seq<Msg>, d: seq<Msg>)
    ensures Okays(c + d) == Okays(c) + Okays(d)
  {
    if c == [] {
      assert c + d == d;
    } else {
      OkaysAppend(c[1..], d);
      assert (c + d)[1..] == c[1..] + d;
    }
  }

  lemma {:induction false} PayloadAppend(c: seq<Msg>, d: seq<Msg>)
    ensures Payload(c + d) == Payload(c) + Payload(d)
  {
    if c == [] {
      assert c + d == d && [] + Payload(d) == Payload(d);
    } else {
      PayloadAppend(c[1..], d);
      assert (c + d)[1..] == c[1..] + d && (c + d)[0] == c[0];
      Assoc(Carried(c[0]), Payload(c[1..]), Payload(d));
    }
  }

  lemma Assoc(x: seq<byte>, y: seq<byte>, z: seq<byte>)
    ensures x + (y + z) == x + y + z
  {
  }

  // ---------------------------------------------------------------- the invariant

  /** The bytes end `y` has taken off the wire, written or still queued. */
  function Taken(y: End): seq<byte> { y.written + Flat(y.queue) }

  /** The four places where the credit of the direction x -> y can be. */
  function Credit(x: End, y: End, fwd: seq<Msg>, back: seq<Msg>): nat
  {
    Count(x.rd) + Wrtes(fwd) + Count(y.queue != []) + Okays(back)
  }

  /** What a single end keeps by itself. */
  ghost predicate EndInv(e: End)
  {
    && (e.wr <==> e.queue != [])
    && |e.queue| <= 1
    && (e.phase == Closing ==> e.queue != [])
    && (e.phase == Gone ==> e.queue == [])
    && (e.queue != [] ==> e.queue[0] != [])
    && (e.phase == Live <==> e.cause == Alive)
    && (e.phase != Live ==> !e.linked && !e.rd)
    && e.clses == Count(e.phase != Live)
  }

  /** CLSE is the last thing an end says, and is in flight as long as the other end is live. */
  ghost predicate ClseInv(x: End, y: End, fwd: seq<Msg>)
  {
    && (forall i :: 0 <= i < |fwd| - 1 ==> fwd[i] != Clse)
    && (x.phase == Live ==> fwd == [] || fwd[|fwd| - 1] != Clse)
    && (x.phase != Live && y.phase == Live ==> fwd != [] && fwd[|fwd| - 1] == Clse)
  }

  /** An end that is not linked yet waits for the OKAY at the head of its channel. */
  ghost predicate LinkInv(x: End, back: seq<Msg>)
  {
    x.phase == Live && !x.linked ==>
      back != [] && back[0] == Okay && !x.rd && x.queue == []
  }

  ghost predicate DataInv(x: End, y: End, fwd: seq<Msg>)
  {
    && (y.phase == Live ==> x.sent == Taken(y) + Payload(fwd))
    && (y.phase != Live ==> Taken(y) <= x.sent)
    && (y.cause == ByPeer ==> x.phase != Live && x.sent == Taken(y))
    && (y.cause == CutShort ==> x.phase != Live && y.phase == Gone && |y.written| < |x.sent|)
  }

  ghost predicate Direction(x: End, y: End, fwd: seq<Msg>, back: seq<Msg>)
  {
    && Credit(x, y, fwd, back) <= 1
    && (x.phase == Live && y.phase == Live ==> Credit(x, y, fwd, back) == 1)
    && ClseInv(x, y, fwd)
    && LinkInv(x, back)
    && DataInv(x, y, fwd)
  }

  ghost predicate Inv(s: Stream)
  {
    && EndInv(s.a) && EndInv(s.b)
    && Direction(s.a, s.b, s.ab, s.ba)
    && Direction(s.b, s.a, s.ba, s.ab)
  }

  /** The invariant as one end sees it: it is `x`, its peer is `y`. */
  ghost predicate Local(x: End, y: End, inp: seq<Msg>, out: seq<Msg>)
  {
    && EndInv(x) && EndInv(y)
    && Direction(x, y, out, inp)
    && Direction(y, x, inp, out)
  }

  lemma FlatSmall(q: seq<seq<byte>>)
    requires |q| <= 1
    ensures Flat(q) == if q == [] then [] else q[0]
  {
  }

  lemma Push(c: seq<Msg>, m: Msg)
    ensures Wrtes(c + [m]) == Wrtes(c) + Count(m.Wrte?)
    ensures Okays(c + [m]) == Okays(c) + Count(m.Okay?)
    ensures Payload(c + [m]) == Payload(c) + (if m.Wrte? then m.data else [])
  {
    WrtesAppend(c, [m]);
    OkaysAppend(c, [m]);
    PayloadAppend(c, [m]);
    assert [m][1..] == [];
  }

  lemma Pop(c: seq<Msg>)
    requires c != []
    ensures Wrtes(c) == Count(c[0].Wrte?) + Wrtes(c[1..]) && Okays(c) == Count(c[0].Okay?) + Okays(c[1..])
    ensures Payload(c) == (if c[0].Wrte? then c[0].data else []) + Payload(c[1..])
  {
  }

  /** Enough for a live, linked end to close: credits at most one, CLSE not said yet, and nothing
      taken off the wire that was not sent. */
  ghost predicate MayClose(x: End, y: End, inp: seq<Msg>, out: seq<Msg>, cause: Cause)
  {
    && x.phase == Live && x.linked && x.clses == 0
    && (x.queue != [] ==> x.queue[0] != []) && |x.queue| <= 1 && (x.wr <==> x.queue != [])
    && Credit(x, y, out, inp) <= 1
    && Credit(y, x, inp, out) <= 1
    && (forall i :: 0 <= i < |inp| - 1 ==> inp[i] != Clse)
    && (y.phase == Live ==> inp == [] || inp[|inp| - 1] != Clse)
    && ClseInv(x, y, out)
    && LinkInv(y, out)
    && DataInv(x, y, out)
    && cause != Alive && cause != CutShort
    && Taken(x) <= y.sent
    && (cause == ByPeer ==> y.phase != Live && Taken(x) == y.sent)
  }

  lemma CloseKeeps(x: End, y: End, inp: seq<Msg>, out: seq<Msg>, cause: Cause)
    requires EndInv(y)
    requires MayClose(x, y, inp, out, cause)
    ensures var m := Close(x, cause); Local(m.e, y, inp, out + m.out)
  {
    var m := Close(x, cause);
    Push(out, Clse);
    assert m.out == [Clse];
    FlatSmall(x.queue);
    assert Taken(m.e) == if x.queue == [] then x.written else Taken(x);
  }

  lemma RecvOkayKeeps(x: End, y: End, inp: seq<Msg>, out: seq<Msg>)
    requires Local(x, y, inp, out)
    requires x.phase == Live && inp != [] && inp[0] == Okay
    ensures Local(x.(linked := true, rd := true), y, inp[1..], out)
  {
    Pop(inp);
    OkayForward(x, y, inp, out);
    OkayBackward(x, y, inp, out);
  }

  lemma OkayForward(x: End, y: End, inp: seq<Msg>, out: seq<Msg>)
    requires Direction(x, y, out, inp) && x.phase == Live && inp != [] && inp[0] == Okay
    ensures Direction(x.(linked := true, rd := true), y, out, inp[1..])
  {
    Pop(inp);
  }

  lemma OkayBackward(x: End, y: End, inp: seq<Msg>, out: seq<Msg>)
    requires Direction(y, x, inp, out) && EndInv(x) && x.phase == Live && inp != [] && inp[0] == Okay
    ensures Direction(y, x.(linked := true, rd := true), inp[1..], out)
  {
    Pop(inp);
    assert Taken(x.(linked := true, rd := true)) == Taken(x);
  }

  lemma RecvClseKeeps(x: End, y: End, inp: seq<Msg>, out: seq<Msg>)
    requires Local(x, y, inp, out)
    requires x.phase == Live && inp != [] && inp[0] == Clse
    ensures var m := Close(x, ByPeer); Local(m.e, y, inp[1..], out + m.out)
  {
    assert inp[1..] == [];
    assert Payload(inp) == [];
    CloseKeeps(x, y, inp[1..], out, ByPeer);
  }

  lemma DropKeeps(x: End, y: End, inp: seq<Msg>, out: seq<Msg>)
    requires Local(x, y, inp, out)
    requires x.phase != Live && inp != []
    ensures Local(x, y, inp[1..], out)
  {
  }

  /** A delivered WRTE finds an empty queue; `k` of its bytes are written at once. */
  lemma WrteArrives(x: End, y: End, inp: seq<Msg>, out: seq<Msg>, k: nat)
    requires Local(x, y, inp, out)
    requires x.phase == Live && inp != [] && inp[0].Wrte? && k <= |inp[0].data|
    ensures x.queue == [] && x.linked && Taken(x) == x.written
    ensures y.sent == x.written + inp[0].data[..k] + inp[0].data[k..] + Payload(inp[1..])
  {
    var data := inp[0].data;
    Pop(inp);
    assert x.queue == [] && x.written + [] == x.written;
    assert y.sent == Taken(x) + Payload(inp);
    SplitData(x.written, data, k, Payload(inp[1..]));
  }

  lemma SplitData(a: seq<byte>, data: seq<byte>, k: nat, b: seq<byte>)
    requires k <= |data|
    ensures a + (data + b) == a + data[..k] + data[k..] + b
  {
    assert data == data[..k] + data[k..];
  }

  lemma WrteDoneKeeps(x: End, y: End, inp: seq<Msg>, out: seq<Msg>)
    requires Local(x, y, inp, out)
    requires x.phase == Live && inp != [] && inp[0].Wrte?
    ensures Local(x.(written := x.written + inp[0].data), y, inp[1..], out + [Okay])
  {
    WrteArrives(x, y, inp, out, |inp[0].data|);
    WrteDoneForward(x, y, inp, out);
    WrteDoneBackward(x, y, inp, out);
  }

  lemma WrteDoneForward(x: End, y: End, inp: seq<Msg>, out: seq<Msg>)
    requires Direction(x, y, out, inp) && x.phase == Live && x.linked && inp != [] && inp[0].Wrte?
    ensures Direction(x.(written := x.written + inp[0].data), y, out + [Okay], inp[1..])
  {
    Push(out, Okay);
    Pop(inp);
    assert Payload(out) + [] == Payload(out);
  }

  lemma WrteDoneBackward(x: End, y: End, inp: seq<Msg>, out: seq<Msg>)
    requires Direction(y, x, inp, out) && EndInv(x) && x.phase == Live && x.queue == [] && inp != [] && inp[0].Wrte?
    requires y.sent == x.written + inp[0].data[..|inp[0].data|] + inp[0].data[|inp[0].data|..] + Payload(inp[1..])
    ensures Direction(y, x.(written := x.written + inp[0].data), inp[1..], out + [Okay])
  {
    WrteDoneData(x, y, inp);
    Push(out, Okay);
    Pop(inp);
  }

  lemma WrteDoneData(x: End, y: End, inp: seq<Msg>)
    requires inp != [] && inp[0].Wrte? && x.queue == []
    requires y.sent == x.written + inp[0].data[..|inp[0].data|] + inp[0].data[|inp[0].data|..] + Payload(inp[1..])
    ensures y.sent == Taken(x.(written := x.written + inp[0].data)) + Payload(inp[1..])
  {
    var data := inp[0].data;
    assert data[..|data|] == data && data[|data|..] == [];
  }

  lemma WrteBrokenKeeps(x: End, y: End, inp: seq<Msg>, out: seq<Msg>, k: nat)
    requires Local(x, y, inp, out)
    requires x.phase == Live && inp != [] && inp[0].Wrte? && k < |inp[0].data|
    ensures var m := Close(x.(written := x.written + inp[0].data[..k]), ByError);
            Local(m.e, y, inp[1..], out + m.out)
  {
    WrteArrives(x, y, inp, out, k);
    CloseKeeps(x.(written := x.written + inp[0].data[..k]), y, inp[1..], out, ByError);
  }

  lemma WrteBlockedKeeps(x: End, y: End, inp: seq<Msg>, out: seq<Msg>, k: nat)
    requires Local(x, y, inp, out)
    requires x.phase == Live && inp != [] && inp[0].Wrte? && k < |inp[0].data|
    ensures Local(x.(written := x.written + inp[0].data[..k], queue := [inp[0].data[k..]], wr := true),
                  y, inp[1..], out)
  {
    WrteArrives(x, y, inp, out, k);
    var x1 := x.(written := x.written + inp[0].data[..k], queue := [inp[0].data[k..]], wr := true);
    FlatSmall(x1.queue);
  }

  lemma RecvWrteKeeps(x: End, y: End, inp: seq<Msg>, out: seq<Msg>, k: nat, st: WriteEnd)
    requires Local(x, y, inp, out)
    requires x.phase == Live && inp != [] && inp[0].Wrte?
    requires WriteOutcome(|inp[0].data|, k, st)
    ensures var m := Receive(x, inp[0], k, st); Local(m.e, y, inp[1..], out + m.out)
  {
    WrteArrives(x, y, inp, out, k);
    assert out + [] == out;
    assert inp[0].data[..|inp[0].data|] == inp[0].data;
    match st
    case Done => WrteDoneKeeps(x, y, inp, out); assert [] + [Okay] == [Okay];
    case Broken => WrteBrokenKeeps(x, y, inp, out, k);
    case Blocked => WrteBlockedKeeps(x, y, inp, out, k);
  }

  lemma RecvKeeps(x: End, y: End, inp: seq<Msg>, out: seq<Msg>, k: nat, st: WriteEnd)
    requires Local(x, y, inp, out)
    requires Enabled(x, inp, Recv(k, st))
    ensures var m := Receive(x, inp[0], k, st); Local(m.e, y, inp[1..], out + m.out)
  {
    assert out + [] == out;
    if x.phase != Live {
      DropKeeps(x, y, inp, out);
    } else {
      match inp[0]
      case Okay => RecvOkayKeeps(x, y, inp, out);
      case Clse => RecvClseKeeps(x, y, inp, out);
      case Wrte(_) => RecvWrteKeeps(x, y, inp, out, k, st);
    }
  }

  /** Writing part of the one queued packet. */
  lemma PartialWriteKeeps(x: End, y: End, inp: seq<Msg>, out: seq<Msg>, k: nat)
    requires Local(x, y, inp, out)
    requires x.queue != [] && k < |x.queue[0]|
    ensures DropBytes(x.queue, k) == [x.queue[0][k..]] && Flat(x.queue) == x.queue[0]
    ensures Local(x.(queue := [x.queue[0][k..]], written := x.written + x.queue[0][..k]),
                  y, inp, out)
  {
    var x1 := x.(queue := [x.queue[0][k..]], written := x.written + x.queue[0][..k]);
    PartOfOne(x.queue, x.written, k);
    assert Taken(x1) == Taken(x);
  }

  /** Part of a backlog of one packet is written. */
  lemma PartOfOne(queue: seq<seq<byte>>, written: seq<byte>, k: nat)
    requires |queue| == 1 && k < |queue[0]|
    ensures DropBytes(queue, k) == [queue[0][k..]] && Flat(queue) == queue[0]
    ensures Flat([queue[0][k..]]) == queue[0][k..]
    ensures written + queue[0][..k] + queue[0][k..] == written + queue[0]
  {
    FlatSmall(queue);
    FlatSmall([queue[0][k..]]);
    assert queue[0] == queue[0][..k] + queue[0][k..] && queue[1..] == [];
  }

  lemma WritableKeeps(x: End, y: End, inp: seq<Msg>, out: seq<Msg>, k: nat, st: WriteEnd)
    requires Local(x, y, inp, out)
    requires Enabled(x, inp, Writable(k, st))
    ensures var m := OnWritable(x, k, st); Local(m.e, y, inp, out + m.out)
  {
    FlatSmall(x.queue);
    if st == Done {
      DrainKeeps(x, y, inp, out);
    } else {
      PartialWriteKeeps(x, y, inp, out, k);
      assert out + [] == out;
      if st == Broken {
        var x1 := x.(queue := [x.queue[0][k..]], written := x.written + x.queue[0][..k]);
        BreakKeeps(x1, y, inp, out);
      }
    }
  }

  lemma DrainKeeps(x: End, y: End, inp: seq<Msg>, out: seq<Msg>)
    requires Local(x, y, inp, out)
    requires x.queue != []
    ensures var m := OnWritable(x, |Flat(x.queue)|, Done); Local(m.e, y, inp, out + m.out)
  {
    FlatSmall(x.queue);
    var q := x.queue[0];
    assert q[..|q|] == q && x.queue[1..] == [];
    assert DropBytes(x.queue, |q|) == [];
    if x.phase == Closing { LastDrainKeeps(x, y, inp, out); } else { LiveDrainKeeps(x, y, inp, out); }
  }

  /** A live end that has written its backlog asks for more. */
  lemma LiveDrainKeeps(x: End, y: End, inp: seq<Msg>, out: seq<Msg>)
    requires Local(x, y, inp, out) && x.phase == Live && x.queue != []
    ensures Local(x.(queue := [], written := x.written + x.queue[0], wr := false), y, inp, out + [Okay])
  {
    FlatSmall(x.queue);
    var x1 := x.(queue := [], written := x.written + x.queue[0], wr := false);
    assert Taken(x1) == Taken(x);
    Push(out, Okay);
  }

  /** A closing end that has written its backlog is gone. */
  lemma LastDrainKeeps(x: End, y: End, inp: seq<Msg>, out: seq<Msg>)
    requires Local(x, y, inp, out) && x.phase == Closing && x.queue != []
    ensures var m := Close(x.(queue := [], written := x.written + x.queue[0]), x.cause);
            Local(m.e, y, inp, out + m.out)
  {
    FlatSmall(x.queue);
    var x1 := x.(queue := [], written := x.written + x.queue[0]);
    assert Taken(x1) == Taken(x) && Taken(Close(x1, x.cause).e) == Taken(x);
    assert out + [] == out;
  }

  lemma BreakKeeps(x: End, y: End, inp: seq<Msg>, out: seq<Msg>)
    requires Local(x, y, inp, out)
    requires x.queue != []
    ensures var m := Close(x, ByError); Local(m.e, y, inp, out + m.out)
  {
    if x.phase == Live {
      assert x.linked;
      CloseKeeps(x, y, inp, out, ByError);
    } else {
      assert out + [] == out;
    }
  }

  lemma ReadableKeeps(x: End, y: End, inp: seq<Msg>, out: seq<Msg>, data: seq<byte>, eof: bool)
    requires Local(x, y, inp, out)
    requires Enabled(x, inp, Readable(data, eof))
    ensures var m := OnReadable(x, data, eof); Local(m.e, y, inp, out + m.out)
  {
    var sends := data != [] && x.linked;
    var x1 := if sends then x.(sent := x.sent + data, rd := false) else x;
    var o1 := if sends then [Wrte(data)] else [];
    if sends { SendKeeps(x, y, inp, out, data); } else { assert out + o1 == out; }
    if eof {
      EofKeeps(x1, y, inp, out + o1);
      assert out + o1 + Close(x1, ByEof).out == out + (o1 + Close(x1, ByEof).out);
    }
  }

  lemma EofKeeps(x: End, y: End, inp: seq<Msg>, out: seq<Msg>)
    requires Local(x, y, inp, out) && x.phase != Gone && (x.phase == Live ==> x.linked)
    ensures var m := Close(x, ByEof); Local(m.e, y, inp, out + m.out)
  {
    if x.phase == Live {
      CloseKeeps(x, y, inp, out, ByEof);
    } else {
      GiveUpKeeps(x, y, inp, out);
      assert out + [] == out;
    }
  }

  lemma SendKeeps(x: End, y: End, inp: seq<Msg>, out: seq<Msg>, data: seq<byte>)
    requires Local(x, y, inp, out)
    requires x.rd
    ensures x.linked
    ensures Local(x.(sent := x.sent + data, rd := false), y, inp, out + [Wrte(data)])
  {
    Push(out, Wrte(data));
    var x1 := x.(sent := x.sent + data, rd := false);
    assert Taken(y) + (Payload(out) + data) == Taken(y) + Payload(out) + data;
  }

  lemma GiveUpKeeps(x: End, y: End, inp: seq<Msg>, out: seq<Msg>)
    requires Local(x, y, inp, out)
    requires x.phase == Closing
    ensures var m := Close(x, ByEof); m.out == [] && Local(m.e, y, inp, out)
  {
  }

  // ---------------------------------------------------------------- runs

  /** Any action of one end, as that end sees it. */
  lemma ActKeeps(x: End, y: End, inp: seq<Msg>, out: seq<Msg>, act: Act)
    requires Local(x, y, inp, out) && Enabled(x, inp, act)
    ensures var o := Act1(x, inp, act); Local(o.e, y, o.inp, out + o.out)
  {
    match act
    case Recv(k, st) => RecvKeeps(x, y, inp, out, k, st);
    case Writable(k, st) => WritableKeeps(x, y, inp, out, k, st);
    case Readable(data, eof) => ReadableKeeps(x, y, inp, out, data, eof);
  }

  lemma StepKeeps(s: Stream, l: Label)
    requires Inv(s) && CanStep(s, l)
    ensures Inv(Step(s, l))
  {
    if l.side == A {
      ActKeeps(s.a, s.b, s.ba, s.ab, l.act);
    } else {
      ActKeeps(s.b, s.a, s.ab, s.ba, l.act);
    }
  }

  lemma {:induction false} RunKeeps(s: Stream, labels: seq<Label>, s': Stream)
    requires Inv(s) && Run(s, labels, s')
    ensures Inv(s')
    decreases |labels|
  {
    if labels != [] {
      StepKeeps(s, labels[0]);
      RunKeeps(Step(s, labels[0]), labels[1..], s');
    }
  }

  lemma OpenedInv(s: Stream)
    requires Opened(s)
    ensures Inv(s)
  {
  }

  // ---------------------------------------------------------------- what every run guarantees

  /** Every byte that `x` sent is written, queued or in flight, in order, as long as `y` is live;
      afterwards `y` has written a prefix. */
  ghost predicate Conserved(x: End, y: End, fwd: seq<Msg>)
  {
    && (y.phase == Live ==> x.sent == y.written + Flat(y.queue) + Payload(fwd))
    && y.written <= x.sent
  }

  function Mine(s: Stream, side: Side): End { if side == A then s.a else s.b }

  function Theirs(s: Stream, side: Side): End { if side == A then s.b else s.a }

  function Inbox(s: Stream, side: Side): seq<Msg> { if side == A then s.ba else s.ab }

  /** What a step reads from the descriptor of a live end. */
  function ReadBy(e: End, act: Act): seq<byte> { if act.Readable? && e.phase == Live then act.data else [] }

  /** How many bytes the descriptor of an end takes in a step. */
  function TakenBy(e: End, inp: seq<Msg>, act: Act): nat
  {
    match act
    case Readable(_, _) => 0
    case Writable(k, _) => k
    case Recv(k, _) => if inp != [] && inp[0].Wrte? && e.phase == Live && e.queue == [] then k else 0
  }

  /** What a live end reads is what it sends, and what it writes is counted right. */
  lemma ActCounts(x: End, y: End, inp: seq<Msg>, out: seq<Msg>, act: Act)
    requires Local(x, y, inp, out) && Enabled(x, inp, act)
    ensures var o := Act1(x, inp, act);
            && o.e.sent == x.sent + ReadBy(x, act)
            && |o.e.written| == |x.written| + TakenBy(x, inp, act)
  {
    assert x.sent + [] == x.sent;
    match act
    case Recv(k, st) => RecvCounts(x, inp, k, st);
    case Writable(k, st) => WritableCounts(x, inp, k, st);
    case Readable(data, eof) => ReadableCounts(x, inp, data, eof);
  }

  lemma RecvCounts(x: End, inp: seq<Msg>, k: nat, st: WriteEnd)
    requires EndInv(x) && Enabled(x, inp, Recv(k, st))
    ensures var e := Act1(x, inp, Recv(k, st)).e;
            e.sent == x.sent && |e.written| == |x.written| + TakenBy(x, inp, Recv(k, st))
  {
  }

  lemma WritableCounts(x: End, inp: seq<Msg>, k: nat, st: WriteEnd)
    requires EndInv(x) && Enabled(x, inp, Writable(k, st))
    ensures var e := Act1(x, inp, Writable(k, st)).e; e.sent == x.sent && |e.written| == |x.written| + k
  {
  }

  lemma ReadableCounts(x: End, inp: seq<Msg>, data: seq<byte>, eof: bool)
    requires EndInv(x) && (x.phase == Live && !x.linked ==> !x.rd) && Enabled(x, inp, Readable(data, eof))
    ensures var e := Act1(x, inp, Readable(data, eof)).e;
            e.sent == x.sent + (if x.phase == Live then data else []) && e.written == x.written
  {
    assert x.sent + [] == x.sent;
  }

  /** The same for a step of the stream, as one side sees it. */
  function ReadIn(s: Stream, l: Label, side: Side): seq<byte>
  {
    if l.side == side then ReadBy(Mine(s, side), l.act) else []
  }

  function TakenAt(s: Stream, l: Label, side: Side): nat
  {
    if l.side == side then TakenBy(Mine(s, side), Inbox(s, side), l.act) else 0
  }

  lemma StepCounts(s: Stream, l: Label, side: Side)
    requires Inv(s) && CanStep(s, l)
    ensures Mine(Step(s, l), side).sent == Mine(s, side).sent + ReadIn(s, l, side)
    ensures |Mine(Step(s, l), side).written| == |Mine(s, side).written| + TakenAt(s, l, side)
  {
    assert Mine(s, side).sent + [] == Mine(s, side).sent;
    if l.side == side {
      ActCounts(Mine(s, side), Theirs(s, side), Inbox(s, side), if side == A then s.ab else s.ba, l.act);
    }
  }

  /** All that a run reads from the descriptor of one side while that side is live. */
  ghost function BytesRead(s: Stream, labels: seq<Label>, s': Stream, side: Side): seq<byte>
    requires Run(s, labels, s')
    decreases |labels|
  {
    if labels == [] then [] else ReadIn(s, labels[0], side) + BytesRead(Step(s, labels[0]), labels[1..], s', side)
  }

  /** How many bytes the descriptor of one side takes in a run. */
  ghost function BytesTaken(s: Stream, labels: seq<Label>, s': Stream, side: Side): nat
    requires Run(s, labels, s')
    decreases |labels|
  {
    if labels == [] then 0 else TakenAt(s, labels[0], side) + BytesTaken(Step(s, labels[0]), labels[1..], s', side)
  }

  lemma {:induction false} RunCounts(s: Stream, labels: seq<Label>, s': Stream, side: Side)
    requires Inv(s) && Run(s, labels, s')
    ensures Mine(s', side).sent == Mine(s, side).sent + BytesRead(s, labels, s', side)
    ensures |Mine(s', side).written| == |Mine(s, side).written| + BytesTaken(s, labels, s', side)
    decreases |labels|
  {
    if labels == [] {
      assert Mine(s, side).sent + [] == Mine(s, side).sent;
    } else {
      var s1 := Step(s, labels[0]);
      StepKeeps(s, labels[0]);
      StepCounts(s, labels[0], side);
      RunCounts(s1, labels[1..], s', side);
      Assoc(Mine(s, side).sent, ReadIn(s, labels[0], side), BytesRead(s1, labels[1..], s', side));
    }
  }

  /** In every run, what was read from one descriptor is what was written to the other, then the backlog,
      then what is in flight, as long as the other end is live; and what was written is always a prefix of
      what was read, of as many bytes as the descriptor took. */
  lemma StreamConservation(s0: Stream, labels: seq<Label>, s: Stream, side: Side)
    requires Opened(s0) && Run(s0, labels, s)
    ensures var y, got := Theirs(s, side), BytesRead(s0, labels, s, side);
            && (y.phase == Live ==> got == y.written + Flat(y.queue) + Payload(if side == A then s.ab else s.ba))
            && y.written <= got && |y.written| == BytesTaken(s0, labels, s, if side == A then B else A)
            && Mine(s, side).sent == got
  {
    OpenedInv(s0);
    RunKeeps(s0, labels, s);
    RunCounts(s0, labels, s, A);
    RunCounts(s0, labels, s, B);
    var got := BytesRead(s0, labels, s, side);
    assert [] + got == got;
  }

  /** What makes a live end close: an end of file, a failing write, or the CLSE of its peer. */
  predicate Closes(e: End, inp: seq<Msg>, act: Act)
  {
    match act
    case Readable(_, eof) => eof
    case Writable(_, st) => st == Broken
    case Recv(_, st) => inp != [] && (inp[0] == Clse || (inp[0].Wrte? && e.queue == [] && st == Broken))
  }

  /** It does so in this step, while it is live. */
  predicate ClosesIn(s: Stream, l: Label, side: Side)
  {
    l.side == side && Mine(s, side).phase == Live && Closes(Mine(s, side), Inbox(s, side), l.act)
  }

  ghost predicate Closed(s: Stream, labels: seq<Label>, s': Stream, side: Side)
    requires Run(s, labels, s')
    decreases |labels|
  {
    labels != [] && (ClosesIn(s, labels[0], side) || Closed(Step(s, labels[0]), labels[1..], s', side))
  }

  /** It then leaves the live phase, and says CLSE. */
  ghost predicate Leaves(x: End, inp: seq<Msg>, act: Act)
    requires Enabled(x, inp, act)
  {
    var o := Act1(x, inp, act);
    && (o.e.phase == Live <==> x.phase == Live && !Closes(x, inp, act))
    && (x.phase == Live && Closes(x, inp, act) ==> o.out != [] && o.out[|o.out| - 1] == Clse)
  }

  lemma RecvLeaves(x: End, y: End, inp: seq<Msg>, out: seq<Msg>, k: nat, st: WriteEnd)
    requires Local(x, y, inp, out) && Enabled(x, inp, Recv(k, st))
    ensures Leaves(x, inp, Recv(k, st))
  {
    if x.phase == Live && inp[0] == Clse { assert x.linked; }
  }

  lemma WritableLeaves(x: End, y: End, inp: seq<Msg>, out: seq<Msg>, k: nat, st: WriteEnd)
    requires Local(x, y, inp, out) && Enabled(x, inp, Writable(k, st))
    ensures Leaves(x, inp, Writable(k, st))
  {
  }

  lemma ReadableLeaves(x: End, y: End, inp: seq<Msg>, out: seq<Msg>, data: seq<byte>, eof: bool)
    requires Local(x, y, inp, out) && Enabled(x, inp, Readable(data, eof))
    ensures Leaves(x, inp, Readable(data, eof))
  {
  }

  lemma LeaveStep(s: Stream, l: Label, side: Side)
    requires Inv(s) && CanStep(s, l)
    ensures Mine(Step(s, l), side).phase != Live <==> Mine(s, side).phase != Live || ClosesIn(s, l, side)
  {
    if l.side == side {
      var x, y, inp, out := Mine(s, side), Theirs(s, side), Inbox(s, side), if side == A then s.ab else s.ba;
      match l.act
      case Recv(k, st) => RecvLeaves(x, y, inp, out, k, st);
      case Writable(k, st) => WritableLeaves(x, y, inp, out, k, st);
      case Readable(data, eof) => ReadableLeaves(x, y, inp, out, data, eof);
    }
  }

  lemma {:induction false} LeaveRun(s: Stream, labels: seq<Label>, s': Stream, side: Side)
    requires Inv(s) && Run(s, labels, s')
    ensures Mine(s', side).phase != Live <==> Mine(s, side).phase != Live || Closed(s, labels, s', side)
    decreases |labels|
  {
    if labels != [] {
      StepKeeps(s, labels[0]);
      LeaveStep(s, labels[0], side);
      LeaveRun(Step(s, labels[0]), labels[1..], s', side);
    }
  }

  /** In every run an end has closed exactly if it met one of the causes while it was live. */
  lemma ClosesExactly(s0: Stream, labels: seq<Label>, s: Stream, side: Side)
    requires Opened(s0) && Run(s0, labels, s)
    ensures Mine(s, side).phase != Live <==> Closed(s0, labels, s, side)
  {
    OpenedInv(s0);
    LeaveRun(s0, labels, s, side);
  }

  /** Stop and wait: exactly one credit per direction while both ends are live, never two; so at
      most one WRTE is in flight and a receiver never has more than one packet queued. */
  lemma OneCredit(s0: Stream, labels: seq<Label>, s: Stream)
    requires Opened(s0) && Run(s0, labels, s)
    ensures Credit(s.a, s.b, s.ab, s.ba) <= 1 && Credit(s.b, s.a, s.ba, s.ab) <= 1
    ensures s.a.phase == Live && s.b.phase == Live ==>
              Credit(s.a, s.b, s.ab, s.ba) == 1 && Credit(s.b, s.a, s.ba, s.ab) == 1
    ensures |s.a.queue| <= 1 && |s.b.queue| <= 1
  {
    OpenedInv(s0);
    RunKeeps(s0, labels, s);
  }

  /** An end that closed because the other end did is destroyed with all written that was ever sent, exactly
      if nothing cut its draining short. */
  ghost predicate Graceful(x: End, y: End)
  {
    (y.cause == ByPeer || y.cause == CutShort) && y.phase == Gone ==>
      x.phase != Live && (y.written == x.sent <==> y.cause == ByPeer)
  }

  lemma GracefulClose(s0: Stream, labels: seq<Label>, s: Stream)
    requires Opened(s0) && Run(s0, labels, s)
    ensures Graceful(s.a, s.b) && Graceful(s.b, s.a)
    ensures s.a.clses <= 1 && s.b.clses <= 1
  {
    OpenedInv(s0);
    RunKeeps(s0, labels, s);
  }

  /** An end of file, or a write that fails: what cuts the draining of a closing end short. */
  predicate Cuts(act: Act) { (act.Readable? && act.eof) || (act.Writable? && act.st == Broken) }

  /** Nothing in these labels cuts this side short. */
  ghost predicate Undisturbed(labels: seq<Label>, side: Side)
  {
    forall i :: 0 <= i < |labels| && labels[i].side == side ==> !Cuts(labels[i].act)
  }

  /** A draining end goes on, or ends with all written, unless the action cuts it short. */
  lemma DrainStep(x: End, y: End, inp: seq<Msg>, out: seq<Msg>, act: Act)
    requires Local(x, y, inp, out) && x.phase == Closing && x.cause == ByPeer && Enabled(x, inp, act)
    ensures var e := Act1(x, inp, act).e;
            if Cuts(act) then e.phase == Gone && e.cause == CutShort else e.cause == ByPeer && e.phase != Live
  {
  }

  lemma UndisturbedNext(labels: seq<Label>, side: Side)
    requires labels != []
    ensures Undisturbed(labels, side) <==>
            (labels[0].side == side ==> !Cuts(labels[0].act)) && Undisturbed(labels[1..], side)
  {
    assert forall i :: 1 <= i < |labels| ==> labels[i] == labels[1..][i - 1];
  }

  /** An end that is gone takes no part any more, and its peer, closed as well, sends nothing. */
  lemma GoneStep(s: Stream, l: Label, side: Side)
    requires Inv(s) && CanStep(s, l) && Mine(s, side).phase == Gone && Theirs(s, side).phase != Live
    ensures var s1 := Step(s, l);
            && Mine(s1, side) == Mine(s, side)
            && Theirs(s1, side).sent == Theirs(s, side).sent && Theirs(s1, side).phase != Live
    ensures l.side == side ==> !Cuts(l.act)
  {
  }

  lemma {:induction false} GoneStays(s: Stream, labels: seq<Label>, s': Stream, side: Side)
    requires Inv(s) && Run(s, labels, s') && Mine(s, side).phase == Gone && Theirs(s, side).phase != Live
    ensures Mine(s', side) == Mine(s, side) && Theirs(s', side).sent == Theirs(s, side).sent
    ensures Undisturbed(labels, side)
    decreases |labels|
  {
    if labels != [] {
      StepKeeps(s, labels[0]);
      GoneStep(s, labels[0], side);
      GoneStays(Step(s, labels[0]), labels[1..], s', side);
      UndisturbedNext(labels, side);
    }
  }

  /** One step of an end that has closed because its peer did. */
  lemma ByPeerStep(s: Stream, l: Label, side: Side)
    requires Inv(s) && CanStep(s, l) && Mine(s, side).cause == ByPeer
    ensures var s1, cut := Step(s, l), l.side == side && Cuts(l.act);
            && Mine(s1, side).cause == (if cut then CutShort else ByPeer)
            && Theirs(s1, side).phase != Live && (cut ==> Mine(s1, side).phase == Gone)
  {
    StepKeeps(s, l);
    if Mine(s, side).phase == Gone {
      GoneStep(s, l, side);
    } else if l.side == side {
      DrainStep(Mine(s, side), Theirs(s, side), if side == A then s.ba else s.ab, if side == A then s.ab else s.ba, l.act);
    }
  }

  lemma {:induction false} DrainRun(s: Stream, labels: seq<Label>, s': Stream, side: Side)
    requires Inv(s) && Run(s, labels, s') && Mine(s, side).cause == ByPeer
    ensures Mine(s', side).cause == if Undisturbed(labels, side) then ByPeer else CutShort
    decreases |labels|
  {
    if labels != [] {
      var l := labels[0];
      StepKeeps(s, l);
      ByPeerStep(s, l, side);
      UndisturbedNext(labels, side);
      if l.side == side && Cuts(l.act) {
        GoneStays(Step(s, l), labels[1..], s', side);
      } else {
        DrainRun(Step(s, l), labels[1..], s', side);
      }
    }
  }

  /** The exact price of a close.  Once an end has closed because its peer did, every continuation that
      destroys it has written all that was ever sent if and only if no end of file and no failing write
      comes to it on the way. */
  lemma DrainExactly(s0: Stream, before: seq<Label>, s: Stream, labels: seq<Label>, s': Stream, side: Side)
    requires Opened(s0) && Run(s0, before, s) && Mine(s, side).cause == ByPeer
    requires Run(s, labels, s') && Mine(s', side).phase == Gone
    ensures Mine(s', side).written == Theirs(s', side).sent <==> Undisturbed(labels, side)
  {
    OpenedInv(s0);
    RunKeeps(s0, before, s);
    RunKeeps(s, labels, s');
    DrainRun(s, labels, s', side);
  }

  lemma {:induction false} RunConcat(s: Stream, x: seq<Label>, m: Stream, y: seq<Label>, s': Stream)
    requires Run(s, x, m) && Run(m, y, s')
    ensures Run(s, x + y, s')
    decreases |x|
  {
    if x == [] {
      assert x + y == y;
    } else {
      RunConcat(Step(s, x[0]), x[1..], m, y, s');
      assert (x + y)[1..] == x[1..] + y;
    }
  }

  lemma RunTwo(s: Stream, k: Label, l: Label)
    requires CanStep(s, k) && CanStep(Step(s, k), l)
    ensures Run(s, [k, l], Step(Step(s, k), l))
  {
    assert [k, l][1..] == [l] && [l][1..] == [];
    assert Run(Step(s, k), [l], Step(Step(s, k), l));
  }

  /** A run in which an end of file meets a backlog: `b` sends a byte and closes; `a` cannot write it, hears of
      the close, and finds an end of file.  The byte is never written, though no write fails. */
  lemma EofLosesBacklog(s0: Stream)
    requires Opened(s0)
    ensures var labels := [Label(B, Readable([7], true)), Label(A, Recv(0, Done))]
                        + [Label(A, Recv(0, Blocked)), Label(A, Recv(0, Done))]
                        + [Label(A, Readable([], true))];
            exists s :: Run(s0, labels, s) && s.a.phase == Gone && s.a.written == [] && s.b.sent == [7]
  {
    var s2 := SendAndClose(s0);
    var s4 := CloseMeetsBacklog(s2);
    var last := Label(A, Readable([], true));
    var s5 := Step(s4, last);
    assert [last][1..] == [] && Run(s4, [last], s5);
    var x, y := [Label(B, Readable([7], true)), Label(A, Recv(0, Done))], [Label(A, Recv(0, Blocked)), Label(A, Recv(0, Done))];
    RunConcat(s0, x, s2, y, s4);
    RunConcat(s0, x + y, s4, [last], s5);
  }

  lemma SendAndClose(s0: Stream) returns (s2: Stream)
    requires Opened(s0)
    ensures Run(s0, [Label(B, Readable([7], true)), Label(A, Recv(0, Done))], s2)
    ensures s2.a == FRESH.(linked := true, rd := true) && s2.b.sent == [7] && s2.ba == [Wrte([7]), Clse]
  {
    var k, l := Label(B, Readable([7], true)), Label(A, Recv(0, Done));
    var s1 := Step(s0, k);
    assert s1.ba == [Okay, Wrte([7]), Clse];
    s2 := Step(s1, l);
    RunTwo(s0, k, l);
  }

  lemma CloseMeetsBacklog(s2: Stream) returns (s4: Stream)
    requires s2.a == FRESH.(linked := true, rd := true) && s2.ba == [Wrte([7]), Clse]
    ensures Run(s2, [Label(A, Recv(0, Blocked)), Label(A, Recv(0, Done))], s4)
    ensures s4.a.phase == Closing && s4.a.written == [] && !s4.a.rd && s4.b == s2.b
  {
    var k, l := Label(A, Recv(0, Blocked)), Label(A, Recv(0, Done));
    var s3 := Step(s2, k);
    assert s3.ba == [Clse] && s3.a.queue == [[7]];
    s4 := Step(s3, l);
    RunTwo(s2, k, l);
  }

  ghost predicate Healthy(s: Stream)
  {
    && Conserved(s.a, s.b, s.ab) && Conserved(s.b, s.a, s.ba)
    && Graceful(s.a, s.b) && Graceful(s.b, s.a)
    && Credit(s.a, s.b, s.ab, s.ba) <= 1 && Credit(s.b, s.a, s.ba, s.ab) <= 1
    && s.a.clses <= 1 && s.b.clses <= 1
  }

  lemma InvHealthy(s: Stream)
    requires Inv(s)
    ensures Healthy(s)
  {
  }

  /** An end that has left the live phase sends nothing more. */
  lemma ClosedIsSilent(s0: Stream, labels: seq<Label>, s: Stream, l: Label)
    requires Opened(s0) && Run(s0, labels, s) && CanStep(s, l)
    ensures l.side == A && s.a.phase != Live ==> Step(s, l).ab == s.ab
    ensures l.side == B && s.b.phase != Live ==> Step(s, l).ba == s.ba
  {
    OpenedInv(s0);
    RunKeeps(s0, labels, s);
    assert s.ab + [] == s.ab && s.ba + [] == s.ba;
    if l.side == A && s.a.phase != Live { ClosedEndProgress(s.a, s.b, s.ba, s.ab, l.act); }
    if l.side == B && s.b.phase != Live { ClosedEndProgress(s.b, s.a, s.ab, s.ba, l.act); }
  }

  // ---------------------------------------------------------------- closing terminates

  function PhaseWeight(p: Phase): nat { match p case Live => 3 case Closing => 1 case Gone => 0 }

  /** Work that a message towards a possibly live end can still cause there. */
  function Weight(m: Msg): nat
  {
    match m
    case Wrte(data) => |data| + 4
    case Okay => 6
    case Clse => 1
  }

  function Weights(c: seq<Msg>): nat { if c == [] then 0 else Weight(c[0]) + Weights(c[1..]) }

  /** The work left once `x` has closed; messages towards it are only dropped. */
  function Pending(x: End, y: End, fwd: seq<Msg>, back: seq<Msg>): nat
  {
    Weights(fwd) + |back| + (if y.rd then 4 else 0)
      + |Flat(y.queue)| + (if y.queue != [] then 2 else 0) + PhaseWeight(y.phase)
      + |Flat(x.queue)| + PhaseWeight(x.phase)
  }

  lemma ClosedEndProgress(x: End, y: End, inp: seq<Msg>, out: seq<Msg>, act: Act)
    requires Local(x, y, inp, out) && x.phase != Live && Enabled(x, inp, act)
    ensures var o := Act1(x, inp, act);
            && o.out == [] && o.e.phase != Live
            && (Outcome(x, inp, []) == o
                || Pending(o.e, y, out, o.inp) < Pending(x, y, out, inp))
  {
    FlatSmall(x.queue);
    match act
    case Recv(_, _) =>
    case Readable(_, _) =>
    case Writable(k, st) =>
      if st != Done {
        PartialWriteKeeps(x, y, inp, out, k);
        FlatSmall([x.queue[0][k..]]);
        if k == 0 {
          assert [x.queue[0][0..]] == x.queue;
          assert x.written + [] == x.written;
        }
      }
  }

  /** `o` is no change, or less work is left. */
  ghost predicate Progress(x: End, y: End, inp: seq<Msg>, out: seq<Msg>, o: Outcome)
  {
    || Outcome(y, inp, []) == o
    || Pending(x, o.e, o.inp, out + o.out) < Pending(x, y, inp, out)
  }

  lemma OtherEndReceives(x: End, y: End, inp: seq<Msg>, out: seq<Msg>, k: nat, st: WriteEnd)
    requires Local(y, x, inp, out) && x.phase != Live && Enabled(y, inp, Recv(k, st))
    ensures Progress(x, y, inp, out, Act1(y, inp, Recv(k, st)))
  {
    FlatSmall(y.queue);
    if y.phase == Live && inp[0].Wrte? {
      WrteArrives(y, x, inp, out, k);
      FlatSmall([inp[0].data[k..]]);
    }
  }

  lemma OtherEndReads(x: End, y: End, inp: seq<Msg>, out: seq<Msg>, data: seq<byte>, eof: bool)
    requires Local(y, x, inp, out) && x.phase != Live && Enabled(y, inp, Readable(data, eof))
    ensures Progress(x, y, inp, out, Act1(y, inp, Readable(data, eof)))
  {
    FlatSmall(y.queue);
  }

  lemma OtherEndWrites(x: End, y: End, inp: seq<Msg>, out: seq<Msg>, k: nat, st: WriteEnd)
    requires Local(y, x, inp, out) && x.phase != Live && Enabled(y, inp, Writable(k, st))
    ensures Progress(x, y, inp, out, Act1(y, inp, Writable(k, st)))
  {
    FlatSmall(y.queue);
    if st != Done {
      PartialWriteKeeps(y, x, inp, out, k);
      FlatSmall([y.queue[0][k..]]);
      if k == 0 {
        assert [y.queue[0][0..]] == y.queue;
        assert y.written + [] == y.written;
      }
    }
  }

  /** Work left in a stream of which at least one end has closed. */
  function Work(s: Stream): nat
  {
    if s.a.phase != Live then Pending(s.a, s.b, s.ab, s.ba) else Pending(s.b, s.a, s.ba, s.ab)
  }

  ghost predicate HalfClosed(s: Stream) { s.a.phase != Live || s.b.phase != Live }

  lemma CloseProgressFrom(s: Stream, l: Label)
    requires Inv(s) && CanStep(s, l) && s.a.phase != Live
    ensures var s' := Step(s, l);
            s'.a.phase != Live && (s' == s || Work(s') < Work(s))
  {
    assert s.ab + [] == s.ab && s.ba + [] == s.ba;
    if l.side == A {
      ClosedEndProgress(s.a, s.b, s.ba, s.ab, l.act);
    } else {
      match l.act
      case Recv(k, st) => OtherEndReceives(s.a, s.b, s.ab, s.ba, k, st);
      case Writable(k, st) => OtherEndWrites(s.a, s.b, s.ab, s.ba, k, st);
      case Readable(data, eof) => OtherEndReads(s.a, s.b, s.ab, s.ba, data, eof);
    }
  }

  function Mirror(l: Label): Label { Label(if l.side == A then B else A, l.act) }

  lemma SwapStep(s: Stream, l: Label)
    requires CanStep(s, l)
    ensures CanStep(Swap(s), Mirror(l)) && Step(Swap(s), Mirror(l)) == Swap(Step(s, l))
  {
  }

  function Mirrors(labels: seq<Label>): seq<Label>
  {
    if labels == [] then [] else [Mirror(labels[0])] + Mirrors(labels[1..])
  }

  /** A run whose every step changes the state. */
  ghost predicate BusyRun(s: Stream, labels: seq<Label>)
    decreases |labels|
  {
    labels == [] ||
    (CanStep(s, labels[0]) && Step(s, labels[0]) != s && BusyRun(Step(s, labels[0]), labels[1..]))
  }

  lemma {:induction false} BusyRunMirrors(s: Stream, labels: seq<Label>)
    requires BusyRun(s, labels)
    ensures BusyRun(Swap(s), Mirrors(labels)) && |Mirrors(labels)| == |labels|
    decreases |labels|
  {
    if labels != [] {
      SwapStep(s, labels[0]);
      BusyRunMirrors(Step(s, labels[0]), labels[1..]);
      assert Mirrors(labels)[1..] == Mirrors(labels[1..]);
    }
  }

  lemma {:induction false} BusyRunBoundedFrom(s: Stream, labels: seq<Label>)
    requires Inv(s) && s.a.phase != Live && BusyRun(s, labels)
    ensures |labels| <= Work(s)
    decreases |labels|
  {
    if labels != [] {
      CloseProgressFrom(s, labels[0]);
      StepKeeps(s, labels[0]);
      BusyRunBoundedFrom(Step(s, labels[0]), labels[1..]);
    }
  }

  /** The close exchange terminates: once an end has closed, no run can go on changing the state
      for more than Work(s) steps, whatever the descriptors do. */
  lemma CloseTerminates(s0: Stream, before: seq<Label>, s: Stream, labels: seq<Label>)
    requires Opened(s0) && Run(s0, before, s) && HalfClosed(s) && BusyRun(s, labels)
    ensures |labels| <= Work(s)
  {
    OpenedInv(s0);
    RunKeeps(s0, before, s);
    if s.a.phase != Live {
      BusyRunBoundedFrom(s, labels);
    } else {
      BusyRunMirrors(s, labels);
      BusyRunBoundedFrom(Swap(s), Mirrors(labels));
    }
  }

  /** ... and it ends with both ends destroyed: nothing but an undelivered message or an undrained
      queue can keep an end of a half-closed stream alive. */
  lemma CloseCompletes(s0: Stream, labels: seq<Label>, s: Stream)
    requires Opened(s0) && Run(s0, labels, s) && HalfClosed(s)
    requires s.ab == [] && s.ba == [] && !s.a.wr && !s.b.wr
    ensures s.a.phase == Gone && s.b.phase == Gone
  {
    OpenedInv(s0);
    RunKeeps(s0, labels, s);
  }
}
