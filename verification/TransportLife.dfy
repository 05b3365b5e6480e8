/** The life of a transport: its output thread (remote to main loop), its input thread (main loop
    to remote), the main loop between them, and an explicit unregistration.  Threads move one
    statement at a time; only what is under the transport lock is one step. */
module TransportLife {

  /** Packets as far as the handshake cares. */
  datatype Packet = Sync(on: bool, token: nat) | Cnxn | Other(n: nat)

  // ---------------------------------------------------------------- kicking, closing, removing

  /** Where a party is on its way out: kick_transport, then transport_unref. */
  datatype Exit =
    | Inside
    | Peek            // about to look at `kicked` without the lock
    | Claim           // about to test and set it under the lock
    | Kick            // claimed: about to call the transport's kick function
    | Unref           // about to drop the reference
    | Gone

  /** The two pump threads, which hold a reference each, and unregister_transport, which drops a
      reference that it does not hold. */
  datatype Party = Out | In | Un

  /** How often the transport's kick and close functions and remove_transport were called. */
  datatype Calls = Calls(kicks: nat, closes: nat, removes: nat)

  datatype Life = Life(out: Exit, inp: Exit, un: Exit, kicked: bool, refs: int, calls: Calls)

  datatype LifeAct =
    | Leave(p: Party)   // the party starts on its way out
    | Go(p: Party)      // its next statement
    | TcpSweep          // unregister_all_tcp_transports, one critical section for all of it
    | UsbSweep          // close_usb_devices, which only kicks

  const NEW_LIFE := Life(Inside, Inside, Inside, false, 2, Calls(0, 0, 0))

  function Of(l: Life, p: Party): Exit
  {
    match p case Out => l.out case In => l.inp case Un => l.un
  }

  function Put(l: Life, p: Party, at: Exit): Life
  {
    match p case Out => l.(out := at) case In => l.(inp := at) case Un => l.(un := at)
  }

  function Kicking(l: Life): Life { l.(kicked := true, calls := l.calls.(kicks := l.calls.kicks + 1)) }

  /** transport_unref_locked. */
  function Unrefed(l: Life): Life
  {
    var l1 := l.(refs := l.refs - 1);
    if l1.refs == 0 then
      var l2 := if l1.kicked then l1 else Kicking(l1);
      l2.(calls := Calls(l2.calls.kicks, l2.calls.closes + 1, l2.calls.removes + 1))
    else l1
  }

  predicate CanLife(l: Life, a: LifeAct)
  {
    match a
    case Leave(p) => Of(l, p) == Inside
    case Go(p) => Of(l, p) != Inside && Of(l, p) != Gone
    case TcpSweep => l.un == Inside
    case UsbSweep => true
  }

  function LifeStep(l: Life, a: LifeAct): (l': Life)
    requires CanLife(l, a)
  {
    match a
    case Leave(p) => Put(l, p, Peek)
    case Go(p) =>
      (match Of(l, p)
       case Peek => Put(l, p, if l.kicked then Unref else Claim)
       case Claim => Put(l.(kicked := true), p, if l.kicked then Unref else Kick)
       case Kick => Put(Kicking(l), p, Unref)
       case Unref => Put(Unrefed(l), p, Gone)
       case _ => l)
    case TcpSweep => Unrefed(if l.kicked then l else Kicking(l)).(un := Gone)
    case UsbSweep => if l.kicked then l else Kicking(l)
  }

  /** A sweep claims the kick, making it if nobody had; the one that unregisters drops its reference as well. */
  lemma SweepExactly(l: Life, tcp: bool)
    requires tcp ==> l.un == Inside
    ensures var l' := LifeStep(l, if tcp then TcpSweep else UsbSweep);
            && l'.kicked && l'.calls.kicks == l.calls.kicks + (if l.kicked then 0 else 1)
            && l'.out == l.out && l'.inp == l.inp
            && (if tcp then l'.un == Gone && l'.refs == l.refs - 1 else l'.un == l.un && l'.refs == l.refs)
  {
  }

  function One(b: bool): nat { if b then 1 else 0 }

  /** Parties that have dropped their reference. */
  function Left(l: Life): nat { One(l.out == Gone) + One(l.inp == Gone) + One(l.un == Gone) }

  /** Parties that have claimed the kick and not made it yet. */
  function Claims(l: Life): nat { One(l.out == Kick) + One(l.inp == Kick) + One(l.un == Kick) }

  predicate Claimed(at: Exit) { at.Kick? || at.Unref? || at.Gone? }

  ghost predicate RefInv(l: Life)
  {
    && l.refs == 2 - Left(l)
    && l.calls.kicks + Claims(l) == One(l.kicked)
    && l.calls.closes == One(Left(l) >= 2) == l.calls.removes
    && (Claimed(l.out) || Claimed(l.inp) || Claimed(l.un) ==> l.kicked)
  }

  lemma {:induction false} MoveKeeps(l: Life, p: Party, at: Exit)
    requires RefInv(l) && !Of(l, p).Kick? && !Of(l, p).Gone? && !at.Kick? && !at.Gone? && (at.Unref? ==> l.kicked)
    ensures RefInv(Put(l, p, at))
  {
    var l' := Put(l, p, at);
    assert l'.kicked == l.kicked && l'.refs == l.refs && l'.calls == l.calls;
    MoveCounts(l, p, at);
  }

  lemma {:induction false} MoveCounts(l: Life, p: Party, at: Exit)
    requires !Of(l, p).Kick? && !Of(l, p).Gone? && !at.Kick? && !at.Gone?
    ensures Left(Put(l, p, at)) == Left(l) && Claims(Put(l, p, at)) == Claims(l)
  {
  }

  lemma {:induction false} ClaimKeeps(l: Life, p: Party)
    requires RefInv(l) && Of(l, p) == Claim && !l.kicked
    ensures RefInv(Put(l.(kicked := true), p, Kick))
  {
    var l' := Put(l.(kicked := true), p, Kick);
    assert l'.kicked && l'.refs == l.refs && l'.calls == l.calls;
    assert Left(l') == Left(l);
    ClaimCounts(l, p);
  }

  lemma {:induction false} ClaimCounts(l: Life, p: Party)
    requires Claims(l) == 0 && Of(l, p) == Claim
    ensures Claims(Put(l.(kicked := true), p, Kick)) == 1
  {
  }

  lemma {:induction false} KickKeeps(l: Life, p: Party)
    requires RefInv(l) && Of(l, p) == Kick
    ensures RefInv(Put(Kicking(l), p, Unref))
  {
  }

  /** A party that is past its kick, or whose kick is not needed, drops a reference. */
  lemma {:induction false} UnrefKeeps(l: Life, p: Party)
    requires RefInv(l) && l.kicked && Of(l, p) != Kick && Of(l, p) != Gone
    ensures RefInv(Put(Unrefed(l), p, Gone))
  {
  }

  lemma {:induction false} LifeKeeps(l: Life, a: LifeAct)
    requires RefInv(l) && CanLife(l, a)
    ensures RefInv(LifeStep(l, a))
  {
    match a
    case Leave(p) => MoveKeeps(l, p, Peek);
    case TcpSweep => UnrefKeeps(if l.kicked then l else Kicking(l), Un);
    case UsbSweep =>
    case Go(p) =>
      match Of(l, p)
      case Peek => MoveKeeps(l, p, if l.kicked then Unref else Claim);
      case Claim => if l.kicked { MoveKeeps(l, p, Unref); } else { ClaimKeeps(l, p); }
      case Kick => KickKeeps(l, p);
      case Unref => UnrefKeeps(l, p);
  }

  // ---------------------------------------------------------------- the pumps

  /** What the output thread is doing while it is inside. */
  datatype Pump = Starting | Pumping | Stopping

  /** `active` is local to the input thread; `wire` are the packets written to the remote. */
  datatype State = State(host: bool, life: Life, pump: Pump, token: nat,
                         toMain: seq<Packet>, toInput: seq<Packet>, active: bool, wire: seq<Packet>)

  /** transport_registration_func has set up the transport and created the threads. */
  ghost predicate Init(s: State)
  {
    s == State(s.host, NEW_LIFE, Starting, s.token, [], s.toInput, false, [])
    && forall k :: 0 <= k < |s.toInput| ==> !s.toInput[k].Sync?
  }

  datatype Act =
    | OutGo(p: Packet, ok: bool)   // the output thread; `p` is read from the remote, `ok` its success
    | InGo(ok: bool)               // the input thread; `ok` is the success of read_packet
    | Main                         // the main loop handles a packet from the output thread
    | MainSends(p: Packet)         // the main loop sends something else on the transport
    | Outside(a: LifeAct)          // an unregistration or a sweep

  predicate CanOutside(l: Life, a: LifeAct)
  {
    CanLife(l, a) && (match a case Leave(p) => p == Un case Go(p) => p == Un case _ => true)
  }

  ghost predicate Can(s: State, a: Act)
  {
    match a
    case OutGo(_, _) => s.life.out != Gone
    case InGo(ok) => s.life.inp != Gone && (s.life.inp == Inside && ok ==> s.toInput != [])
    case Main => s.toMain != []
    case MainSends(p) => !p.Sync?
    case Outside(a) => CanOutside(s.life, a)
  }

  /** output_thread. */
  function OutStep(s: State, p: Packet, ok: bool): (s': State)
    requires s.life.out != Gone
  {
    if s.life.out != Inside then s.(life := LifeStep(s.life, Go(Out)))
    else
      var leaving := LifeStep(s.life, Leave(Out));
      match s.pump
      case Starting =>
        var s1 := s.(token := s.token + 1);
        if ok then s1.(toMain := s1.toMain + [Sync(true, s1.token)], pump := Pumping)
        else s1.(life := leaving)
      case Pumping =>
        if ok then s.(toMain := s.toMain + [p]) else s.(pump := Stopping)
      case Stopping =>
        s.(toMain := if ok then s.toMain + [Sync(false, 0)] else s.toMain, life := leaving)
  }

  /** input_thread. */
  function InStep(s: State, ok: bool): (s': State)
    requires Can(s, InGo(ok))
  {
    if s.life.inp != Inside then s.(life := LifeStep(s.life, Go(In)))
    else
      var leaving := LifeStep(s.life, Leave(In));
      if !ok then s.(life := leaving)
      else
        var p, s1 := s.toInput[0], s.(toInput := s.toInput[1..]);
        if p.Sync? then
          if !p.on then s1.(life := leaving)
          else if p.token == s.token then s1.(active := true)
          else s1
        else if s.active then s1.(wire := s1.wire + [p])
        else s1
  }

  /** The SYNC part of handle_packet; other packets may make the main loop send, see MainSends. */
  function MainStep(s: State): (s': State)
    requires s.toMain != []
  {
    var p, s1 := s.toMain[0], s.(toMain := s.toMain[1..]);
    if !p.Sync? then s1
    else if p.on && s.host then s1.(toInput := s1.toInput + [p, Cnxn])
    else s1.(toInput := s1.toInput + [p])
  }

  ghost function Step(s: State, a: Act): (s': State)
    requires Can(s, a)
  {
    match a
    case OutGo(p, ok) => OutStep(s, p, ok)
    case InGo(ok) => InStep(s, ok)
    case Main => MainStep(s)
    case MainSends(p) => s.(toInput := s.toInput + [p])
    case Outside(a) => s.(life := LifeStep(s.life, a))
  }

  ghost predicate Run(s: State, acts: seq<Act>, s': State)
    decreases |acts|
  {
    if acts == [] then s' == s
    else Can(s, acts[0]) && Run(Step(s, acts[0]), acts[1..], s')
  }

  // ---------------------------------------------------------------- what every run guarantees

  /** A step of the whole is a step of the life or none. */
  lemma {:induction false} StepLives(s: State, a: Act) returns (b: LifeAct, moved: bool)
    requires Can(s, a)
    ensures moved ==> CanLife(s.life, b) && Step(s, a).life == LifeStep(s.life, b)
    ensures !moved ==> Step(s, a).life == s.life
  {
    match a
    case OutGo(_, _) => b, moved := if s.life.out == Inside then Leave(Out) else Go(Out), Step(s, a).life != s.life;
    case InGo(_) => b, moved := if s.life.inp == Inside then Leave(In) else Go(In), Step(s, a).life != s.life;
    case Outside(c) => b, moved := c, true;
    case _ => b, moved := UsbSweep, false;
  }

  lemma {:induction false} RefStep(s: State, a: Act)
    requires RefInv(s.life) && Can(s, a)
    ensures RefInv(Step(s, a).life)
  {
    var b, moved := StepLives(s, a);
    if moved { LifeKeeps(s.life, b); }
  }

  lemma NewLifeInv()
    ensures RefInv(NEW_LIFE)
  {
  }

  lemma {:induction false} RefRun(s: State, acts: seq<Act>, s': State)
    requires RefInv(s.life) && Run(s, acts, s')
    ensures RefInv(s'.life)
    decreases |acts|
  {
    if acts != [] {
      RefStep(s, acts[0]);
      RefRun(Step(s, acts[0]), acts[1..], s');
    }
  }

  ghost predicate BothLeft(l: Life) { l.out == Gone && l.inp == Gone }

  lemma {:induction false} InvMeans(l: Life)
    requires RefInv(l)
    ensures l.calls.kicks <= 1 && l.calls.closes <= 1 && l.calls.closes == l.calls.removes
    ensures l.calls.closes == 1 <==> Left(l) >= 2
    ensures l.un == Inside ==> (l.calls.closes == 1 <==> BothLeft(l))
    ensures l.un == Inside && l.calls.closes == 1 ==> l.calls.kicks == 1
  {
  }

  /** In every interleaving, unregistration or not, the transport is kicked, closed and removed at most
      once each; closed and removed exactly when two of the three parties have left. */
  lemma {:induction false} KickedOnceClosedOnce(s0: State, acts: seq<Act>, s: State)
    requires Init(s0) && Run(s0, acts, s)
    ensures s.life.calls.kicks <= 1 && s.life.calls.closes <= 1
    ensures s.life.calls.closes == s.life.calls.removes
    ensures s.life.calls.closes == 1 <==> Left(s.life) >= 2
  {
    NewLifeInv();
    RefRun(s0, acts, s);
    InvMeans(s.life);
  }

  /** As long as nobody unregisters the transport, it is closed and removed exactly when both threads have
      left, and it has been kicked before. */
  lemma {:induction false} OwnersCloseInOrder(s0: State, acts: seq<Act>, s: State)
    requires Init(s0) && Run(s0, acts, s) && s.life.un == Inside
    ensures s.life.calls.closes == 1 <==> BothLeft(s.life)
    ensures s.life.calls.closes == 1 ==> s.life.calls.kicks == 1
  {
    NewLifeInv();
    RefRun(s0, acts, s);
    InvMeans(s.life);
  }

  /** The step that closes the transport, in any run.  A thread is still inside afterwards if and only if
      the unregistration has left; and the kick has not been made if and only if the party still inside
      has claimed it. */
  lemma {:induction false} CloseExactly(s0: State, acts: seq<Act>, s: State, a: Act)
    requires Init(s0) && Run(s0, acts, s) && Can(s, a)
    requires s.life.calls.closes == 0 && Step(s, a).life.calls.closes == 1
    ensures ClosedRight(s.life, Step(s, a).life)
  {
    NewLifeInv();
    RefRun(s0, acts, s);
    CloseStep(s, a);
  }

  lemma {:induction false} CloseStep(s: State, a: Act)
    requires RefInv(s.life) && Can(s, a)
    requires s.life.calls.closes == 0 && Step(s, a).life.calls.closes == 1
    ensures ClosedRight(s.life, Step(s, a).life)
  {
    var b, moved := StepLives(s, a);
    LastLeaves(s.life, b);
  }

  /** Both threads have left unless the unregistration has, and the kick is made unless someone sits on
      the claim. */
  ghost predicate ClosedRight(l: Life, l': Life)
  {
    && (BothLeft(l') <==> l'.un != Gone)
    && (l'.calls.kicks == 1 <==> l.out != Kick && l.inp != Kick && l.un != Kick)
  }

  lemma {:induction false} LastLeaves(l: Life, a: LifeAct)
    requires RefInv(l) && CanLife(l, a) && l.calls.closes == 0 && LifeStep(l, a).calls.closes == 1
    ensures ClosedRight(l, LifeStep(l, a))
  {
    match a
    case TcpSweep => UnrefCloses(if l.kicked then l else Kicking(l), Un);
    case Go(p) =>
      OnlyUnrefCloses(l, p);
      UnrefCloses(l, p);
    case _ =>
  }

  lemma {:induction false} OnlyUnrefCloses(l: Life, p: Party)
    requires CanLife(l, Go(p)) && LifeStep(l, Go(p)).calls.closes != l.calls.closes
    ensures Of(l, p) == Unref
  {
    match Of(l, p)
    case Peek =>
    case Claim =>
    case Kick =>
    case Unref =>
  }

  lemma {:induction false} UnrefCloses(l: Life, p: Party)
    requires RefInv(l) && l.kicked && Of(l, p) != Kick && Of(l, p) != Gone
    requires l.calls.closes == 0 && Unrefed(l).calls.closes == 1
    ensures ClosedRight(l, Put(Unrefed(l), p, Gone))
  {
    UnrefKeeps(l, p);
    assert Left(Put(Unrefed(l), p, Gone)) == 2;
  }

  // ---------------------------------------------------------------- runs that show it

  lemma {:induction false} RunAppend(s: State, xs: seq<Act>, t: State, ys: seq<Act>, u: State)
    requires Run(s, xs, t) && Run(t, ys, u)
    ensures Run(s, xs + ys, u)
    decreases |xs|
  {
    if xs == [] {
      assert xs + ys == ys;
    } else {
      RunAppend(Step(s, xs[0]), xs[1..], t, ys, u);
      assert (xs + ys)[1..] == xs[1..] + ys;
    }
  }

  lemma {:induction false} RunThree(s: State, a: Act, b: Act, c: Act)
    requires Can(s, a) && Can(Step(s, a), b) && Can(Step(Step(s, a), b), c)
    ensures Run(s, [a, b, c], Step(Step(Step(s, a), b), c))
  {
    var s1 := Step(s, a);
    var s2 := Step(s1, b);
    assert Run(Step(s2, c), [], Step(s2, c));
    assert [c][1..] == [];
    assert Run(s2, [c], Step(s2, c));
    assert [b, c][1..] == [c];
    assert Run(s1, [b, c], Step(s2, c));
    assert [a, b, c][1..] == [b, c];
  }

  /** The input thread claims the kick and is held up; the output thread leaves and the transport is
      unregistered: it is closed, but not kicked, and a thread is inside. */
  lemma {:induction false} LateKick(s0: State)
    requires Init(s0)
    ensures exists acts, s ::
              Run(s0, acts, s) && s.life.calls == Calls(0, 1, 1) && s.life.inp == Kick
  {
    var o, i, l, u := OutGo(Cnxn, false), InGo(false), Outside(Leave(Un)), Outside(Go(Un));
    var s3 := ClaimIt(s0);
    var s6 := LeaveIt(s3);
    var s9 := Step(Step(Step(s6, l), u), u);
    assert s9.life == Life(Gone, Kick, Gone, true, 0, Calls(0, 1, 1));
    RunThree(s6, l, u, u);
    RunAppend(s3, [o, o, o], s6, [l, u, u], s9);
    RunAppend(s0, [i, i, i], s3, [o, o, o] + [l, u, u], s9);
  }

  lemma {:induction false} ClaimIt(s0: State) returns (s3: State)
    requires Init(s0)
    ensures Run(s0, [InGo(false), InGo(false), InGo(false)], s3)
    ensures s3.life == Life(Inside, Kick, Inside, true, 2, Calls(0, 0, 0)) && s3.pump == Starting
  {
    var i := InGo(false);
    s3 := Step(Step(Step(s0, i), i), i);
    RunThree(s0, i, i, i);
  }

  lemma {:induction false} LeaveIt(s3: State) returns (s6: State)
    requires s3.life == Life(Inside, Kick, Inside, true, 2, Calls(0, 0, 0)) && s3.pump == Starting
    ensures Run(s3, [OutGo(Cnxn, false), OutGo(Cnxn, false), OutGo(Cnxn, false)], s6)
    ensures s6.life == Life(Gone, Kick, Inside, true, 1, Calls(0, 0, 0))
  {
    var o := OutGo(Cnxn, false);
    s6 := Step(Step(Step(s3, o), o), o);
    RunThree(s3, o, o, o);
  }

  // ---------------------------------------------------------------- the handshake

  /** Behind every echoed SYNC there is the CNXN sent with it. */
  ghost predicate EchoInv(q: seq<Packet>)
  {
    forall k :: 0 <= k < |q| && q[k].Sync? && q[k].on ==> k + 1 < |q| && q[k + 1] == Cnxn
  }

  ghost predicate HandInv(s: State)
  {
    && s.host
    && EchoInv(s.toInput)
    && (!s.active ==> s.wire == [])
    && (s.active ==> (s.wire != [] && s.wire[0] == Cnxn)
                     || (s.wire == [] && s.toInput != [] && s.toInput[0] == Cnxn))
  }

  lemma {:induction false} HandOut(s: State, p: Packet, ok: bool)
    requires HandInv(s) && s.life.out != Gone
    ensures HandInv(OutStep(s, p, ok))
  {
  }

  lemma {:induction false} HandIn(s: State, ok: bool)
    requires HandInv(s) && Can(s, InGo(ok))
    ensures HandInv(InStep(s, ok))
  {
    if s.life.inp == Inside && ok {
      var q := s.toInput[1..];
      assert forall k :: 0 <= k < |q| ==> q[k] == s.toInput[k + 1];
      assert EchoInv(q);
    }
  }

  lemma {:induction false} HandMain(s: State)
    requires HandInv(s) && s.toMain != []
    ensures HandInv(MainStep(s))
  {
    var s' := MainStep(s);
    assert forall k :: 0 <= k < |s.toInput| ==> s'.toInput[k] == s.toInput[k];
  }

  lemma {:induction false} HandSends(s: State, p: Packet)
    requires HandInv(s) && !p.Sync?
    ensures HandInv(s.(toInput := s.toInput + [p]))
  {
  }

  lemma {:induction false} HandStep(s: State, a: Act)
    requires HandInv(s) && Can(s, a)
    ensures HandInv(Step(s, a))
  {
    match a
    case OutGo(p, ok) => HandOut(s, p, ok);
    case InGo(ok) => HandIn(s, ok);
    case Main => HandMain(s);
    case MainSends(p) => HandSends(s, p);
    case Outside(_) =>
  }

  lemma {:induction false} HandRun(s: State, acts: seq<Act>, s': State)
    requires HandInv(s) && Run(s, acts, s')
    ensures HandInv(s')
    decreases |acts|
  {
    if acts != [] {
      HandStep(s, acts[0]);
      HandRun(Step(s, acts[0]), acts[1..], s');
    }
  }

  /** On the host nothing reaches the remote before the SYNC has come back, and then the first
      packet is the CNXN that follows it, whatever else the main loop sends and whenever, and whatever
      the remote sends, SYNC included. */
  lemma {:induction false} ConnectComesFirst(s0: State, acts: seq<Act>, s: State)
    requires Init(s0) && s0.host && Run(s0, acts, s)
    ensures s.wire != [] ==> s.active && s.wire[0] == Cnxn
  {
    HandRun(s0, acts, s);
  }

  // ---------------------------------------------------------------- what reaches the remote

  /** The packet the input thread takes in a step, if any. */
  function TakenIn(s: State, a: Act): seq<Packet>
  {
    if a.InGo? && a.ok && s.life.inp == Inside && s.toInput != [] then [s.toInput[0]] else []
  }

  /** What a step hands to the input thread: what the main loop sends, and the echo of a SYNC, which a host
      follows up with its CNXN. */
  function GivenIn(s: State, a: Act): seq<Packet>
  {
    match a
    case MainSends(p) => [p]
    case Main =>
      if s.toMain == [] || !s.toMain[0].Sync? then []
      else [s.toMain[0]] + if s.toMain[0].on && s.host then [Cnxn] else []
    case _ => []
  }

  ghost function AllTaken(s: State, acts: seq<Act>, s': State): seq<Packet>
    requires Run(s, acts, s')
    decreases |acts|
  {
    if acts == [] then [] else TakenIn(s, acts[0]) + AllTaken(Step(s, acts[0]), acts[1..], s')
  }

  ghost function AllGiven(s: State, acts: seq<Act>, s': State): seq<Packet>
    requires Run(s, acts, s')
    decreases |acts|
  {
    if acts == [] then [] else GivenIn(s, acts[0]) + AllGiven(Step(s, acts[0]), acts[1..], s')
  }

  /** Of what the input thread takes, what it must write: all but SYNCs, once it has taken the SYNC with the
      token that is current at that moment. */
  ghost function Passed(s: State, acts: seq<Act>, s': State, on: bool): seq<Packet>
    requires Run(s, acts, s')
    decreases |acts|
  {
    if acts == [] then [] else
      var t := TakenIn(s, acts[0]);
      var on' := on || (t != [] && t[0] == Sync(true, s.token));
      (if t != [] && !t[0].Sync? && on then t else []) + Passed(Step(s, acts[0]), acts[1..], s', on')
  }

  lemma {:induction false} WireIn(s: State, ok: bool)
    requires Can(s, InGo(ok))
    ensures var s', t := InStep(s, ok), TakenIn(s, InGo(ok));
            && s'.wire == s.wire + (if t != [] && !t[0].Sync? && s.active then t else [])
            && s'.active == (s.active || (t != [] && t[0] == Sync(true, s.token)))
            && s.toInput == t + s'.toInput
  {
    assert s.wire + [] == s.wire && [] + s.toInput == s.toInput;
    if TakenIn(s, InGo(ok)) != [] { assert s.toInput == [s.toInput[0]] + s.toInput[1..]; }
  }

  lemma {:induction false} WireMain(s: State)
    requires s.toMain != []
    ensures var s' := MainStep(s);
            s'.wire == s.wire && s'.active == s.active && s'.toInput == s.toInput + GivenIn(s, Main)
  {
    assert s.toInput + [] == s.toInput;
    var p := s.toMain[0];
    if p.Sync? && p.on && s.host { assert s.toInput + [p, Cnxn] == s.toInput + ([p] + [Cnxn]); }
  }

  lemma {:induction false} WireOut(s: State, p: Packet, ok: bool)
    requires s.life.out != Gone
    ensures var s' := OutStep(s, p, ok); s'.wire == s.wire && s'.active == s.active && s'.toInput == s.toInput
  {
  }

  lemma {:induction false} WireStep(s: State, a: Act)
    requires Can(s, a)
    ensures var s', t := Step(s, a), TakenIn(s, a);
            && s'.wire == s.wire + (if t != [] && !t[0].Sync? && s.active then t else [])
            && s'.active == (s.active || (t != [] && t[0] == Sync(true, s.token)))
            && s.toInput + GivenIn(s, a) == t + s'.toInput
  {
    assert s.wire + [] == s.wire && s.toInput + [] == s.toInput;
    assert [] + Step(s, a).toInput == Step(s, a).toInput;
    match a
    case InGo(ok) => WireIn(s, ok);
    case Main => WireMain(s);
    case OutGo(p, ok) => WireOut(s, p, ok);
    case _ =>
  }

  lemma {:induction false} WireRun(s: State, acts: seq<Act>, s': State)
    requires Run(s, acts, s')
    ensures s'.wire == s.wire + Passed(s, acts, s', s.active)
    decreases |acts|
  {
    if acts == [] {
      assert s.wire + [] == s.wire;
    } else {
      WireStep(s, acts[0]);
      WireRun(Step(s, acts[0]), acts[1..], s');
      var t := TakenIn(s, acts[0]);
      Grouped(s.wire, if t != [] && !t[0].Sync? && s.active then t else [],
              Passed(Step(s, acts[0]), acts[1..], s', Step(s, acts[0]).active));
    }
  }

  lemma {:induction false} PipeRun(s: State, acts: seq<Act>, s': State)
    requires Run(s, acts, s')
    ensures s.toInput + AllGiven(s, acts, s') == AllTaken(s, acts, s') + s'.toInput
    decreases |acts|
  {
    if acts == [] {
      assert s.toInput + [] == [] + s.toInput;
    } else {
      var s1 := Step(s, acts[0]);
      WireStep(s, acts[0]);
      PipeRun(s1, acts[1..], s');
      var given, taken := AllGiven(s1, acts[1..], s'), AllTaken(s1, acts[1..], s');
      Grouped(s.toInput, GivenIn(s, acts[0]), given);
      Grouped(TakenIn(s, acts[0]), s1.toInput, given);
      Grouped(TakenIn(s, acts[0]), taken, s'.toInput);
    }
  }

  /** What the output thread says to the main loop in a step: a SYNC when it starts, what it reads from the
      remote, and a SYNC when it stops. */
  function HeardOut(s: State, a: Act): seq<Packet>
  {
    if a.OutGo? && a.ok && s.life.out == Inside then
      match s.pump
      case Starting => [Sync(true, s.token + 1)]
      case Pumping => [a.p]
      case Stopping => [Sync(false, 0)]
    else []
  }

  /** The packet the main loop handles in a step, if any. */
  function HandledBy(s: State, a: Act): seq<Packet>
  {
    if a.Main? && s.toMain != [] then [s.toMain[0]] else []
  }

  ghost function AllHeard(s: State, acts: seq<Act>, s': State): seq<Packet>
    requires Run(s, acts, s')
    decreases |acts|
  {
    if acts == [] then [] else HeardOut(s, acts[0]) + AllHeard(Step(s, acts[0]), acts[1..], s')
  }

  ghost function AllHandled(s: State, acts: seq<Act>, s': State): seq<Packet>
    requires Run(s, acts, s')
    decreases |acts|
  {
    if acts == [] then [] else HandledBy(s, acts[0]) + AllHandled(Step(s, acts[0]), acts[1..], s')
  }

  lemma {:induction false} PipeOut(s: State, p: Packet, ok: bool)
    requires s.life.out != Gone
    ensures OutStep(s, p, ok).toMain == s.toMain + HeardOut(s, OutGo(p, ok))
  {
    assert s.toMain + [] == s.toMain;
  }

  lemma {:induction false} PipeIn(s: State, ok: bool)
    requires Can(s, InGo(ok))
    ensures InStep(s, ok).toMain == s.toMain
  {
  }

  lemma {:induction false} MainPipeStep(s: State, a: Act)
    requires Can(s, a)
    ensures s.toMain + HeardOut(s, a) == HandledBy(s, a) + Step(s, a).toMain
  {
    assert s.toMain + [] == s.toMain && [] + Step(s, a).toMain == Step(s, a).toMain;
    match a
    case OutGo(p, ok) => PipeOut(s, p, ok);
    case InGo(ok) => PipeIn(s, ok);
    case Main => assert s.toMain == [s.toMain[0]] + s.toMain[1..];
    case _ =>
  }

  lemma {:induction false} MainPipeRun(s: State, acts: seq<Act>, s': State)
    requires Run(s, acts, s')
    ensures s.toMain + AllHeard(s, acts, s') == AllHandled(s, acts, s') + s'.toMain
    decreases |acts|
  {
    if acts == [] {
      assert s.toMain + [] == [] + s.toMain;
    } else {
      var s1 := Step(s, acts[0]);
      MainPipeStep(s, acts[0]);
      MainPipeRun(s1, acts[1..], s');
      var heard, handled := AllHeard(s1, acts[1..], s'), AllHandled(s1, acts[1..], s');
      Grouped(s.toMain, HeardOut(s, acts[0]), heard);
      Grouped(HandledBy(s, acts[0]), s1.toMain, heard);
      Grouped(HandledBy(s, acts[0]), handled, s'.toMain);
    }
  }

  lemma Grouped(x: seq<Packet>, y: seq<Packet>, z: seq<Packet>)
    ensures x + y + z == x + (y + z)
  {
  }

  /** In every run the remote gets exactly the packets other than SYNC that the input thread took after the
      first SYNC that carried the token current when it was taken, in order; it takes exactly what it was given,
      in order; and the main loop handles exactly what the output thread read and said, in order. */
  lemma WireExactly(s0: State, acts: seq<Act>, s: State)
    requires Init(s0) && Run(s0, acts, s)
    ensures s.wire == Passed(s0, acts, s, false)
    ensures s0.toInput + AllGiven(s0, acts, s) == AllTaken(s0, acts, s) + s.toInput
    ensures AllHeard(s0, acts, s) == AllHandled(s0, acts, s) + s.toMain
  {
    WireRun(s0, acts, s);
    PipeRun(s0, acts, s);
    MainPipeRun(s0, acts, s);
    assert [] + AllHeard(s0, acts, s) == AllHeard(s0, acts, s);
    assert [] + s.wire == s.wire && [] + Passed(s0, acts, s, false) == Passed(s0, acts, s, false);
  }

  /** A host comes online: its first SYNC goes round, and the CNXN behind it is written. */
  lemma {:induction false} HostComesOnline(s0: State, p: Packet)
    requires Init(s0) && s0.host && s0.toInput == []
    ensures exists s :: Run(s0, [OutGo(p, true), Main, InGo(true)] + [InGo(true)], s) && s.wire == [Cnxn]
  {
    var o, i := OutGo(p, true), InGo(true);
    var s1 := Step(s0, o);
    assert s1.toMain == [Sync(true, s1.token)];
    var s2 := Step(s1, Main);
    assert s2.toInput == [Sync(true, s2.token), Cnxn];
    var s3 := Step(s2, i);
    assert s3.toInput == [Cnxn] && s3.active;
    var s4 := Step(s3, i);
    RunThree(s0, o, Main, i);
    assert [i][1..] == [] && Run(s3, [i], s4);
    RunAppend(s0, [o, Main, i], s3, [i], s4);
  }

  /** A thread has left exactly if it met one of its causes. */
  ghost predicate Met(cause: (State, Act) -> bool, s: State, acts: seq<Act>, s': State)
    requires Run(s, acts, s')
    decreases |acts|
  {
    acts != [] && (cause(s, acts[0]) || Met(cause, Step(s, acts[0]), acts[1..], s'))
  }

  /** Why the input thread stops: it cannot read, or takes a SYNC that says so. */
  predicate InputStops(s: State, a: Act)
  {
    a.InGo? && s.life.inp == Inside && (!a.ok || (s.toInput != [] && s.toInput[0].Sync? && !s.toInput[0].on))
  }

  /** Why the output thread stops: it cannot say SYNC, or has said that it stops after a failed read. */
  predicate OutputStops(s: State, a: Act)
  {
    a.OutGo? && s.life.out == Inside && (s.pump == Stopping || (s.pump == Starting && !a.ok))
  }

  /** A party is inside until it leaves. */
  lemma {:induction false} InsideUntilLeave(l: Life, a: LifeAct)
    requires CanLife(l, a)
    ensures LifeStep(l, a).inp == Inside <==> l.inp == Inside && a != Leave(In)
    ensures LifeStep(l, a).out == Inside <==> l.out == Inside && a != Leave(Out)
  {
  }

  lemma {:induction false} LeaveStep(s: State, a: Act)
    requires Can(s, a)
    ensures Step(s, a).life.inp != Inside <==> s.life.inp != Inside || InputStops(s, a)
    ensures Step(s, a).life.out != Inside <==> s.life.out != Inside || OutputStops(s, a)
  {
    match a
    case OutGo(_, _) => InsideUntilLeave(s.life, if s.life.out == Inside then Leave(Out) else Go(Out));
    case InGo(_) => InsideUntilLeave(s.life, if s.life.inp == Inside then Leave(In) else Go(In));
    case Outside(b) => InsideUntilLeave(s.life, b);
    case _ =>
  }

  lemma {:induction false} LeaveExactly(s: State, acts: seq<Act>, s': State)
    requires Run(s, acts, s')
    ensures s'.life.inp != Inside <==> s.life.inp != Inside || Met(InputStops, s, acts, s')
    ensures s'.life.out != Inside <==> s.life.out != Inside || Met(OutputStops, s, acts, s')
    decreases |acts|
  {
    if acts != [] {
      LeaveStep(s, acts[0]);
      LeaveExactly(Step(s, acts[0]), acts[1..], s');
    }
  }
}
