/** One writer, one reader and one closer around a bip buffer, statement by statement.  The lock
    protects the contents; `closed` and the flags are also read without it.  The buffer itself is
    the bounded queue that BipBuffer.dfy proves it to be.

    Results: nothing is lost or reordered in any interleaving, a thread is only blocked when it
    has to be, the two sides are never blocked together, and nobody sleeps through a close. */
module BipThreads {
  import opened Bytes
  import opened BipBuffer

  /** Program points of bip_buffer_write; those from WTest on, except WLeft, WWait and WWoke,
      hold the lock. */
  datatype Writer =
    | WIdle
    | WEnter(src: seq<byte>)   // about to take the lock
    | WTest(src: seq<byte>)    // at the test of can_write
    | WLeft(src: seq<byte>)    // lock released, about to look at closed
    | WWait(src: seq<byte>)    // in WaitForSingleObject(evt_write)
    | WWoke(src: seq<byte>)    // woken, about to look at closed
    | WReset                   // can_write cleared, about to reset evt_write
    | WSig                     // about to test can_read
    | WSet                     // can_read set, about to set evt_read
    | WLeave                   // about to release the lock

  datatype Reader =
    | RIdle
    | REnter(len: nat)
    | RTest(len: nat)
    | RLeft(len: nat)
    | RWait(len: nat)
    | RWoke(len: nat)
    | RReset
    | RSig
    | RSet
    | RLeave

  /** Program points of bip_buffer_close, which takes no lock. */
  datatype Closer = CIdle | CTestRead | CSetRead | CTestWrite | CSetWrite | CDone

  datatype Lock = Free | ByWriter | ByReader

  /** `wrote` and `got` are the bytes accepted from the writer and handed to the reader so far. */
  datatype State = State(store: seq<byte>, canRead: bool, evtRead: bool, canWrite: bool, evtWrite: bool,
                         closed: bool, lock: Lock, w: Writer, r: Reader, c: Closer,
                         wrote: seq<byte>, got: seq<byte>)

  datatype Act = CallWrite(src: seq<byte>) | WGo | CallRead(len: nat) | RGo | CGo

  const INIT := State([], false, false, true, true, false, Free, WIdle, RIdle, CIdle, [], [])

  ghost predicate Can(s: State, a: Act)
  {
    match a
    case CallWrite(src) => s.w.WIdle? && src != []
    case CallRead(len) => s.r.RIdle? && len > 0
    case WGo =>
      && !s.w.WIdle?
      && (s.w.WEnter? ==> s.lock == Free)
      && (s.w.WWait? ==> s.evtWrite)
    case RGo =>
      && !s.r.RIdle?
      && (s.r.REnter? ==> s.lock == Free)
      && (s.r.RWait? ==> s.evtRead)
    case CGo => s.c != CDone
  }

  ghost function WStep(s: State): (s': State)
  {
    match s.w
    case WIdle => s
    case WEnter(src) => s.(lock := ByWriter, w := WTest(src))
    case WTest(src) =>
      if !s.canWrite then s.(lock := Free, w := WLeft(src))
      else
        var n := Min(|src|, if |s.store| < SIZE then SIZE - |s.store| else 0);
        var s1 := s.(store := s.store + src[..n], wrote := s.wrote + src[..n]);
        if |s1.store| == SIZE then s1.(canWrite := false, w := WReset) else s1.(w := WSig)
    case WLeft(src) => if s.closed then s.(w := WIdle) else s.(w := WWait(src))
    case WWait(src) => s.(w := WWoke(src))
    case WWoke(src) => if s.closed then s.(w := WIdle) else s.(w := WEnter(src))
    case WReset => s.(evtWrite := false, w := WSig)
    case WSig => if !s.canRead then s.(canRead := true, w := WSet) else s.(w := WLeave)
    case WSet => s.(evtRead := true, w := WLeave)
    case WLeave => s.(lock := Free, w := WIdle)
  }

  ghost function RStep(s: State): (s': State)
  {
    match s.r
    case RIdle => s
    case REnter(len) => s.(lock := ByReader, r := RTest(len))
    case RTest(len) =>
      if !s.canRead then s.(lock := Free, r := RLeft(len))
      else
        var n := Min(len, |s.store|);
        var s1 := s.(store := s.store[n..], got := s.got + s.store[..n]);
        if s1.store == [] then s1.(canRead := false, r := RReset) else s1.(r := RSig)
    case RLeft(len) => if s.closed then s.(r := RIdle) else s.(r := RWait(len))
    case RWait(len) => s.(r := RWoke(len))
    case RWoke(len) => if s.closed then s.(r := RIdle) else s.(r := REnter(len))
    case RReset => s.(evtRead := false, r := RSig)
    case RSig => if !s.canWrite then s.(canWrite := true, r := RSet) else s.(r := RLeave)
    case RSet => s.(evtWrite := true, r := RLeave)
    case RLeave => s.(lock := Free, r := RIdle)
  }

  /** Where the closer goes: it passes over an event whose flag it finds set. */
  function CNext(s: State): Closer
  {
    match s.c
    case CIdle => CTestRead
    case CTestRead => if !s.canRead then CSetRead else CTestWrite
    case CSetRead => CTestWrite
    case CTestWrite => if !s.canWrite then CSetWrite else CDone
    case CSetWrite => CDone
    case CDone => CDone
  }

  ghost function CStep(s: State): (s': State)
  {
    s.(closed := s.closed || s.c == CIdle, evtRead := s.evtRead || s.c == CSetRead,
       evtWrite := s.evtWrite || s.c == CSetWrite, c := CNext(s))
  }

  ghost function Step(s: State, a: Act): (s': State)
    requires Can(s, a)
  {
    match a
    case CallWrite(src) => s.(w := WEnter(src))
    case CallRead(len) => s.(r := REnter(len))
    case WGo => WStep(s)
    case RGo => RStep(s)
    case CGo => CStep(s)
  }

  ghost predicate Run(s: State, acts: seq<Act>, s': State)
    decreases |acts|
  {
    if acts == [] then s' == s
    else Can(s, acts[0]) && Run(Step(s, acts[0]), acts[1..], s')
  }

  // ---------------------------------------------------------------- the invariant

  predicate WriterHolds(w: Writer) { w.WTest? || w.WReset? || w.WSig? || w.WSet? || w.WLeave? }

  predicate ReaderHolds(r: Reader) { r.RTest? || r.RReset? || r.RSig? || r.RSet? || r.RLeave? }

  ghost predicate LockInv(s: State)
  {
    && (s.lock == ByWriter <==> WriterHolds(s.w))
    && (s.lock == ByReader <==> ReaderHolds(s.r))
    && (match s.w case WEnter(d) => d != [] case WTest(d) => d != [] case WLeft(d) => d != []
                  case WWait(d) => d != [] case WWoke(d) => d != [] case _ => true)
    && (match s.r case REnter(n) => n > 0 case RTest(n) => n > 0 case RLeft(n) => n > 0
                  case RWait(n) => n > 0 case RWoke(n) => n > 0 case _ => true)
  }

  /** The flags tell the truth, except inside the critical section of the side about to set them. */
  ghost predicate FlagInv(s: State)
  {
    && |s.store| <= SIZE
    && (s.w.WReset? || s.w.WSig? ==> s.store != [])
    && (s.r.RReset? || s.r.RSig? ==> |s.store| < SIZE)
    && (if s.w.WReset? || s.w.WSig? then true else s.canRead <==> s.store != [])
    && (if s.r.RReset? || s.r.RSig? then true else s.canWrite <==> |s.store| < SIZE)
    && (s.w.WReset? ==> !s.canWrite)
    && (s.r.RReset? ==> !s.canRead)
    && (s.w.WSet? ==> s.canRead)
    && (s.r.RSet? ==> s.canWrite)
  }

  /** An event follows its flag; only a close may set it early. */
  ghost predicate EventInv(s: State)
  {
    && (s.canRead ==> s.evtRead || s.w.WSet?)
    && (s.canWrite ==> s.evtWrite || s.r.RSet?)
    && (s.c == CIdle ==>
          && (s.evtRead ==> s.canRead || s.r.RReset?)
          && (s.evtWrite ==> s.canWrite || s.w.WReset?))
  }

  /** Whoever started to wait did so before `closed` was set; once the closer is past its test the
      waiter's event is set, or the other side is about to set it. */
  ghost predicate CloseInv(s: State)
  {
    && (s.closed <==> s.c != CIdle)
    && (s.r.RWait? && s.c != CIdle && s.c != CTestRead && s.c != CSetRead ==> s.evtRead || s.w.WSet?)
    && (s.w.WWait? && s.c == CDone ==> s.evtWrite || s.r.RSet?)
  }

  /** First in, first out. */
  ghost predicate DataInv(s: State) { s.wrote == s.got + s.store }

  ghost predicate Inv(s: State)
  {
    LockInv(s) && FlagInv(s) && EventInv(s) && CloseInv(s) && DataInv(s)
  }

  /** Outside the critical section only the thread's own place changes, and the lock on entry. */
  lemma WOutside(s: State)
    requires Inv(s) && Can(s, WGo) && !WriterHolds(s.w)
    ensures LockInv(WStep(s)) && FlagInv(WStep(s)) && EventInv(WStep(s))
  {
  }

  lemma WOutsideData(s: State)
    requires Inv(s) && Can(s, WGo) && !WriterHolds(s.w)
    ensures CloseInv(WStep(s)) && DataInv(WStep(s))
  {
  }

  lemma WLocks(s: State)
    requires LockInv(s) && Can(s, WGo) && WriterHolds(s.w)
    ensures LockInv(WStep(s))
  {
  }

  lemma WFlags(s: State)
    requires LockInv(s) && FlagInv(s) && Can(s, WGo) && WriterHolds(s.w)
    ensures FlagInv(WStep(s))
  {
  }

  lemma WEvents(s: State)
    requires LockInv(s) && FlagInv(s) && EventInv(s) && Can(s, WGo) && WriterHolds(s.w)
    ensures EventInv(WStep(s))
  {
  }

  lemma WCloses(s: State)
    requires LockInv(s) && EventInv(s) && CloseInv(s) && Can(s, WGo) && WriterHolds(s.w)
    ensures CloseInv(WStep(s))
  {
  }

  lemma WData(s: State)
    requires DataInv(s) && Can(s, WGo)
    ensures DataInv(WStep(s))
  {
    if s.w.WTest? && s.canWrite {
      var n := Min(|s.w.src|, if |s.store| < SIZE then SIZE - |s.store| else 0);
      assert s.wrote + s.w.src[..n] == s.got + (s.store + s.w.src[..n]);
    }
  }

  lemma WStepKeeps(s: State)
    requires Inv(s) && Can(s, WGo)
    ensures Inv(WStep(s))
  {
    if !WriterHolds(s.w) {
      WOutside(s);
      WOutsideData(s);
    } else {
      WLocks(s);
      WFlags(s);
      WEvents(s);
      WCloses(s);
      WData(s);
    }
  }

  /** Outside the critical section only the thread's own place changes, and the lock on entry. */
  lemma ROutside(s: State)
    requires Inv(s) && Can(s, RGo) && !ReaderHolds(s.r)
    ensures LockInv(RStep(s)) && FlagInv(RStep(s)) && EventInv(RStep(s))
  {
  }

  lemma ROutsideData(s: State)
    requires Inv(s) && Can(s, RGo) && !ReaderHolds(s.r)
    ensures CloseInv(RStep(s)) && DataInv(RStep(s))
  {
  }

  lemma RLocks(s: State)
    requires LockInv(s) && Can(s, RGo) && ReaderHolds(s.r)
    ensures LockInv(RStep(s))
  {
  }

  lemma RFlags(s: State)
    requires LockInv(s) && FlagInv(s) && Can(s, RGo) && ReaderHolds(s.r)
    ensures FlagInv(RStep(s))
  {
  }

  lemma REvents(s: State)
    requires LockInv(s) && FlagInv(s) && EventInv(s) && Can(s, RGo) && ReaderHolds(s.r)
    ensures EventInv(RStep(s))
  {
  }

  lemma RCloses(s: State)
    requires LockInv(s) && EventInv(s) && CloseInv(s) && Can(s, RGo) && ReaderHolds(s.r)
    ensures CloseInv(RStep(s))
  {
  }

  lemma RData(s: State)
    requires DataInv(s) && Can(s, RGo)
    ensures DataInv(RStep(s))
  {
    if s.r.RTest? && s.canRead {
      var n := Min(s.r.len, |s.store|);
      assert s.store == s.store[..n] + s.store[n..];
      assert s.wrote == s.got + s.store[..n] + s.store[n..];
    }
  }

  lemma RStepKeeps(s: State)
    requires Inv(s) && Can(s, RGo)
    ensures Inv(RStep(s))
  {
    if !ReaderHolds(s.r) {
      ROutside(s);
      ROutsideData(s);
    } else {
      RLocks(s);
      RFlags(s);
      REvents(s);
      RCloses(s);
      RData(s);
    }
  }

  lemma CLocks(s: State)
    requires LockInv(s)
    ensures LockInv(CStep(s))
  {
  }

  lemma CFlags(s: State)
    requires FlagInv(s) && DataInv(s)
    ensures FlagInv(CStep(s)) && DataInv(CStep(s))
  {
  }

  lemma CEvents(s: State)
    requires EventInv(s) && Can(s, CGo)
    ensures EventInv(CStep(s))
  {
  }

  lemma CCloses(s: State)
    requires EventInv(s) && CloseInv(s) && Can(s, CGo)
    ensures CloseInv(CStep(s))
  {
  }

  lemma CStepKeeps(s: State)
    requires Inv(s) && Can(s, CGo)
    ensures Inv(CStep(s))
  {
    CLocks(s);
    CFlags(s);
    CEvents(s);
    CCloses(s);
  }

  lemma CallsKeep(s: State, a: Act)
    requires Inv(s) && Can(s, a) && (a.CallWrite? || a.CallRead?)
    ensures Inv(Step(s, a))
  {
  }

  lemma StepKeeps(s: State, a: Act)
    requires Inv(s) && Can(s, a)
    ensures Inv(Step(s, a))
  {
    match a
    case WGo => WStepKeeps(s);
    case RGo => RStepKeeps(s);
    case CGo => CStepKeeps(s);
    case _ => CallsKeep(s, a);
  }

  lemma {:induction false} RunKeeps(s: State, acts: seq<Act>, s': State)
    requires Inv(s) && Run(s, acts, s')
    ensures Inv(s')
    decreases |acts|
  {
    if acts != [] {
      StepKeeps(s, acts[0]);
      RunKeeps(Step(s, acts[0]), acts[1..], s');
    }
  }

  // ---------------------------------------------------------------- what every run guarantees

  /** First in, first out, in every interleaving. */
  lemma FifoInEveryRun(acts: seq<Act>, s: State)
    requires Run(INIT, acts, s)
    ensures s.wrote == s.got + s.store && |s.store| <= SIZE
  {
    RunKeeps(INIT, acts, s);
  }

  predicate WriterBlocked(s: State) { s.w.WWait? && !s.evtWrite }

  predicate ReaderBlocked(s: State) { s.r.RWait? && !s.evtRead }

  /** No lost wake-up: a thread is blocked only while the queue leaves it nothing to do, or while
      the other side is inside its critical section, on the way to waking it. */
  lemma BlockedForAReason(acts: seq<Act>, s: State)
    requires Run(INIT, acts, s)
    ensures WriterBlocked(s) ==> |s.store| == SIZE || ReaderHolds(s.r)
    ensures ReaderBlocked(s) ==> s.store == [] || WriterHolds(s.w)
    ensures !(WriterBlocked(s) && ReaderBlocked(s))
  {
    RunKeeps(INIT, acts, s);
  }

  /** Outside the critical sections and before a close, each event is set exactly when its flag
      is, and the flag exactly when the queue allows the operation. */
  lemma EventsAgreeWithFlags(acts: seq<Act>, s: State)
    requires Run(INIT, acts, s) && s.lock == Free && !s.closed
    ensures s.evtRead == s.canRead == (s.store != [])
    ensures s.evtWrite == s.canWrite == (|s.store| < SIZE)
  {
    RunKeeps(INIT, acts, s);
  }

  /** After a close has finished nobody stays blocked: a waiting thread is free to go, or is freed
      by the very next statement of the other side. */
  lemma CloseWakesEveryone(acts: seq<Act>, s: State)
    requires Run(INIT, acts, s) && s.c == CDone
    ensures WriterBlocked(s) ==> Can(s, RGo) && !WriterBlocked(Step(s, RGo))
    ensures ReaderBlocked(s) ==> Can(s, WGo) && !ReaderBlocked(Step(s, WGo))
  {
    RunKeeps(INIT, acts, s);
  }

  lemma ClosedStep(s: State, a: Act)
    requires s.closed && Can(s, a)
    ensures Step(s, a).closed
    ensures Step(s, a).w.WWait? ==> s.w.WWait?
    ensures Step(s, a).r.RWait? ==> s.r.RWait?
  {
    match a
    case WGo => assert WStep(s).r == s.r && WStep(s).closed;
    case RGo => assert RStep(s).w == s.w && RStep(s).closed;
    case _ =>
  }

  /** ... and nobody falls asleep again: once a thread is awake in a closed buffer, it never waits
      in any continuation of the run. */
  lemma {:induction false} NobodyWaitsAfterClose(s: State, acts: seq<Act>, s': State)
    requires s.closed && Run(s, acts, s')
    ensures s'.closed
    ensures s'.w.WWait? ==> s.w.WWait?
    ensures s'.r.RWait? ==> s.r.RWait?
    decreases |acts|
  {
    if acts != [] {
      ClosedStep(s, acts[0]);
      NobodyWaitsAfterClose(Step(s, acts[0]), acts[1..], s');
    }
  }

  /** The lock is never held by a blocked thread, so whoever wants it gets it: some thread can
      always move, unless both are idle. */
  lemma NoDeadlock(acts: seq<Act>, s: State)
    requires Run(INIT, acts, s) && !(s.w.WIdle? && s.r.RIdle?)
    ensures Can(s, WGo) || Can(s, RGo) || (s.w.WWait? && s.r.RIdle?) || (s.r.RWait? && s.w.WIdle?)
  {
    RunKeeps(INIT, acts, s);
  }

  function CloseSteps(c: Closer): nat
  {
    match c case CIdle => 5 case CTestRead => 4 case CSetRead => 3 case CTestWrite => 2 case CSetWrite => 1 case CDone => 0
  }

  /** The closer needs nobody: by itself it gets to its end, and the buffer is closed then. */
  lemma {:induction false} CloserFinishes(s: State) returns (acts: seq<Act>, s': State)
    requires s.c != CIdle ==> s.closed
    ensures Run(s, acts, s') && s'.c == CDone && s'.closed && |acts| <= 5
    ensures forall k :: 0 <= k < |acts| ==> acts[k] == CGo
    ensures |acts| <= CloseSteps(s.c)
    decreases CloseSteps(s.c)
  {
    if s.c == CDone {
      acts, s' := [], s;
    } else {
      var rest;
      rest, s' := CloserFinishes(Step(s, CGo));
      acts := [CGo] + rest;
      assert acts[1..] == rest;
    }
  }

  // ---------------------------------------------------------------- what a call comes to

  /** Some first bytes of `src`, at least one, came behind `base`. */
  ghost predicate Took(base: seq<byte>, src: seq<byte>, now: seq<byte>)
  {
    exists n :: 0 < n <= |src| && now == base + src[..n]
  }

  /** The writer is in a call with `src`, which began when `base` had been accepted, or has come back from it:
      with some bytes accepted, or with none because the buffer is closed. */
  ghost predicate WriteCalled(s: State, base: seq<byte>, src: seq<byte>)
  {
    match s.w
    case WEnter(d) => d == src && s.wrote == base
    case WTest(d) => d == src && s.wrote == base
    case WLeft(d) => d == src && s.wrote == base
    case WWait(d) => d == src && s.wrote == base
    case WWoke(d) => d == src && s.wrote == base
    case WIdle => Took(base, src, s.wrote) || (s.wrote == base && s.closed)
    case _ => Took(base, src, s.wrote)
  }

  /** At most `len` bytes, at least one, were handed over. */
  ghost predicate Gave(base: seq<byte>, len: nat, now: seq<byte>)
  {
    base <= now && 0 < |now| - |base| <= len
  }

  ghost predicate ReadCalled(s: State, base: seq<byte>, len: nat)
  {
    match s.r
    case REnter(n) => n == len && s.got == base
    case RTest(n) => n == len && s.got == base
    case RLeft(n) => n == len && s.got == base
    case RWait(n) => n == len && s.got == base
    case RWoke(n) => n == len && s.got == base
    case RIdle => Gave(base, len, s.got) || (s.got == base && s.closed)
    case _ => Gave(base, len, s.got)
  }

  /** Only its own steps move a thread, and what it did stays. */
  lemma WriterUndisturbed(s: State, a: Act)
    requires Can(s, a) && a != WGo && !a.CallWrite?
    ensures Step(s, a).w == s.w && Step(s, a).wrote == s.wrote && (s.closed ==> Step(s, a).closed)
  {
  }

  lemma ReaderUndisturbed(s: State, a: Act)
    requires Can(s, a) && a != RGo && !a.CallRead?
    ensures Step(s, a).r == s.r && Step(s, a).got == s.got && (s.closed ==> Step(s, a).closed)
  {
  }

  lemma WriteCallStep(s: State, a: Act, base: seq<byte>, src: seq<byte>)
    requires Inv(s) && Can(s, a) && !a.CallWrite? && WriteCalled(s, base, src)
    ensures WriteCalled(Step(s, a), base, src)
  {
    if a == WGo { WriterGoesOn(s, base, src); } else { WriterUndisturbed(s, a); }
  }

  lemma WriterGoesOn(s: State, base: seq<byte>, src: seq<byte>)
    requires LockInv(s) && FlagInv(s) && !s.w.WIdle? && WriteCalled(s, base, src)
    ensures WriteCalled(WStep(s), base, src)
  {
    if s.w.WTest? && s.canWrite {
      var n := Min(|src|, SIZE - |s.store|);
      assert 0 < n <= |src| && WStep(s).wrote == base + src[..n];
    }
  }

  lemma ReadCallStep(s: State, a: Act, base: seq<byte>, len: nat)
    requires Inv(s) && Can(s, a) && !a.CallRead? && ReadCalled(s, base, len)
    ensures ReadCalled(Step(s, a), base, len)
  {
    if a == RGo { ReaderGoesOn(s, base, len); } else { ReaderUndisturbed(s, a); }
  }

  lemma ReaderGoesOn(s: State, base: seq<byte>, len: nat)
    requires LockInv(s) && FlagInv(s) && !s.r.RIdle? && ReadCalled(s, base, len)
    ensures ReadCalled(RStep(s), base, len)
  {
  }

  /** No call of the writer, or of the reader, among these. */
  ghost predicate NoWrites(acts: seq<Act>) { forall k :: 0 <= k < |acts| ==> !acts[k].CallWrite? }

  ghost predicate NoReads(acts: seq<Act>) { forall k :: 0 <= k < |acts| ==> !acts[k].CallRead? }

  lemma {:induction false} WriteCallRun(s: State, acts: seq<Act>, s': State, base: seq<byte>, src: seq<byte>)
    requires Inv(s) && Run(s, acts, s') && NoWrites(acts) && WriteCalled(s, base, src)
    ensures WriteCalled(s', base, src)
    decreases |acts|
  {
    if acts != [] {
      StepKeeps(s, acts[0]);
      WriteCallStep(s, acts[0], base, src);
      assert forall k :: 0 <= k < |acts[1..]| ==> acts[1..][k] == acts[k + 1];
      WriteCallRun(Step(s, acts[0]), acts[1..], s', base, src);
    }
  }

  lemma {:induction false} ReadCallRun(s: State, acts: seq<Act>, s': State, base: seq<byte>, len: nat)
    requires Inv(s) && Run(s, acts, s') && NoReads(acts) && ReadCalled(s, base, len)
    ensures ReadCalled(s', base, len)
    decreases |acts|
  {
    if acts != [] {
      StepKeeps(s, acts[0]);
      ReadCallStep(s, acts[0], base, len);
      assert forall k :: 0 <= k < |acts[1..]| ==> acts[1..][k] == acts[k + 1];
      ReadCallRun(Step(s, acts[0]), acts[1..], s', base, len);
    }
  }

  /** What a call comes to, in every run and however the threads interleave: a write that has returned had some
      of its first bytes accepted, or nothing and the buffer is closed ... */
  lemma WriteReturns(before: seq<Act>, s0: State, src: seq<byte>, acts: seq<Act>, s: State)
    requires Run(INIT, before, s0) && NoWrites(acts) && Can(s0, CallWrite(src))
    requires Run(Step(s0, CallWrite(src)), acts, s) && s.w.WIdle?
    ensures Took(s0.wrote, src, s.wrote) || (s.wrote == s0.wrote && s.closed)
  {
    RunKeeps(INIT, before, s0);
    StepKeeps(s0, CallWrite(src));
    WriteCallRun(Step(s0, CallWrite(src)), acts, s, s0.wrote, src);
  }

  /** ... and a read that has returned got some bytes, or nothing and the buffer is closed. */
  lemma ReadReturns(before: seq<Act>, s0: State, len: nat, acts: seq<Act>, s: State)
    requires Run(INIT, before, s0) && NoReads(acts) && Can(s0, CallRead(len))
    requires Run(Step(s0, CallRead(len)), acts, s) && s.r.RIdle?
    ensures Gave(s0.got, len, s.got) || (s.got == s0.got && s.closed)
  {
    RunKeeps(INIT, before, s0);
    StepKeeps(s0, CallRead(len));
    ReadCallRun(Step(s0, CallRead(len)), acts, s, s0.got, len);
  }

  /** Whoever finds the buffer closed before or after waiting comes back without touching it; in an open buffer a
      thread that found no room or no bytes waits, and tries again when it is woken. */
  lemma WaitsUnlessClosed(s: State)
    ensures s.w.WLeft? ==> WStep(s) == s.(w := if s.closed then WIdle else WWait(s.w.src))
    ensures s.w.WWoke? ==> WStep(s) == s.(w := if s.closed then WIdle else WEnter(s.w.src))
    ensures s.r.RLeft? ==> RStep(s) == s.(r := if s.closed then RIdle else RWait(s.r.len))
    ensures s.r.RWoke? ==> RStep(s) == s.(r := if s.closed then RIdle else REnter(s.r.len))
  {
  }

  // ---------------------------------------------------------------- the buffer of the threads is the ring buffer

  /** The ring buffer is in the state that the threads see. */
  ghost predicate Agrees(b: Bip, s: State)
    reads b, b.buff
  {
    && b.Valid() && b.Contents() == s.store && b.closed == s.closed
    && b.canRead == s.canRead && b.evtRead == s.evtRead && b.canWrite == s.canWrite && b.evtWrite == s.evtWrite
  }

  /** The writer alone, from its test to where it leaves the critical section or is about to. */
  ghost function WPass(s: State): (s': State)
    requires s.w.WTest?
  {
    var s1 := WStep(s);
    if s1.w.WLeft? then s1
    else
      var s2 := if s1.w.WReset? then WStep(s1) else s1;
      var s3 := WStep(s2);
      if s3.w.WSet? then WStep(s3) else s3
  }

  ghost function RPass(s: State): (s': State)
    requires s.r.RTest?
  {
    var s1 := RStep(s);
    if s1.r.RLeft? then s1
    else
      var s2 := if s1.r.RReset? then RStep(s1) else s1;
      var s3 := RStep(s2);
      if s3.r.RSet? then RStep(s3) else s3
  }

  /** What the passage of a writer that finds room comes to. */
  function Wrote(s: State, src: seq<byte>, store: seq<byte>): State
  {
    s.(store := store, wrote := s.wrote + src, canRead := true, canWrite := |store| < SIZE,
       evtWrite := s.evtWrite && |store| < SIZE, evtRead := s.evtRead || !s.canRead, w := WLeave)
  }

  lemma WPassIs(s: State)
    requires FlagInv(s) && EventInv(s) && s.w.WTest? && s.canWrite
    ensures var src := s.w.src[..Min(|s.w.src|, SIZE - |s.store|)];
            WPass(s) == Wrote(s, src, s.store + src)
  {
    var src := s.w.src[..Min(|s.w.src|, SIZE - |s.store|)];
    var t := s.(store := s.store + src, wrote := s.wrote + src);
    var full := |t.store| == SIZE;
    var s1, s2 := WStep(s), t.(canWrite := !full, evtWrite := s.evtWrite && !full, w := WSig);
    assert s1 == if full then t.(canWrite := false, w := WReset) else t.(w := WSig);
    assert (if s1.w.WReset? then WStep(s1) else s1) == s2;
    assert WStep(s2) == if s.canRead then s2.(w := WLeave) else s2.(canRead := true, w := WSet);
  }

  function Got(s: State, dst: seq<byte>, store: seq<byte>): State
  {
    s.(store := store, got := s.got + dst, canWrite := true, canRead := store != [],
       evtRead := s.evtRead && store != [], evtWrite := s.evtWrite || !s.canWrite, r := RLeave)
  }

  lemma RPassIs(s: State)
    requires FlagInv(s) && EventInv(s) && s.r.RTest? && s.canRead
    ensures var n := Min(s.r.len, |s.store|);
            RPass(s) == Got(s, s.store[..n], s.store[n..])
  {
    var n := Min(s.r.len, |s.store|);
    var t := s.(store := s.store[n..], got := s.got + s.store[..n]);
    var empty := t.store == [];
    var s1, s2 := RStep(s), t.(canRead := !empty, evtRead := s.evtRead && !empty, r := RSig);
    assert s1 == if empty then t.(canRead := false, r := RReset) else t.(r := RSig);
    assert (if s1.r.RReset? then RStep(s1) else s1) == s2;
    assert RStep(s2) == if s.canWrite then s2.(r := RLeave) else s2.(canWrite := true, r := RSet);
  }

  /** Refinement: while the writer holds the lock, one call of the ring buffer does what its statements do to
      the queue, the flags and the events, whether there is room or not. */
  method WriterPass(b: Bip, src: seq<byte>, ghost s: State) returns (done: bool, count: nat)
    requires Inv(s) && s.w == WTest(src) && Agrees(b, s)
    modifies b, b.buff
    ensures Agrees(b, WPass(s)) && count <= |src| && WPass(s).wrote == s.wrote + src[..count]
    ensures if done then WPass(s).w.WLeave? else WPass(s).w == WLeft(src)
  {
    if s.canWrite { WPassIs(s); }
    done, count := b.Write(src);
    assert s.store + [] == s.store && s.wrote + [] == s.wrote;
  }

  /** And so it does for the reader. */
  method ReaderPass(b: Bip, len: nat, ghost s: State) returns (done: bool, dst: seq<byte>)
    requires Inv(s) && s.r == RTest(len) && Agrees(b, s)
    modifies b, b.buff
    ensures Agrees(b, RPass(s)) && RPass(s).got == s.got + dst
    ensures if done then RPass(s).r.RLeave? else RPass(s).r == RLeft(len)
  {
    if s.canRead { RPassIs(s); }
    done, dst := b.Read(len);
    assert s.got + [] == s.got && [] + b.Contents() == b.Contents();
    assert s.store[..|dst|] == dst && s.store[|dst|..] == b.Contents();
  }
}
