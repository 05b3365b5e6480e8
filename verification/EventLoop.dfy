/** The select-based event loop: a table of registered descriptors, three interest sets, a
    high-water mark and a list of pending events, which must agree while callbacks install,
    change and remove events. */
module EventLoop {

  datatype Event = Rd | Wr | Er

  const FD_LIMIT: nat := 32000
  const FIRST_TABLE: nat := 256

  class Fdevent {
    const fd: nat
    /** The event bits of `state`: what the owner wants to hear about. */
    var want: set<Event>
    var active: bool
    var pending: bool
    /** What has happened and has not been reported yet. */
    var events: set<Event>

    constructor (fd: nat)
      ensures this.fd == fd && want == {} && events == {} && active && !pending
    {
      this.fd := fd;
      want, events, active, pending := {}, {}, true, false;
    }
  }

  /** What select() did: it filled in three sets, or failed. */
  datatype Selected = Ready(r: set<nat>, w: set<nat>, e: set<nat>) | Interrupted | BadDescriptor | OtherError

  /** What a callback may do to the loop. */
  datatype Action = Install(newFd: int) | Change(fd: nat, want: set<Event>) | Remove(fd: nat)

  /** What the loop waits for: the interest sets, and what each registered event has left to report. */
  datatype Interest = Interest(rd: set<nat>, wr: set<nat>, er: set<nat>, left: map<Fdevent, set<Event>>)

  /** What happened, in order: select() was called, a callback was called, it did something, an event came
      or went. */
  datatype Entry =
    | Polled(sel: Selected, bad: set<nat>, at: Interest)
    | Called(f: Fdevent, events: set<Event>)
    | Did(a: Action)
    | Installed(f: Fdevent)
    | Removed(f: Fdevent)

  ghost predicate NoCallAfterRemove(log: seq<Entry>)
  {
    forall i, j :: 0 <= i < j < |log| && log[i].Removed? && log[j].Called? ==> log[i].f != log[j].f
  }

  ghost predicate InstalledBetween(log: seq<Entry>, i: nat, j: nat, f: Fdevent)
    requires j <= |log|
  {
    exists k :: i < k < j && log[k] == Installed(f)
  }

  /** Once a callback has removed a descriptor, nothing is called back for it unless it was installed
      again in between. */
  ghost predicate NoCallAfterRequest(log: seq<Entry>)
  {
    forall i, j :: 0 <= i < j < |log| && log[j].Called? && log[i] == Did(Remove(log[j].f.fd)) ==>
                     InstalledBetween(log, i, j, log[j].f)
  }

  /** The calls of select(), the callbacks and what they did. */
  ghost function Steps(log: seq<Entry>): seq<Entry>
  {
    if log == [] then [] else
      var e := log[|log| - 1];
      Steps(log[..|log| - 1]) + if e.Installed? || e.Removed? then [] else [e]
  }

  ghost function Dids(script: seq<Action>): seq<Entry> { seq(|script|, i requires 0 <= i < |script| => Did(script[i])) }

  function Script(scripts: seq<seq<Action>>, i: nat): seq<Action> { if i < |scripts| then scripts[i] else [] }

  /** These callbacks, each followed by all the actions of its script. */
  ghost function Rounds(calls: seq<Entry>, scripts: seq<seq<Action>>): seq<Entry>
  {
    if calls == [] then [] else
      var n := |calls| - 1;
      Rounds(calls[..n], scripts) + [calls[n]] + Dids(Script(scripts, n))
  }

  predicate Names(a: Action, fd: nat) { !a.Install? && a.fd == fd }

  /** None of the first `n` actions names the descriptor. */
  ghost predicate Spares(script: seq<Action>, n: nat, fd: nat)
    requires n <= |script|
  {
    forall k :: 0 <= k < n ==> !Names(script[k], fd)
  }

  lemma NextScript(scripts: seq<seq<Action>>, i: nat)
    ensures forall fd: nat :: RemovedBy(scripts, i + 1, fd) <==> RemovedBy(scripts, i, fd) || Remove(fd) in Script(scripts, i)
    ensures forall fd: nat :: SparedBy(scripts, i + 1, fd) <==>
              SparedBy(scripts, i, fd) && Spares(Script(scripts, i), |Script(scripts, i)|, fd)
  {
  }

  /** None of the first `n` callbacks changes or removes the descriptor's event. */
  ghost predicate SparedBy(scripts: seq<seq<Action>>, n: nat, fd: nat)
  {
    forall i :: 0 <= i < n && i < |scripts| ==> Spares(scripts[i], |scripts[i]|, fd)
  }

  /** One of the first `n` callbacks removes the descriptor's event. */
  ghost predicate RemovedBy(scripts: seq<seq<Action>>, n: nat, fd: nat)
  {
    exists i :: 0 <= i < n && i < |scripts| && Remove(fd) in scripts[i]
  }

  class Loop {
    var table: seq<Fdevent?>
    var readFds: set<nat>
    var writeFds: set<nat>
    var errorFds: set<nat>
    var selectN: nat
    var pending: seq<Fdevent>
    /** Every event ever installed. */
    ghost var all: set<Fdevent>
    ghost var log: seq<Entry>

    /** fd_table[fd], or null beyond the table. */
    function At(fd: nat): Fdevent?
      reads this`table
    {
      if fd < |table| then table[fd] else null
    }

    /** The table, the flags of the events and the high-water mark agree. */
    ghost predicate TableInv()
      reads this`table, this`selectN, this`all, all`active
    {
      && selectN <= |table|
      && (forall i :: 0 <= i < |table| && table[i] != null ==>
            table[i] in all && table[i].fd == i && table[i].active && i < selectN)
      && (forall f :: f in all && f.active ==> At(f.fd) == f)
    }

    /** Each interest set holds exactly the registered descriptors that want it. */
    ghost predicate SetsInv()
      reads this`table, this`readFds, this`writeFds, this`errorFds, this`all, all`active, all`want
    {
      && (forall f :: f in all && f.active ==>
            && (f.fd in readFds <==> Rd in f.want)
            && (f.fd in writeFds <==> Wr in f.want)
            && (f.fd in errorFds <==> Er in f.want))
      && (forall n :: n in readFds || n in writeFds || n in errorFds ==> At(n) != null)
    }

    /** An event is marked pending exactly if it is on the list, once, and exactly if it has something to
        report. */
    ghost predicate PendingInv()
      reads this`pending, this`all, all`active, all`pending, all`events
    {
      && (forall i, j :: 0 <= i < j < |pending| ==> pending[i] != pending[j])
      && (forall f :: f in pending ==> f in all && f.pending && f.active && f.events != {})
      && (forall f :: f in all && f.pending ==> f in pending)
      && (forall f :: f in all && f.events != {} ==> f.pending)
    }

    ghost predicate LogInv()
      reads this`log, this`all, all`active
    {
      && NoCallAfterRemove(log)
      && (forall i :: 0 <= i < |log| && log[i].Removed? ==> log[i].f in all && !log[i].f.active)
    }

    /** An event that is registered was installed after all removals of its descriptor. */
    ghost predicate RequestInv()
      reads this`log, this`all, all`active
    {
      && NoCallAfterRequest(log)
      && (forall i, f :: 0 <= i < |log| && f in all && f.active && log[i] == Did(Remove(f.fd)) ==>
                           InstalledBetween(log, i, |log|, f))
    }

    ghost predicate Agrees()
      reads this, all
    {
      TableInv() && SetsInv() && PendingInv() && LogInv()
    }

    ghost predicate Valid()
      reads this, all
    {
      Agrees() && RequestInv()
    }

    constructor ()
      ensures Valid() && table == [] && pending == [] && log == []
    {
      table, pending, log, all := [], [], [], {};
      readFds, writeFds, errorFds, selectN := {}, {}, {}, 0;
    }

    /** The growth of the table in fdevent_register: 256 entries, then doubled. */
    method Grow(fd: nat)
      requires Valid() && fd >= |table|
      modifies this`table
      ensures Valid() && |table| > fd && |table| > |old(table)|
      ensures forall n: nat :: At(n) == old(At(n))
    {
      var max := if |table| == 0 then FIRST_TABLE else |table|;
      while max <= fd
        invariant max >= |table| && max > 0
        decreases fd - max
      {
        max := max * 2;
      }
      table := table + seq(max - |table|, _ => null);
    }

    /** fdevent_install with fdevent_register and fdevent_connect; null where the source aborts.
        The descriptor is freshly opened, so no event is registered for it. */
    method InstallEvent(fd: int) returns (f: Fdevent?)
      requires Valid() && (fd >= 0 ==> At(fd) == null)
      modifies this
      ensures Valid() && pending == old(pending)
      ensures log == old(log) + if f == null then [] else [Installed(f)]
      ensures Steps(log) == Steps(old(log))
      ensures f == null <==> fd < 0 || (fd >= old(|table|) && fd > FD_LIMIT)
      ensures f == null ==> table == old(table) && selectN == old(selectN) && all == old(all)
      ensures f != null ==>
                && fresh(f) && f.fd == fd && f.want == {} && all == old(all) + {f}
                && At(fd) == f && (forall n: nat :: n != fd ==> At(n) == old(At(n)))
                && fd < selectN && |table| >= old(|table|)
    {
      f := null;
      if fd < 0 { return; }
      if fd >= |table| {
        if fd > FD_LIMIT { return; }
        Grow(fd);
      }
      f := Register(fd);
    }

    /** The rest of fdevent_register, and fdevent_connect. */
    method Register(fd: nat) returns (f: Fdevent)
      requires Valid() && fd < |table| && table[fd] == null
      modifies this`table, this`selectN, this`all, this`log
      ensures Valid() && fresh(f) && f.fd == fd && f.want == {} && all == old(all) + {f}
      ensures log == old(log) + [Installed(f)] && Steps(log) == Steps(old(log))
      ensures table == old(table)[fd := f] && fd < selectN
    {
      f := Enter(fd);
      Note(Installed(f));
    }

    method Enter(fd: nat) returns (f: Fdevent)
      requires Agrees() && fd < |table| && table[fd] == null
      modifies this`table, this`selectN, this`all
      ensures Agrees() && fresh(f) && f.fd == fd && f.want == {} && all == old(all) + {f}
      ensures table == old(table)[fd := f] && fd < selectN
    {
      f := new Fdevent(fd);
      table := table[fd := f];
      if fd >= selectN { selectN := fd + 1; }
      all := all + {f};
    }

    ghost function Interests(): Interest
      reads this, all
    {
      Interest(readFds, writeFds, errorFds, map f | f in all && f.active :: f.events)
    }

    /** One more entry. */
    ghost method Note(e: Entry)
      requires LogInv() && NoCallAfterRequest(log)
      requires forall i, f :: 0 <= i < |log| && f in all && f.active && log[i] == Did(Remove(f.fd)) ==>
                                e == Installed(f) || InstalledBetween(log, i, |log|, f)
      requires e.Polled? ==> e.at == Interests()
      requires e.Called? ==> e.f in all && e.f.active
      requires e.Removed? ==> e.f in all && !e.f.active
      requires e.Did? ==> forall f :: f in all && f.active ==> e.a != Remove(f.fd)
      modifies this`log
      ensures LogInv() && RequestInv() && log == old(log) + [e]
      ensures Steps(log) == Steps(old(log)) + if e.Installed? || e.Removed? then [] else [e]
    {
      StepsAppend(log, e);
      RemoveAppend(log, e);
      RequestAppend(log, e);
      InstalledAppend(log, e, set f | f in all && f.active);
      assert forall i :: 0 <= i <= |log| && (log + [e])[i].Removed? ==>
               (i < |log| && (log + [e])[i] == log[i]) || (i == |log| && (log + [e])[i] == e);
      log := log + [e];
    }

    /** fdevent_update. */
    method UpdateSets(f: Fdevent, want: set<Event>)
      modifies this`readFds, this`writeFds, this`errorFds
      ensures readFds == if Rd in want then old(readFds) + {f.fd} else old(readFds) - {f.fd}
      ensures writeFds == if Wr in want then old(writeFds) + {f.fd} else old(writeFds) - {f.fd}
      ensures errorFds == if Er in want then old(errorFds) + {f.fd} else old(errorFds) - {f.fd}
    {
      if Rd in want { readFds := readFds + {f.fd}; } else { readFds := readFds - {f.fd}; }
      if Wr in want { writeFds := writeFds + {f.fd}; } else { writeFds := writeFds - {f.fd}; }
      if Er in want { errorFds := errorFds + {f.fd}; } else { errorFds := errorFds - {f.fd}; }
    }

    /** fdevent_plist_remove. */
    method Unlist(f: Fdevent)
      requires f in pending
      requires forall i, j :: 0 <= i < j < |pending| ==> pending[i] != pending[j]
      modifies this`pending
      ensures |pending| == |old(pending)| - 1
      ensures forall i, j :: 0 <= i < j < |pending| ==> pending[i] != pending[j]
      ensures forall g :: g in pending ==> g in old(pending) && g != f
      ensures forall g :: g in old(pending) && g != f ==> g in pending
    {
      var i := 0;
      while pending[i] != f
        invariant 0 <= i < |pending| && f !in pending[..i]
        decreases |pending| - i
      {
        i := i + 1;
      }
      pending := pending[..i] + pending[i + 1..];
    }

    /** The first half of fdevent_set: the interest sets follow the event. */
    method Rewant(f: Fdevent, want: set<Event>)
      requires Agrees() && f in all
      modifies this`readFds, this`writeFds, this`errorFds, f`want
      ensures Agrees() && f.want == want
    {
      if f.active { UpdateSets(f, want); }
      f.want := want;
    }

    /** The second half: a pending event loses the bits that are now wanted, as written. */
    method Withdraw(f: Fdevent, bits: set<Event>)
      requires Agrees() && f in all && f.pending
      modifies this`pending, f`events, f`pending
      ensures Agrees() && f.events == old(f.events) - bits && (f.pending <==> f.events != {})
      ensures forall g :: g in pending ==> g in old(pending)
      ensures forall g :: g in old(pending) && g != f ==> g in pending
      ensures |pending| <= |old(pending)|
    {
      f.events := f.events - bits;
      if f.events == {} {
        Unlist(f);
        f.pending := false;
      }
    }

    /** fdevent_set. */
    method SetEvents(f: Fdevent, want: set<Event>)
      requires Valid() && f in all
      modifies this`readFds, this`writeFds, this`errorFds, this`pending, f`want, f`events, f`pending
      ensures Valid() && f.want == want
      ensures forall g :: g in pending ==> g in old(pending)
      ensures forall g :: g in old(pending) && g != f ==> g in pending
      ensures |pending| <= |old(pending)|
      ensures old(f.pending) && old(f.want) != want ==>
                f.events == old(f.events) - want && (f.pending <==> f.events != {})
    {
      if f.want == want { return; }
      Rewant(f, want);
      if f.pending { Withdraw(f, want); }
    }

    /** fdevent_disconnect and fdevent_unregister.  The high-water mark is recomputed while the
        event is still in the table. */
    method Unregister(f: Fdevent)
      requires Agrees() && f in all && f.active && !f.pending
      modifies this`readFds, this`writeFds, this`errorFds, this`selectN, this`table, f`active
      ensures Agrees() && !f.active
      ensures forall n: nat :: At(n) == if n == f.fd then null else old(At(n))
    {
      Disconnect(f);
      table := table[f.fd := null];
      f.active := false;
    }

    method Disconnect(f: Fdevent)
      requires TableInv() && selectN > 0
      modifies this`readFds, this`writeFds, this`errorFds, this`selectN
      ensures readFds == old(readFds) - {f.fd} && writeFds == old(writeFds) - {f.fd}
      ensures errorFds == old(errorFds) - {f.fd} && TableInv()
    {
      readFds, writeFds, errorFds := readFds - {f.fd}, writeFds - {f.fd}, errorFds - {f.fd};
      var n := HighestUsed();
      selectN := n + 1;
    }

    /** The scan of fdevent_disconnect. */
    method HighestUsed() returns (n: nat)
      requires TableInv() && selectN > 0
      ensures n < selectN
      ensures forall k :: 0 <= k < |table| && table[k] != null ==> k <= n
    {
      n := 0;
      for i := 0 to selectN
        invariant n < selectN
        invariant forall k :: 0 <= k < i && table[k] != null ==> k <= n
      {
        if table[i] != null { n := i; }
      }
    }

    /** fdevent_remove. */
    method RemoveEvent(f: Fdevent)
      requires Valid() && f in all
      modifies this, f`want, f`events, f`pending, f`active
      ensures Valid() && all == old(all) && !f.active && !f.pending
      ensures log == old(log) + [Removed(f)] && Steps(log) == Steps(old(log))
      ensures forall g :: g in pending ==> g in old(pending) && g != f
      ensures forall g :: g in old(pending) && g != f ==> g in pending
      ensures |pending| <= |old(pending)|
      ensures forall n: nat :: At(n) == if old(f.active) && n == f.fd then null else old(At(n))
    {
      Detach(f);
      Note(Removed(f));
    }

    method Detach(f: Fdevent)
      requires Agrees() && f in all
      modifies this`readFds, this`writeFds, this`errorFds, this`selectN, this`table, this`pending
      modifies f`want, f`events, f`pending, f`active
      ensures Agrees() && !f.active && !f.pending
      ensures forall g :: g in pending ==> g in old(pending) && g != f
      ensures forall g :: g in old(pending) && g != f ==> g in pending
      ensures |pending| <= |old(pending)|
      ensures forall n: nat :: At(n) == if old(f.active) && n == f.fd then null else old(At(n))
    {
      if f.pending { Withdraw(f, f.events); }
      if f.active { Unregister(f); }
      f.want, f.events := {}, {};
    }

    /** Marking an event: it joins the pending list unless it is on it already. */
    method Post(f: Fdevent, evs: set<Event>)
      requires Valid() && f in all && f.active && evs != {}
      modifies this`pending, f`events, f`pending
      ensures Valid() && f.events == old(f.events) + evs && f.pending
      ensures pending == if old(f.pending) then old(pending) else old(pending) + [f]
    {
      f.events := f.events + evs;
      if f.pending { return; }
      f.pending := true;
      pending := pending + [f];
    }

    /** Those of the descriptors that are in the table. */
    ghost function Registered(fds: set<nat>): set<nat>
      reads this`table
    {
      set i | i in fds && At(i) != null
    }

    /** fdevent_fd_check: registered descriptors that the system says are bad. */
    method CheckFds(bad: set<nat>) returns (r: set<nat>, n: nat)
      requires Valid()
      ensures r == Registered(bad) && n == |r|
    {
      r, n := {}, 0;
      for i := 0 to selectN
        invariant r == set k | k in bad && k < i && At(k) != null
        invariant n == |r|
      {
        if table[i] != null && i in bad {
          r := r + {i};
          n := n + 1;
        }
      }
    }

    /** fdevent_process: every descriptor that select reports becomes pending with what was
        reported; and if nothing is reported, bad descriptors are made readable. */
    method Process(sel: Selected, bad: set<nat>) returns (r: set<nat>, w: set<nat>, e: set<nat>)
      requires Valid()
      modifies this`pending, all`events, all`pending
      ensures Valid()
      ensures forall f :: f in all && f.active ==> f.events == old(f.events) + Bits(r, w, e, f.fd)
      ensures forall f :: f in all && f.active && Bits(r, w, e, f.fd) != {} ==> f.pending && f in pending
      ensures forall f :: f in all && !f.active ==> f.events == old(f.events)
      ensures old(Reports(sel)) ==> r == sel.r * old(readFds) && w == sel.w * old(writeFds) && e == sel.e * old(errorFds)
      ensures (sel.Ready? && !old(Reports(sel))) || sel.BadDescriptor? ==>
                r == old(Registered(bad)) && w == {} && e == {}
      ensures sel.Interrupted? || sel.OtherError? ==> r == {} && w == {} && e == {}
    {
      var n;
      r, w, e, n := Collect(sel, bad);
      MarkAll(r, w, e, n);
    }

    /** The first part of fdevent_process: what is reported, and how many bits. */
    method Collect(sel: Selected, bad: set<nat>) returns (r: set<nat>, w: set<nat>, e: set<nat>, n: nat)
      requires Valid()
      ensures n == |r| + |w| + |e|
      ensures forall i :: i in r || i in w || i in e ==> At(i) != null
      ensures Reports(sel) ==> r == sel.r * readFds && w == sel.w * writeFds && e == sel.e * errorFds
      ensures (sel.Ready? && !Reports(sel)) || sel.BadDescriptor? ==>
                r == Registered(bad) && w == {} && e == {}
      ensures sel.Interrupted? || sel.OtherError? ==> r == {} && w == {} && e == {}
    {
      r, w, e, n := {}, {}, {}, 0;
      if sel.Interrupted? || sel.OtherError? { return; }
      if sel.Ready? {
        // select() reports only descriptors it was asked about, and returns how many bits it set.
        r, w, e := sel.r * readFds, sel.w * writeFds, sel.e * errorFds;
        n := |r| + |w| + |e|;
      }
      if n == 0 { r, n := CheckFds(bad); }
    }

    /** select() found something. */
    predicate Reports(sel: Selected)
      reads this`readFds, this`writeFds, this`errorFds
    {
      sel.Ready? && sel.r * readFds + sel.w * writeFds + sel.e * errorFds != {}
    }

    /** All that was reported is marked. */
    method MarkAll(r: set<nat>, w: set<nat>, e: set<nat>, count: nat)
      requires Valid() && count == |r| + |w| + |e|
      requires forall i :: i in r || i in w || i in e ==> At(i) != null
      modifies this`pending, all`events, all`pending
      ensures Valid()
      ensures forall f :: f in all && f.active ==> f.events == old(f.events) + Bits(r, w, e, f.fd)
      ensures forall f :: f in all && f.active && Bits(r, w, e, f.fd) != {} ==> f.pending && f in pending
      ensures forall f :: f in all && !f.active ==> f.events == old(f.events)
    {
      ghost var left := (i: nat) => Left(r, w, e, i);
      LeftStart(r, w, e);
      forall i: nat ensures CountsDown(left, r, w, e, i) { LeftNext(r, w, e, i); }
      var i := Sweep(r, w, e, count, left);
      if i < selectN { NothingLeft(r, w, e, i); }
    }

    /** The loop of fdevent_process, which stops early once all reported bits are accounted for. */
    method Sweep(r: set<nat>, w: set<nat>, e: set<nat>, count: nat, ghost left: nat -> nat) returns (i: nat)
      requires Valid() && count == left(0) && forall i: nat :: CountsDown(left, r, w, e, i)
      requires forall i :: i in r || i in w || i in e ==> At(i) != null
      modifies this`pending, all`events, all`pending
      ensures Valid()
      ensures i <= selectN && (i < selectN ==> left(i) == 0)
      ensures forall f :: f in all && f.active && f.fd < i ==>
                f.events == old(f.events) + Bits(r, w, e, f.fd)
      ensures forall f :: f in all && !(f.active && f.fd < i) ==> f.events == old(f.events)
    {
      var n: int := count;
      i := 0;
      while i < selectN && n > 0
        invariant 0 <= i <= selectN && Valid()
        invariant n == left(i)
        invariant forall f :: f in all && f.active && f.fd < i ==>
                    f.events == old(f.events) + Bits(r, w, e, f.fd)
        invariant forall f :: f in all && !(f.active && f.fd < i) ==> f.events == old(f.events)
        decreases selectN - i
      {
        assert CountsDown(left, r, w, e, i);
        var k := MarkOne(i, r, w, e);
        n := n - k;
        i := i + 1;
      }
    }

    /** One round of that loop; returns the number of bits seen. */
    method MarkOne(i: nat, r: set<nat>, w: set<nat>, e: set<nat>) returns (k: nat)
      requires Valid()
      requires i in r || i in w || i in e ==> At(i) != null
      modifies this`pending, all`events, all`pending
      ensures Valid()
      ensures k == One(i in r) + One(i in w) + One(i in e)
      ensures forall f :: f in all && f.active && f.fd == i ==> f.events == old(f.events) + Bits(r, w, e, i)
      ensures forall f :: f in all && !(f.active && f.fd == i) ==> f.events == old(f.events)
    {
      var evs: set<Event> := {};
      k := 0;
      if i in r { evs := evs + {Rd}; k := k + 1; }
      if i in w { evs := evs + {Wr}; k := k + 1; }
      if i in e { evs := evs + {Er}; k := k + 1; }
      if evs != {} { Post(table[i], evs); }
    }

    /** fdevent_plist_dequeue and the start of fdevent_call_fdfunc: the event is off the list and
        unmarked before its callback runs. */
    method TakePending() returns (f: Fdevent, evs: set<Event>)
      requires Valid() && pending != []
      modifies this`pending, this`log, all`events, all`pending
      ensures Valid() && f == old(pending[0]) && pending == old(pending)[1..]
      ensures f.active && evs == old(f.events) && evs != {}
      ensures log == old(log) + [Called(f, evs)] && Steps(log) == Steps(old(log)) + [Called(f, evs)]
      ensures forall g :: g in all && g != f ==> g.events == old(g.events)
    {
      f, evs := Dequeue();
      Note(Called(f, evs));
    }

    method Dequeue() returns (f: Fdevent, evs: set<Event>)
      requires Agrees() && pending != []
      modifies this`pending, all`events, all`pending
      ensures Agrees() && f == old(pending[0]) && pending == old(pending)[1..]
      ensures f in all && f.active && evs == old(f.events) && evs != {}
      ensures forall g :: g in all && g != f ==> g.events == old(g.events)
    {
      f := pending[0];
      pending := pending[1..];
      evs := f.events;
      f.events := {};
      f.pending := false;
    }

    /** One thing a callback does.  Events other than the one it names keep their place and what
        they have to report; nothing becomes pending. */
    method Perform(a: Action)
      requires Valid()
      modifies this, all
      ensures Valid() && old(all) <= all && |pending| <= |old(pending)|
      ensures forall f :: f in all && f !in old(all) ==> fresh(f)
      ensures forall f :: f in pending ==> f in old(pending)
      ensures forall f :: f in old(pending) && !Names(a, f.fd) ==> f in pending && f.events == old(f.events)
      ensures forall f :: f in old(all) ==> (f.active <==> old(f.active) && a != Remove(f.fd))
      ensures a.Install? && 0 <= a.newFd && (a.newFd < old(|table|) || a.newFd <= FD_LIMIT) ==> At(a.newFd) != null
      ensures a.Change? && old(At(a.fd)) != null ==> old(At(a.fd)).want == a.want
      ensures a.Remove? ==> At(a.fd) == null && (old(At(a.fd)) != null ==>
                !old(At(a.fd)).pending && log == old(log) + [Removed(old(At(a.fd))), Did(a)])
      ensures forall n: nat :: !Names(a, n) && a != Install(n) ==> At(n) == old(At(n))
      ensures Steps(log) == Steps(old(log)) + [Did(a)]
    {
      Act(a);
      Note(Did(a));
    }

    method Act(a: Action)
      requires Valid()
      modifies this, all
      ensures Valid() && old(all) <= all && |pending| <= |old(pending)|
      ensures forall f :: f in all && f !in old(all) ==> fresh(f)
      ensures forall f :: f in pending ==> f in old(pending)
      ensures forall f :: f in old(pending) && !Names(a, f.fd) ==> f in pending && f.events == old(f.events)
      ensures forall f :: f in old(all) ==> (f.active <==> old(f.active) && a != Remove(f.fd))
      ensures a.Install? && 0 <= a.newFd && (a.newFd < old(|table|) || a.newFd <= FD_LIMIT) ==> At(a.newFd) != null
      ensures a.Change? && old(At(a.fd)) != null ==> old(At(a.fd)).want == a.want
      ensures a.Remove? ==> At(a.fd) == null && (old(At(a.fd)) != null ==>
                !old(At(a.fd)).pending && log == old(log) + [Removed(old(At(a.fd)))])
      ensures forall n: nat :: !Names(a, n) && a != Install(n) ==> At(n) == old(At(n))
      ensures Steps(log) == Steps(old(log))
    {
      match a
      case Install(fd) =>
        // A new descriptor is not in use.
        if fd < 0 || At(fd) == null { var _ := InstallEvent(fd); }
      case Change(fd, want) =>
        var f := At(fd);
        if f != null { SetEvents(f, want); }
      case Remove(fd) =>
        var f := At(fd);
        if f != null { RemoveEvent(f); }
    }

    /** A callback does what its script says: the events it removes are no longer active, and others stay. */
    method Callback(script: seq<Action>)
      requires Valid()
      modifies this, all
      ensures Valid() && old(all) <= all && |pending| <= |old(pending)|
      ensures forall f :: f in all && f !in old(all) ==> fresh(f)
      ensures forall f :: f in pending ==> f in old(pending)
      ensures forall f :: f in old(pending) && Spares(script, |script|, f.fd) ==>
                f in pending && f.events == old(f.events)
      ensures forall f :: f in old(all) ==> (f.active <==> old(f.active) && Remove(f.fd) !in script)
      ensures Steps(log) == Steps(old(log)) + Dids(script)
    {
      for i := 0 to |script|
        invariant Valid() && old(all) <= all && |pending| <= |old(pending)|
        invariant forall f :: f in all && f !in old(all) ==> fresh(f)
        invariant forall f :: f in pending ==> f in old(pending)
        invariant forall f :: f in old(pending) && Spares(script, i, f.fd) ==>
                    f in pending && f.events == old(f.events)
        invariant forall f :: f in old(all) ==> (f.active <==> old(f.active) && Remove(f.fd) !in script[..i])
        invariant Steps(log) == Steps(old(log)) + Dids(script[..i])
      {
        Perform(script[i]);
        assert script[..i + 1] == script[..i] + [script[i]];
        assert Dids(script[..i + 1]) == Dids(script[..i]) + [Did(script[i])];
      }
      assert script[..|script|] == script;
    }

    /** The inner loop of fdevent_loop.  Callbacks never make anything pending, so it ends; each
        event that was pending is called back once, with all it had to report, unless an earlier callback
        names it; and none that an earlier callback removed. */
    method Drain(scripts: seq<seq<Action>>) returns (ghost calls: seq<Entry>)
      requires Valid()
      modifies this, all
      ensures Valid() && pending == [] && old(all) <= all
      ensures forall f :: f in all && f !in old(all) ==> fresh(f)
      ensures Steps(log) == Steps(old(log)) + Rounds(calls, scripts)
      ensures OnlyOnce(calls, old(pending)) && NoneRemoved(calls, scripts)
      ensures forall f :: f in old(pending) && SparedBy(scripts, |calls|, f.fd) ==> Called(f, old(f.events)) in calls
      ensures forall f :: f in old(all) ==>
                (f.active <==> old(f.active) && !RemovedBy(scripts, |calls|, f.fd))
    {
      calls := [];
      var i := 0;
      while pending != []
        invariant Valid() && old(all) <= all && i == |calls|
        invariant forall f :: f in all && f !in old(all) ==> fresh(f)
        invariant Steps(log) == Steps(old(log)) + Rounds(calls, scripts)
        invariant forall f :: f in pending ==> f in old(pending) && NotCalled(calls, f)
        invariant OnlyOnce(calls, old(pending)) && NoneRemoved(calls, scripts)
        invariant forall f :: f in old(pending) && SparedBy(scripts, i, f.fd) ==>
                    (f in pending && f.events == old(f.events)) || Called(f, old(f.events)) in calls
        invariant forall f :: f in old(all) ==> (f.active <==> old(f.active) && !RemovedBy(scripts, i, f.fd))
        decreases |pending|
      {
        ghost var c := Called(pending[0], pending[0].events);
        ServeOne(Script(scripts, i));
        NextScript(scripts, i);
        NextCall(Steps(old(log)), calls, c, scripts, old(pending));
        calls := calls + [c];
        i := i + 1;
      }
    }

    /** One round of that loop. */
    method ServeOne(script: seq<Action>)
      requires Valid() && pending != []
      modifies this, all
      ensures Valid() && old(all) <= all && |pending| < |old(pending)|
      ensures forall f :: f in all && f !in old(all) ==> fresh(f)
      ensures forall f :: f in pending ==> f in old(pending) && f != old(pending[0])
      ensures forall f :: f in old(pending) && Spares(script, |script|, f.fd) && f != old(pending[0]) ==>
                f in pending && f.events == old(f.events)
      ensures forall f :: f in old(all) ==> (f.active <==> old(f.active) && Remove(f.fd) !in script)
      ensures Steps(log) == Steps(old(log)) + [Called(old(pending[0]), old(pending[0].events))] + Dids(script)
    {
      var _, _ := TakePending();
      Callback(script);
    }

    /** One turn of fdevent_loop: whatever select reports is called back in the same turn, with what was
        reported and what was left from before, unless an earlier callback of that turn names it. */
    method TakeTurn(t: Turn) returns (ghost calls: seq<Entry>)
      requires Valid()
      modifies this, all
      ensures Valid() && pending == [] && old(all) <= all
      ensures forall f :: f in all && f !in old(all) ==> fresh(f)
      ensures Steps(log) == Steps(old(log)) + [Polled(t.sel, t.bad, old(Interests()))] + Rounds(calls, t.scripts)
      ensures Served(t, old(Interests()), calls)
    {
      ghost var at := Interests();
      Note(Polled(t.sel, t.bad, at));
      calls := ServeDue(t, at);
    }

    method ServeDue(t: Turn, ghost at: Interest) returns (ghost calls: seq<Entry>)
      requires Valid() && at == Interests()
      modifies this, all
      ensures Valid() && pending == [] && old(all) <= all
      ensures forall f :: f in all && f !in old(all) ==> fresh(f)
      ensures Steps(log) == Steps(old(log)) + Rounds(calls, t.scripts)
      ensures Served(t, at, calls)
    {
      ProcessReported(t.sel, t.bad, at);
      ghost var q := pending;
      calls := Drain(t.scripts);
      ServedFrom(t, at, q, calls);
    }

    /** fdevent_process once more: what is pending afterwards, in terms of what the loop waited for. */
    method ProcessReported(sel: Selected, bad: set<nat>, ghost at: Interest)
      requires Valid() && at == Interests()
      modifies this`pending, all`events, all`pending
      ensures Valid()
      ensures forall f :: f in pending ==> f.events == Due(sel, bad, at, f)
      ensures forall f :: f in pending <==> f in at.left && Due(sel, bad, at, f) != {}
    {
      RegisteredIs(bad);
      var r, w, e := Process(sel, bad);
      assert Sets(r, w, e) == Reported(sel, bad, at);
    }

    lemma RegisteredIs(bad: set<nat>)
      requires Valid()
      ensures Registered(bad) == (set f | f in Interests().left && f.fd in bad :: f.fd)
    {
    }

    /** fdevent_loop for any number of turns, whatever select() answers and callbacks do.  What happens is
        exactly that callbacks are called and do what their scripts say; and every turn serves what select
        reported of what the loop was then waiting for. */
    method RunLoop(turns: seq<Turn>) returns (ghost took: seq<Taken>)
      requires Valid()
      modifies this, all
      ensures Valid() && NoCallAfterRemove(log) && NoCallAfterRequest(log)
      ensures turns != [] ==> pending == []
      ensures |took| == |turns| && Steps(log) == Steps(old(log)) + TurnRounds(turns, took)
      ensures forall i :: 0 <= i < |turns| ==> Served(turns[i], took[i].at, took[i].calls)
      ensures turns != [] ==> took[0].at == old(Interests())
    {
      took := [];
      ghost var before, at := Steps(log), Interests();
      assert before + [] == before;
      for i := 0 to |turns|
        invariant Valid() && old(all) <= all && |took| == i
        invariant forall f :: f in all && f !in old(all) ==> fresh(f)
        invariant if i == 0 then Interests() == at else pending == [] && took[0].at == at
        invariant Steps(log) == before + TurnRounds(turns[..i], took)
        invariant AllServed(turns[..i], took)
      {
        took := RunOne(turns, i, took, before);
      }
      assert turns[..|turns|] == turns;
      forall i | 0 <= i < |turns| ensures Served(turns[i], took[i].at, took[i].calls) { ServedNth(turns, took, i); }
    }

    /** One round of fdevent_loop. */
    method RunOne(turns: seq<Turn>, i: nat, ghost took: seq<Taken>, ghost before: seq<Entry>)
      returns (ghost more: seq<Taken>)
      requires Valid() && |took| == i < |turns| && AllServed(turns[..|took|], took)
      requires Steps(log) == before + TurnRounds(turns[..|took|], took)
      modifies this, all
      ensures Valid() && pending == [] && old(all) <= all
      ensures forall f :: f in all && f !in old(all) ==> fresh(f)
      ensures |more| == |took| + 1 && more[..|took|] == took && more[|took|].at == old(Interests())
      ensures Steps(log) == before + TurnRounds(turns[..|more|], more) && AllServed(turns[..|more|], more)
    {
      ghost var at := Interests();
      var c := TakeTurn(turns[i]);
      more := took + [Taken(at, c)];
      NextTurn(before, turns, took, Taken(at, c));
    }
  }

  /** What the outside contributes to one turn of the loop: the answer of select(), the bad
      descriptors, and what each callback does. */
  datatype Turn = Turn(sel: Selected, bad: set<nat>, scripts: seq<seq<Action>>)

  /** What a turn found, and the callbacks it made. */
  datatype Taken = Taken(at: Interest, calls: seq<Entry>)

  datatype Sets = Sets(r: set<nat>, w: set<nat>, e: set<nat>)

  /** What fdevent_process makes of the answer of select(). */
  ghost function Reported(sel: Selected, bad: set<nat>, at: Interest): Sets
  {
    if sel.Ready? && sel.r * at.rd + sel.w * at.wr + sel.e * at.er != {} then
      Sets(sel.r * at.rd, sel.w * at.wr, sel.e * at.er)
    else if sel.Ready? || sel.BadDescriptor? then Sets(set f | f in at.left && f.fd in bad :: f.fd, {}, {})
    else Sets({}, {}, {})
  }

  /** What an event then has to report. */
  ghost function Due(sel: Selected, bad: set<nat>, at: Interest, f: Fdevent): set<Event>
  {
    var s := Reported(sel, bad, at);
    (if f in at.left then at.left[f] else {}) + Bits(s.r, s.w, s.e, f.fd)
  }

  /** The callbacks of a turn: for registered events that have something to report, each at most once, none
      that an earlier one removed; and for each of those that no earlier one names, with all it has to report. */
  ghost predicate Served(t: Turn, at: Interest, calls: seq<Entry>)
  {
    && (forall j :: 0 <= j < |calls| ==>
          calls[j].Called? && calls[j].f in at.left && Due(t.sel, t.bad, at, calls[j].f) != {})
    && (forall j, k :: 0 <= j < k < |calls| ==> calls[j].f != calls[k].f)
    && NoneRemoved(calls, t.scripts)
    && (forall f :: f in at.left && Due(t.sel, t.bad, at, f) != {} && SparedBy(t.scripts, |calls|, f.fd) ==>
          Called(f, Due(t.sel, t.bad, at, f)) in calls)
  }

  lemma ServedFrom(t: Turn, at: Interest, q: seq<Fdevent>, calls: seq<Entry>)
    requires forall f :: f in q <==> f in at.left && Due(t.sel, t.bad, at, f) != {}
    requires OnlyOnce(calls, q) && NoneRemoved(calls, t.scripts)
    requires forall f :: f in q && SparedBy(t.scripts, |calls|, f.fd) ==> Called(f, Due(t.sel, t.bad, at, f)) in calls
    ensures Served(t, at, calls)
  {
  }

  /** The rounds of all turns. */
  ghost function TurnRounds(turns: seq<Turn>, took: seq<Taken>): seq<Entry>
    requires |turns| == |took|
  {
    if turns == [] then [] else
      var n := |turns| - 1;
      var t := turns[n];
      TurnRounds(turns[..n], took[..n]) + [Polled(t.sel, t.bad, took[n].at)] + Rounds(took[n].calls, t.scripts)
  }

  /** Every turn was served. */
  ghost predicate AllServed(turns: seq<Turn>, took: seq<Taken>)
    requires |turns| == |took|
  {
    turns != [] ==>
      var n := |turns| - 1;
      AllServed(turns[..n], took[..n]) && Served(turns[n], took[n].at, took[n].calls)
  }

  lemma {:induction false} ServedNth(turns: seq<Turn>, took: seq<Taken>, i: nat)
    requires |turns| == |took| && i < |turns| && AllServed(turns, took)
    ensures Served(turns[i], took[i].at, took[i].calls)
  {
    var n := |turns| - 1;
    if i < n { ServedNth(turns[..n], took[..n], i); }
  }

  lemma NextTurn(before: seq<Entry>, turns: seq<Turn>, took: seq<Taken>, k: Taken)
    requires |took| < |turns| && AllServed(turns[..|took|], took) && Served(turns[|took|], k.at, k.calls)
    ensures AllServed(turns[..|took| + 1], took + [k])
    ensures before + TurnRounds(turns[..|took| + 1], took + [k]) ==
            var t := turns[|took|];
            before + TurnRounds(turns[..|took|], took) + [Polled(t.sel, t.bad, k.at)] + Rounds(k.calls, t.scripts)
  {
    var n := |took|;
    var t := turns[n];
    assert turns[..n + 1][..n] == turns[..n] && (took + [k])[..n] == took;
    Join(before, TurnRounds(turns[..n], took), [Polled(t.sel, t.bad, k.at)], Rounds(k.calls, t.scripts));
  }

  lemma StepsAppend(log: seq<Entry>, e: Entry)
    ensures Steps(log + [e]) == Steps(log) + if e.Installed? || e.Removed? then [] else [e]
  {
    assert (log + [e])[..|log|] == log;
  }

  lemma RemoveAppend(log: seq<Entry>, e: Entry)
    requires NoCallAfterRemove(log) && (e.Called? ==> Removed(e.f) !in log)
    ensures NoCallAfterRemove(log + [e])
  {
    var l := log + [e];
    forall i, j | 0 <= i < j < |l| && l[i].Removed? && l[j].Called? ensures l[i].f != l[j].f {
      assert l[i] == log[i] && (j < |log| ==> l[j] == log[j]);
    }
  }

  lemma StillInstalled(log: seq<Entry>, e: Entry, i: nat, j: nat, f: Fdevent)
    requires j <= |log| && InstalledBetween(log, i, j, f)
    ensures InstalledBetween(log + [e], i, j, f) && InstalledBetween(log + [e], i, |log| + 1, f)
  {
    var k :| i < k < j && log[k] == Installed(f);
    assert (log + [e])[k] == Installed(f);
  }

  lemma InstalledAppend(log: seq<Entry>, e: Entry, live: set<Fdevent>)
    requires forall i, f :: 0 <= i < |log| && f in live && log[i] == Did(Remove(f.fd)) ==>
                              e == Installed(f) || InstalledBetween(log, i, |log|, f)
    requires e.Did? ==> forall f :: f in live ==> e.a != Remove(f.fd)
    ensures var l := log + [e];
            forall i, f :: 0 <= i < |l| && f in live && l[i] == Did(Remove(f.fd)) ==> InstalledBetween(l, i, |l|, f)
  {
    var l := log + [e];
    assert l[|log|] == e;
    forall i, f | 0 <= i < |l| && f in live && l[i] == Did(Remove(f.fd)) ensures InstalledBetween(l, i, |l|, f) {
      if e != Installed(f) { StillInstalled(log, e, i, |log|, f); }
    }
  }

  lemma RequestAppend(log: seq<Entry>, e: Entry)
    requires NoCallAfterRequest(log)
    requires e.Called? ==> forall i :: 0 <= i < |log| && log[i] == Did(Remove(e.f.fd)) ==>
                                         InstalledBetween(log, i, |log|, e.f)
    ensures NoCallAfterRequest(log + [e])
  {
    var l := log + [e];
    forall i, j | 0 <= i < j < |l| && l[j].Called? && l[i] == Did(Remove(l[j].f.fd))
      ensures InstalledBetween(l, i, j, l[j].f)
    {
      StillInstalled(log, e, i, j, l[j].f);
    }
  }

  ghost predicate NotCalled(calls: seq<Entry>, f: Fdevent)
  {
    forall k :: 0 <= k < |calls| && calls[k].Called? ==> calls[k].f != f
  }

  /** Only these events are called back, each at most once. */
  ghost predicate OnlyOnce(calls: seq<Entry>, q: seq<Fdevent>)
  {
    && (forall k :: 0 <= k < |calls| ==> calls[k].Called? && calls[k].f in q)
    && (forall k, l :: 0 <= k < l < |calls| ==> calls[k].f != calls[l].f)
  }

  /** No callback is for an event that an earlier one removed. */
  ghost predicate NoneRemoved(calls: seq<Entry>, scripts: seq<seq<Action>>)
  {
    forall j :: 0 <= j < |calls| && calls[j].Called? ==> !RemovedBy(scripts, j, calls[j].f.fd)
  }

  lemma NextCall(before: seq<Entry>, calls: seq<Entry>, c: Entry, scripts: seq<seq<Action>>, q: seq<Fdevent>)
    requires OnlyOnce(calls, q) && NoneRemoved(calls, scripts)
    requires c.Called? && c.f in q && NotCalled(calls, c.f) && !RemovedBy(scripts, |calls|, c.f.fd)
    ensures OnlyOnce(calls + [c], q) && NoneRemoved(calls + [c], scripts)
    ensures forall f :: f in q && f != c.f && NotCalled(calls, f) ==> NotCalled(calls + [c], f)
    ensures before + Rounds(calls + [c], scripts) ==
            before + Rounds(calls, scripts) + [c] + Dids(Script(scripts, |calls|))
  {
    assert (calls + [c])[..|calls|] == calls;
    Join(before, Rounds(calls, scripts), [c], Dids(Script(scripts, |calls|)));
  }

  lemma Join(a: seq<Entry>, b: seq<Entry>, c: seq<Entry>, d: seq<Entry>)
    ensures a + (b + c + d) == a + b + c + d
  {
  }

  function One(b: bool): nat { if b then 1 else 0 }

  /** The events reported for one descriptor. */
  ghost function Bits(r: set<nat>, w: set<nat>, e: set<nat>, fd: nat): set<Event>
  {
    (if fd in r then {Rd} else {}) + (if fd in w then {Wr} else {}) + (if fd in e then {Er} else {})
  }

  /** The members from `i` on. */
  ghost function From(s: set<nat>, i: nat): set<nat> { set x | x in s && x >= i }

  lemma FromNext(s: set<nat>, i: nat)
    ensures |From(s, i)| == |From(s, i + 1)| + One(i in s)
  {
    if i in s {
      assert From(s, i) == From(s, i + 1) + {i};
    } else {
      assert From(s, i) == From(s, i + 1);
    }
  }

  /** The number of bits reported for descriptors from `i` on. */
  ghost function Left(r: set<nat>, w: set<nat>, e: set<nat>, i: nat): nat
  {
    |From(r, i)| + |From(w, i)| + |From(e, i)|
  }

  ghost predicate CountsDown(left: nat -> nat, r: set<nat>, w: set<nat>, e: set<nat>, i: nat)
  {
    left(i) == left(i + 1) + One(i in r) + One(i in w) + One(i in e)
  }

  lemma LeftStart(r: set<nat>, w: set<nat>, e: set<nat>)
    ensures Left(r, w, e, 0) == |r| + |w| + |e|
  {
    assert From(r, 0) == r && From(w, 0) == w && From(e, 0) == e;
  }

  lemma LeftNext(r: set<nat>, w: set<nat>, e: set<nat>, i: nat)
    ensures Left(r, w, e, i) == Left(r, w, e, i + 1) + One(i in r) + One(i in w) + One(i in e)
  {
    FromNext(r, i);
    FromNext(w, i);
    FromNext(e, i);
  }

  lemma NothingLeft(r: set<nat>, w: set<nat>, e: set<nat>, i: nat)
    requires Left(r, w, e, i) == 0
    ensures forall fd: nat :: fd >= i ==> Bits(r, w, e, fd) == {}
  {
    forall fd: nat | fd >= i ensures Bits(r, w, e, fd) == {} {
      assert fd !in From(r, i) && fd !in From(w, i) && fd !in From(e, i);
    }
  }
}
