/** The off-mode charger's event loop: key timer, unplug timer and battery animation, all driven by
    deadlines that the loop sleeps until.  A deadline of -1 is not set. */
module Charger {

  const BATTERY_UNKNOWN_TIME := 2000
  const POWER_ON_KEY_TIME := 2000
  const UNPLUGGED_SHUTDOWN_TIME := 10000
  const INT64_MAX := 0x7fff_ffff_ffff_ffff

  datatype Frame = Frame(dispTime: nat, minCapacity: int, levelOnly: bool)

  const FRAMES: seq<Frame> :=
    [Frame(750, 0, false), Frame(750, 20, false), Frame(750, 40, false),
     Frame(750, 60, false), Frame(750, 80, true), Frame(750, 95, false)]

  datatype Effect = Reboot | PowerOff | Suspend(on: bool) | Blank(on: bool) | Draw(frame: nat) | DrawUnknown

  /** The power key and the deadline to look at it again. */
  datatype Key = Key(down: bool, pending: bool, timestamp: int, next: int)

  datatype Anim = Anim(run: bool, cycle: nat, frame: nat, capacity: int, numFrames: nat, numCycles: nat, next: int)

  datatype State = State(key: Key, power: int, anim: Anim, log: seq<Effect>)

  datatype KeyEvent = KeyEvent(time: int, down: bool)

  /** One iteration: the clock, the supplies online, the battery capacity, and the power-key events
      dispatched at its end. */
  datatype Tick = Tick(now: int, online: nat, cap: int, events: seq<KeyEvent>)

  // ---------------------------------------------------------------- the parts of an iteration

  function SetKey(k: Key, e: KeyEvent): Key
  {
    if k.down == e.down then k else Key(e.down, true, if e.down then e.time else k.timestamp, k.next)
  }

  function SetKeys(k: Key, es: seq<KeyEvent>): Key
  {
    if es == [] then k else SetKey(SetKeys(k, es[..|es| - 1]), es[|es| - 1])
  }

  predicate Reboots(k: Key, now: int) { k.down && now >= k.timestamp + POWER_ON_KEY_TIME }

  /** A release shows the screen again. */
  predicate Released(k: Key) { !k.down && k.pending }

  function NextCheck(k: Key, now: int): int
  {
    var then_ := k.timestamp + POWER_ON_KEY_TIME;
    if k.down && !Reboots(k, now) && (k.next == -1 || then_ < k.next) then then_ else k.next
  }

  function Input(k: Key, now: int): Key
  {
    var next := NextCheck(k, now);
    k.(pending := false, next := if next != -1 && now > next then -1 else next)
  }

  function InputEffects(k: Key, now: int): seq<Effect>
  {
    if Reboots(k, now) then [Reboot] else if Released(k) then [Suspend(false)] else []
  }

  predicate ShutsDown(power: int, now: int, online: nat) { online == 0 && power != -1 && now >= power }

  function Power(power: int, now: int, online: nat): int
  {
    if online > 0 then -1 else if power == -1 then now + UNPLUGGED_SHUTDOWN_TIME else power
  }

  function PowerEffects(power: int, now: int, online: nat): seq<Effect>
  {
    if online > 0 then [] else [Suspend(false)] + if ShutsDown(power, now, online) then [PowerOff] else []
  }

  /** Plugging in while the timer runs shows the screen again. */
  predicate Plugged(power: int, online: nat) { online > 0 && power != -1 }

  /** The highest frame, from `i` on, whose level the capacity reaches. */
  function Level(cap: int, i: nat, n: nat): (f: nat)
    requires 1 <= i <= n <= |FRAMES|
    ensures i - 1 <= f < n
    decreases n - i
  {
    if i == n || cap < FRAMES[i].minCapacity then i - 1 else Level(cap, i + 1, n)
  }

  /** The next frame that is not shown for its level only. */
  function Skip(f: nat, n: nat): (g: nat)
    requires f <= n <= |FRAMES|
    ensures f <= g <= n
    decreases n - f
  {
    if f < n && FRAMES[f].levelOnly then Skip(f + 1, n) else f
  }

  predicate Due(a: Anim, now: int) { a.run && now >= a.next }

  predicate Valid(a: Anim)
  {
    && (a.numFrames == 0 || a.numFrames == |FRAMES|)
    && a.cycle <= a.numCycles
    && (a.numFrames == 0 ==> a.frame == 0)
    && (a.numFrames > 0 ==> a.frame < a.numFrames)
    && (a.cycle == a.numCycles ==> a.frame == 0)
    && (a.frame > 0 ==> a.capacity >= 0)
  }

  /** The frame to draw, how long to show it, and the capacity it stands for. */
  function Shown(a: Anim, cap: int): (r: (nat, nat, int))
    requires Valid(a)
    ensures r.0 < |FRAMES| && r.0 >= a.frame
    ensures r.1 <= 1500
    ensures a.numFrames == 0 || r.2 < 0 ==> r.0 == 0
  {
    if a.frame > 0 then (a.frame, FRAMES[a.frame].dispTime, a.capacity)
    else if cap >= 0 && a.numFrames != 0 then
      var f := Level(cap, 1, a.numFrames);
      (f, FRAMES[f].dispTime * 2, cap)
    else (0, FRAMES[0].dispTime, cap)
  }

  function Screen(a: Anim, now: int, cap: int): (a': Anim)
    requires Valid(a)
  {
    if !Due(a, now) then a
    else if a.cycle == a.numCycles then a.(run := false, cycle := 0, frame := 0, next := -1)
    else
      var (f, time, c) := Shown(a, cap);
      if a.numFrames == 0 || c < 0 then a.(capacity := c, next := now + BATTERY_UNKNOWN_TIME, cycle := a.cycle + 1)
      else
        var g := Skip(f + 1, a.numFrames);
        var (cycle, frame) := if g == a.numFrames then (a.cycle + 1, 0) else (a.cycle, g);
        a.(capacity := c, next := now + time, cycle := cycle, frame := frame)
  }

  function ScreenEffects(a: Anim, now: int, online: nat, cap: int): seq<Effect>
    requires Valid(a)
  {
    if !Due(a, now) then []
    else if a.cycle == a.numCycles then [Blank(true)] + if online > 0 then [Suspend(true)] else []
    else
      var (f, time, c) := Shown(a, cap);
      (if a.cycle == 0 then [Blank(false)] else [])
      + [if a.numFrames == 0 || c < 0 then DrawUnknown else Draw(f)]
  }

  /** The animation as the screen update finds it. */
  function Kicked(s: State, t: Tick): Anim
  {
    s.anim.(run := s.anim.run || Released(s.key) || Plugged(s.power, t.online))
  }

  /** What an iteration does to the outside. */
  function Effects(s: State, t: Tick): seq<Effect>
    requires Valid(s.anim)
  {
    InputEffects(s.key, t.now) + PowerEffects(s.power, t.now, t.online)
    + ScreenEffects(Kicked(s, t), t.now, t.online, t.cap)
  }

  /** The body of the loop, up to the wait. */
  function Body(s: State, t: Tick): State
    requires Valid(s.anim)
  {
    State(Input(s.key, t.now), Power(s.power, t.now, t.online), Screen(Kicked(s, t), t.now, t.cap),
          s.log + Effects(s, t))
  }

  lemma EffectsTell(s: State, t: Tick)
    requires Valid(s.anim)
    ensures PowerOff in Effects(s, t) <==> ShutsDown(s.power, t.now, t.online)
    ensures Reboot in Effects(s, t) <==> Reboots(s.key, t.now)
  {
    assert PowerOff !in InputEffects(s.key, t.now) && Reboot !in PowerEffects(s.power, t.now, t.online);
    var a := ScreenEffects(Kicked(s, t), t.now, t.online, t.cap);
    assert PowerOff !in a && Reboot !in a;
  }

  function Iterate(s: State, t: Tick): (s': State)
    requires Valid(s.anim)
    ensures Valid(s'.anim)
  {
    ScreenKeeps(Kicked(s, t), t.now, t.cap);
    var b := Body(s, t);
    b.(key := SetKeys(b.key, t.events))
  }

  function After(s: State, ts: seq<Tick>): (s': State)
    requires Valid(s.anim)
    ensures Valid(s'.anim)
  {
    if ts == [] then s else Iterate(After(s, ts[..|ts| - 1]), ts[|ts| - 1])
  }

  // ---------------------------------------------------------------- the animation

  /** Screen updates an animation can still make. */
  function Left(a: Anim): (n: nat)
    requires Valid(a)
  {
    (a.numCycles - a.cycle) * (|FRAMES| + 1) - a.frame
  }

  /** An update that is due shows a frame and leaves strictly less to show, or ends the animation. */
  lemma ScreenKeeps(a: Anim, now: int, cap: int)
    requires Valid(a)
    ensures var a' := Screen(a, now, cap);
            && Valid(a')
            && (Due(a, now) && a.cycle < a.numCycles ==>
                  a'.run && Left(a') < Left(a) && now < a'.next <= now + BATTERY_UNKNOWN_TIME)
            && (Due(a, now) && a.cycle == a.numCycles ==> !a'.run && a'.next == -1 && a'.cycle == 0)
  {
  }

  /** The frame a cycle starts with is the one whose range holds the capacity. */
  lemma {:induction false} LevelIsFound(cap: int, i: nat)
    requires 1 <= i <= |FRAMES| && FRAMES[i - 1].minCapacity <= cap
    ensures var f := Level(cap, i, |FRAMES|);
            FRAMES[f].minCapacity <= cap && (f + 1 < |FRAMES| ==> cap < FRAMES[f + 1].minCapacity)
    decreases |FRAMES| - i
  {
    if i < |FRAMES| && cap >= FRAMES[i].minCapacity { LevelIsFound(cap, i + 1); }
  }

  /** What an update draws.  A cycle starts with the frame whose range holds the capacity, shown twice as long;
      then come the higher frames in order, those for their level only left out; and then a new cycle. */
  lemma ScreenDraws(a: Anim, now: int, online: nat, cap: int) returns (f: nat)
    requires Valid(a) && Due(a, now) && a.cycle < a.numCycles && a.numFrames > 0 && (a.frame > 0 || cap >= 0)
    ensures f < |FRAMES| && Screen(a, now, cap).next == now + if a.frame > 0 then 750 else 1500
    ensures ScreenEffects(a, now, online, cap) == (if a.cycle == 0 then [Blank(false)] else []) + [Draw(f)]
    ensures a.frame > 0 ==> f == a.frame
    ensures a.frame == 0 ==> FRAMES[f].minCapacity <= cap && (f + 1 < |FRAMES| ==> cap < FRAMES[f + 1].minCapacity)
    ensures var b := Screen(a, now, cap);
            if b.frame > 0 then
              b.cycle == a.cycle && f < b.frame < |FRAMES| && !FRAMES[b.frame].levelOnly
              && (forall k :: f < k < b.frame ==> FRAMES[k].levelOnly)
            else b.cycle == a.cycle + 1 && (forall k :: f < k < |FRAMES| ==> FRAMES[k].levelOnly)
  {
    f := Shown(a, cap).0;
    if a.frame == 0 { LevelIsFound(cap, 1); }
    SkipExactly(f + 1, |FRAMES|);
  }

  /** Without frames or a capacity an update draws the unknown battery and counts as a cycle.  The capacity is
      looked at when a cycle starts and kept until it is over. */
  lemma UnknownIsDrawn(a: Anim, now: int, online: nat, cap: int)
    requires Valid(a) && Due(a, now) && a.cycle < a.numCycles
    ensures Screen(a, now, cap).capacity == if a.frame > 0 then a.capacity else cap
    ensures a.frame == 0 && (a.numFrames == 0 || cap < 0) ==>
              && ScreenEffects(a, now, online, cap) == (if a.cycle == 0 then [Blank(false)] else []) + [DrawUnknown]
              && Screen(a, now, cap) == a.(capacity := cap, next := now + 2000, cycle := a.cycle + 1)
  {
  }

  /** An animation that is off starts exactly when the key is let go or a supply comes back while the shutdown
      timer runs; one that is on goes on. */
  lemma AnimationStarts(s: State, t: Tick)
    ensures Kicked(s, t).run <==>
            s.anim.run || (!s.key.down && s.key.pending) || (t.online > 0 && s.power != -1)
    ensures Kicked(s, t).(run := s.anim.run) == s.anim
  {
  }

  lemma {:induction false} SkipExactly(f: nat, n: nat)
    requires f <= n <= |FRAMES|
    ensures var g := Skip(f, n);
            (g < n ==> !FRAMES[g].levelOnly) && forall k :: f <= k < g ==> FRAMES[k].levelOnly
    decreases n - f
  {
    if f < n && FRAMES[f].levelOnly { SkipExactly(f + 1, n); }
  }

  /** When the device may sleep and the screen is dark: the end of an animation blanks the screen, and lets the
      device suspend if it is plugged in; a released key or a missing supply keeps it awake; the first update
      of an animation lights the screen. */
  lemma EffectsExactly(s: State, t: Tick)
    requires Valid(s.anim)
    ensures var e, a := Effects(s, t), Kicked(s, t);
            var due := a.run && t.now >= a.next;
            && (Suspend(true) in e <==> due && a.cycle == a.numCycles && t.online > 0)
            && (Suspend(false) in e <==>
                  t.online == 0 || (!s.key.down && s.key.pending))
            && (Blank(true) in e <==> due && a.cycle == a.numCycles)
            && (Blank(false) in e <==> due && a.cycle == 0 && a.numCycles > 0)
  {
    assert Suspend(true) !in InputEffects(s.key, t.now) && Suspend(true) !in PowerEffects(s.power, t.now, t.online);
    var a := Kicked(s, t);
    if !Due(a, t.now) {
    } else if a.cycle == a.numCycles {
      assert ScreenEffects(a, t.now, t.online, t.cap)[0] == Blank(true);
      if t.online > 0 { assert ScreenEffects(a, t.now, t.online, t.cap)[1] == Suspend(true); }
    } else if a.cycle == 0 {
      assert ScreenEffects(a, t.now, t.online, t.cap)[0] == Blank(false);
    }
    if t.online == 0 { assert PowerEffects(s.power, t.now, t.online)[0] == Suspend(false); }
    if Released(s.key) { assert InputEffects(s.key, t.now)[0] == Suspend(false); }
  }

  /** The animation is still on after each of the iterations. */
  ghost predicate Playing(s: State, ts: seq<Tick>)
    requires Valid(s.anim)
  {
    After(s, ts).anim.run && (ts == [] || Playing(s, ts[..|ts| - 1]))
  }

  /** The iterations in which the screen was due. */
  ghost function Updates(s: State, ts: seq<Tick>): (n: nat)
    requires Valid(s.anim)
  {
    if ts == [] then 0
    else
      var p := ts[..|ts| - 1];
      Updates(s, p) + if Due(After(s, p).anim, ts[|ts| - 1].now) then 1 else 0
  }

  /** An animation makes no more updates than there are frames left in its cycles, in any run and
      whatever the capacity does meanwhile: it ends. */
  lemma {:induction false} AnimationEnds(s: State, ts: seq<Tick>)
    requires Valid(s.anim) && Playing(s, ts)
    ensures Updates(s, ts) + Left(After(s, ts).anim) <= Left(s.anim)
  {
    if ts != [] {
      var p, t := ts[..|ts| - 1], ts[|ts| - 1];
      AnimationEnds(s, p);
      ScreenKeeps(After(s, p).anim, t.now, t.cap);
      assert Kicked(After(s, p), t) == After(s, p).anim;
    }
  }

  // ---------------------------------------------------------------- the two timers by themselves

  function PowerAfter(power: int, ts: seq<Tick>): int
  {
    if ts == [] then power
    else
      var t := ts[|ts| - 1];
      Power(PowerAfter(power, ts[..|ts| - 1]), t.now, t.online)
  }

  function KeyAfter(k: Key, ts: seq<Tick>): Key
  {
    if ts == [] then k
    else
      var t := ts[|ts| - 1];
      SetKeys(Input(KeyAfter(k, ts[..|ts| - 1]), t.now), t.events)
  }

  lemma {:induction false} PartsRun(s: State, ts: seq<Tick>)
    requires Valid(s.anim)
    ensures After(s, ts).power == PowerAfter(s.power, ts) && After(s, ts).key == KeyAfter(s.key, ts)
  {
    if ts != [] { PartsRun(s, ts[..|ts| - 1]); }
  }

  // ---------------------------------------------------------------- the unplug timer

  /** How many iterations, ending with the last, saw no supply online. */
  function Unplugged(ts: seq<Tick>): (n: nat)
    ensures n <= |ts|
  {
    if ts == [] || ts[|ts| - 1].online > 0 then 0 else 1 + Unplugged(ts[..|ts| - 1])
  }

  lemma {:induction false} PowerTimer(ts: seq<Tick>)
    requires forall t :: t in ts ==> t.now >= 0
    ensures var n := Unplugged(ts);
            PowerAfter(-1, ts) == if n == 0 then -1 else ts[|ts| - n].now + UNPLUGGED_SHUTDOWN_TIME
  {
    if ts != [] {
      var p := ts[..|ts| - 1];
      assert forall u :: u in p ==> u in ts;
      PowerTimer(p);
      var n := Unplugged(p);
      if n > 0 { assert p[|p| - n] == ts[|ts| - (n + 1)] && p[|p| - n] in ts; }
    }
  }

  /** The device is powered off in an iteration exactly when every iteration of at least the last ten
      seconds, this one included, saw no supply online. */
  lemma {:induction false} PowersOffExactly(s: State, ts: seq<Tick>, t: Tick)
    requires Valid(s.anim) && s.power == -1 && forall u :: u in ts ==> u.now >= 0
    ensures var n := Unplugged(ts);
            PowerOff in Effects(After(s, ts), t) <==>
            t.online == 0 && n > 0 && t.now >= ts[|ts| - n].now + UNPLUGGED_SHUTDOWN_TIME
  {
    PowerTimer(ts);
    PartsRun(s, ts);
    EffectsTell(After(s, ts), t);
    var n := Unplugged(ts);
    if n > 0 { assert ts[|ts| - n] in ts; }
  }

  // ---------------------------------------------------------------- the power key

  function Events(ts: seq<Tick>): seq<KeyEvent>
  {
    if ts == [] then [] else Events(ts[..|ts| - 1]) + ts[|ts| - 1].events
  }

  /** How many events, ending with the last, say that the key is down. */
  function Pressed(es: seq<KeyEvent>): (n: nat)
    ensures n <= |es|
  {
    if es == [] || !es[|es| - 1].down then 0 else 1 + Pressed(es[..|es| - 1])
  }

  ghost predicate SameKey(a: Key, b: Key)
  {
    a.down == b.down && (a.down ==> a.timestamp == b.timestamp)
  }

  lemma {:induction false} SetKeysAppend(k: Key, es: seq<KeyEvent>, fs: seq<KeyEvent>, k1: Key)
    requires SameKey(k1, SetKeys(k, es))
    ensures SameKey(SetKeys(k1, fs), SetKeys(k, es + fs))
  {
    if fs == [] {
      assert es + fs == es;
    } else {
      SetKeysAppend(k, es, fs[..|fs| - 1], k1);
      assert (es + fs)[..|es + fs| - 1] == es + fs[..|fs| - 1];
    }
  }

  lemma {:induction false} KeyFollowsEvents(k: Key, ts: seq<Tick>)
    ensures SameKey(KeyAfter(k, ts), SetKeys(k, Events(ts)))
  {
    if ts != [] {
      var p, t := ts[..|ts| - 1], ts[|ts| - 1];
      KeyFollowsEvents(k, p);
      SetKeysAppend(k, Events(p), t.events, Input(KeyAfter(k, p), t.now));
    }
  }

  lemma {:induction false} KeyDownSince(k: Key, es: seq<KeyEvent>)
    requires !k.down
    ensures var n, k' := Pressed(es), SetKeys(k, es);
            k'.down == (n > 0) && (n > 0 ==> k'.timestamp == es[|es| - n].time)
  {
    if es != [] {
      var p := es[..|es| - 1];
      KeyDownSince(k, p);
      if Pressed(p) > 0 { assert p[|p| - Pressed(p)] == es[|es| - (Pressed(p) + 1)]; }
    }
  }

  lemma {:induction false} KeyTimer(k: Key, ts: seq<Tick>, now: int)
    requires !k.down
    ensures var es := Events(ts);
            var n := Pressed(es);
            Reboots(KeyAfter(k, ts), now) <==> n > 0 && now >= es[|es| - n].time + POWER_ON_KEY_TIME
  {
    KeyFollowsEvents(k, ts);
    KeyDownSince(k, Events(ts));
  }

  /** The device reboots in an iteration exactly when the key has been down, without a release, since a
      press at least two seconds ago; repeated down events do not restart the two seconds. */
  lemma {:induction false} RebootsExactly(s: State, ts: seq<Tick>, t: Tick)
    requires Valid(s.anim) && !s.key.down
    ensures var es := Events(ts);
            var n := Pressed(es);
            Reboot in Effects(After(s, ts), t) <==> n > 0 && t.now >= es[|es| - n].time + POWER_ON_KEY_TIME
  {
    PartsRun(s, ts);
    KeyTimer(s.key, ts, t.now);
    EffectsTell(After(s, ts), t);
  }

  // ---------------------------------------------------------------- sleeping

  predicate Armed(d: int) { d != -1 }

  /** A deadline set in the past ten seconds. */
  predicate Near(d: int, now: int) { -1 <= d <= now + UNPLUGGED_SHUTDOWN_TIME }

  predicate AllNear(s: State, now: int)
  {
    Near(s.anim.next, now) && Near(s.key.next, now) && Near(s.power, now)
  }

  /** What every iteration finds: an animation that is off has no deadline. */
  predicate Top(s: State, now: int)
  {
    && now >= 0 && Valid(s.anim) && AllNear(s, now) && (!s.anim.run ==> s.anim.next == -1)
    && (s.key.down ==> 0 <= s.key.timestamp <= now)
  }

  /** When the loop goes to sleep the screen deadline is set exactly while an animation is on, and the
      power deadline exactly while no supply is online; all lie within ten seconds. */
  lemma DeadlinesAreSet(s: State, t: Tick)
    requires Top(s, t.now)
    ensures var b := Body(s, t);
            && (b.anim.run <==> Armed(b.anim.next))
            && (t.online == 0 <==> Armed(b.power))
            && AllNear(b, t.now)
  {
    ScreenKeeps(Kicked(s, t), t.now, t.cap);
  }

  /** The key deadline is not always set in time.  While the key is down and not yet due, the loop will
      wake up for it if and only if the deadline it found was unset or not yet past. */
  lemma KeyDeadlineExactly(k: Key, now: int)
    requires k.down && !Reboots(k, now) && k.timestamp >= 0
    ensures Armed(Input(k, now).next) && Input(k, now).next <= k.timestamp + POWER_ON_KEY_TIME <==>
            k.next == -1 || now <= k.next
  {
  }

  /** A run of it: pressed at 5, released, pressed again at 1000 and held.  The stale deadline of the
      first press is dropped at 2006 and the loop sleeps with none set for the held key. */
  lemma KeyDeadlineLost(s: State)
    requires Valid(s.anim) && s.key == Key(false, false, 0, -1)
    ensures var b := Body(After(s, [Tick(5, 1, 50, [KeyEvent(5, true)]), Tick(6, 1, 50, [KeyEvent(500, false)]),
                                    Tick(500, 1, 50, [KeyEvent(1000, true)]), Tick(1000, 1, 50, [])]),
                          Tick(2006, 1, 50, []));
            b.key.down && b.key.timestamp == 1000 && b.key.next == -1
  {
    var a, b, c, d := Tick(5, 1, 50, [KeyEvent(5, true)]), Tick(6, 1, 50, [KeyEvent(500, false)]),
                      Tick(500, 1, 50, [KeyEvent(1000, true)]), Tick(1000, 1, 50, []);
    assert [a, b, c, d][..3] == [a, b, c] && [a, b, c][..2] == [a, b] && [a, b][..1] == [a] && [a][..0] == [];
    assert After(s, [a]).key == Key(true, true, 5, -1);
    assert After(s, [a, b]).key == Key(false, true, 5, 2005);
    assert After(s, [a, b, c]).key == Key(true, true, 1000, 2005);
    assert After(s, [a, b, c, d]).key == Key(true, false, 1000, 2005);
  }

  /** The clock does not run backwards: neither between iterations nor from one to its key events. */
  ghost predicate Clocked(ts: seq<Tick>, start: int, now: int)
  {
    if ts == [] then start <= now
    else
      var t := ts[|ts| - 1];
      && Clocked(ts[..|ts| - 1], start, t.now) && t.now <= now
      && forall e :: e in t.events ==> t.now <= e.time <= now
  }

  lemma {:induction false} SetKeysClocked(k: Key, es: seq<KeyEvent>, then_: int, now: int)
    requires 0 <= then_ <= now && (k.down ==> 0 <= k.timestamp <= now)
    requires forall e :: e in es ==> then_ <= e.time <= now
    ensures var k' := SetKeys(k, es); k'.next == k.next && (k'.down ==> 0 <= k'.timestamp <= now)
  {
    if es != [] { SetKeysClocked(k, es[..|es| - 1], then_, now); }
  }

  /** Every iteration of every run starts as DeadlinesAreSet asks. */
  lemma {:induction false} TopInEveryRun(s: State, start: int, ts: seq<Tick>, now: int)
    requires Top(s, start) && Clocked(ts, start, now)
    ensures Top(After(s, ts), now)
  {
    if ts != [] {
      var p, t := ts[..|ts| - 1], ts[|ts| - 1];
      TopInEveryRun(s, start, p, t.now);
      DeadlinesAreSet(After(s, p), t);
      SetKeysClocked(Body(After(s, p), t).key, t.events, t.now, now);
    }
  }

  predicate IsDeadline(s: State, d: int) { Armed(d) && (d == s.anim.next || d == s.key.next || d == s.power) }

  /** The loop sleeps until the first deadline that is set, not at all if one is past, and without end only if
      none is set; and no longer than ten seconds, so that the timeout survives its conversion to an int. */
  ghost predicate SleepsRight(s: State, now: int, timeout: int)
  {
    && -1 <= timeout <= UNPLUGGED_SHUTDOWN_TIME
    && (timeout == -1 <==> !Armed(s.anim.next) && !Armed(s.key.next) && !Armed(s.power))
    && (timeout > 0 ==> IsDeadline(s, now + timeout))
    && (timeout >= 0 ==> forall d :: IsDeadline(s, d) ==> now + timeout <= d || (timeout == 0 && d <= now))
    && (timeout == 0 ==> exists d :: IsDeadline(s, d) && d <= now)
  }

  /** What holds whenever the loop goes to sleep: it will wake for an animation that is on and for a shutdown
      that is coming, in time. */
  ghost predicate SleepsSound(s: State, t: Tick, timeout: int)
    requires Valid(s.anim)
  {
    var b := Body(s, t);
    && SleepsRight(b, t.now, timeout)
    && (b.anim.run ==> 0 <= timeout && (timeout == 0 || t.now + timeout <= b.anim.next))
    && (t.online == 0 ==> 0 <= timeout && (timeout == 0 || t.now + timeout <= b.power))
    && (timeout == -1 ==> !b.anim.run && t.online > 0)
  }

  /** It is so for every iteration of a run. */
  ghost predicate AllSleepsSound(s: State, ts: seq<Tick>, timeouts: seq<int>)
    requires Valid(s.anim)
    decreases |ts|
  {
    && |timeouts| == |ts|
    && (ts != [] ==>
          var k := |ts| - 1;
          AllSleepsSound(s, ts[..k], timeouts[..k]) && SleepsSound(After(s, ts[..k]), ts[k], timeouts[k]))
  }

  lemma SleepIsSound(s: State, t: Tick, timeout: int)
    requires Top(s, t.now) && SleepsRight(Body(s, t), t.now, timeout)
    ensures SleepsSound(s, t, timeout)
  {
    DeadlinesAreSet(s, t);
    var b := Body(s, t);
    assert Armed(b.anim.next) ==> IsDeadline(b, b.anim.next);
    assert Armed(b.power) ==> IsDeadline(b, b.power);
  }

  lemma {:induction false} ClockedPrefix(ts: seq<Tick>, start: int, end: int, i: nat)
    requires Clocked(ts, start, end) && i < |ts|
    ensures Clocked(ts[..i], start, ts[i].now) && ts[i].now <= end
    decreases |ts|
  {
    var p, t := ts[..|ts| - 1], ts[|ts| - 1];
    if i < |p| {
      ClockedPrefix(p, start, t.now, i);
      assert p[..i] == ts[..i];
    }
  }

  // ---------------------------------------------------------------- the program

  class Device {
    var key: Key
    var power: int
    var run: bool
    var cycle: nat
    var frame: nat
    var capacity: int
    var numFrames: nat
    var numCycles: nat
    var nextScreen: int
    var log: seq<Effect>

    function Animation(): Anim
      reads this
    {
      Anim(run, cycle, frame, capacity, numFrames, numCycles, nextScreen)
    }

    function View(): State
      reads this
    {
      State(key, power, Animation(), log)
    }

    /** main: the images, the key state and the timers; `loaded` says whether every image was found. */
    constructor (loaded: bool, now: int, held: seq<KeyEvent>)
      ensures Valid(Animation()) && run && power == -1 && log == []
      ensures key == SetKeys(Key(false, false, 0, -1), held)
      ensures Left(Animation()) == if loaded then 21 else 7
      ensures now >= 0 && (forall e :: e in held ==> 0 <= e.time <= now + 1) ==> Top(View(), now + 1)
    {
      numFrames, numCycles := if loaded then |FRAMES| else 0, if loaded then 3 else 1;
      run, cycle, frame, capacity, nextScreen := true, 0, 0, 0, now - 1;
      power, log, key := -1, [], SetKeys(Key(false, false, 0, -1), held);
      new;
      if now >= 0 && forall e :: e in held ==> 0 <= e.time <= now + 1 {
        SetKeysClocked(Key(false, false, 0, -1), held, 0, now + 1);
      }
    }

    /** set_key_callback for the power key. */
    method SetKeyCallback(e: KeyEvent)
      modifies this`key
      ensures key == SetKey(old(key), e)
    {
      if key.down == e.down { return; }
      if e.down { key := key.(timestamp := e.time); }
      key := key.(down := e.down, pending := true);
    }

    /** handle_input_state with process_key and set_next_key_check. */
    method HandleInputState(now: int)
      modifies this`key, this`run, this`log
      ensures key == Input(old(key), now) && run == (old(run) || Released(old(key)))
      ensures log == old(log) + InputEffects(old(key), now)
    {
      if key.down {
        var then_ := key.timestamp + POWER_ON_KEY_TIME;
        if now >= then_ {
          log := log + [Reboot];
        } else if key.next == -1 || then_ < key.next {
          key := key.(next := then_);
        }
      } else if key.pending {
        log, run := log + [Suspend(false)], true;
      }
      key := key.(pending := false);
      if key.next != -1 && now > key.next { key := key.(next := -1); }
    }

    /** handle_power_supply_state. */
    method HandlePowerSupplyState(now: int, online: nat)
      modifies this`power, this`run, this`log
      ensures power == Power(old(power), now, online) && run == (old(run) || Plugged(old(power), online))
      ensures log == old(log) + PowerEffects(old(power), now, online)
    {
      if online == 0 {
        log := log + [Suspend(false)];
        if power == -1 {
          power := now + UNPLUGGED_SHUTDOWN_TIME;
        } else if now >= power {
          log := log + [PowerOff];
        }
      } else {
        if power != -1 { run := true; }
        power := -1;
      }
    }

    /** The search for the first frame of a cycle. */
    method FindLevel(cap: int) returns (f: nat)
      requires 0 < numFrames <= |FRAMES|
      ensures f == Level(cap, 1, numFrames)
    {
      var i := 1;
      while i < numFrames && cap >= FRAMES[i].minCapacity
        invariant 1 <= i <= numFrames && Level(cap, 1, numFrames) == Level(cap, i, numFrames)
      {
        i := i + 1;
      }
      f := i - 1;
    }

    /** Steps to the next frame, skipping those shown for their level only, and to the next cycle. */
    method Advance()
      requires frame < numFrames <= |FRAMES|
      modifies this`frame, this`cycle
      ensures var g := Skip(old(frame) + 1, numFrames);
              if g == numFrames then cycle == old(cycle) + 1 && frame == 0 else cycle == old(cycle) && frame == g
    {
      frame := frame + 1;
      while frame < numFrames && FRAMES[frame].levelOnly
        invariant cycle == old(cycle)
        invariant frame <= numFrames && Skip(frame, numFrames) == Skip(old(frame) + 1, numFrames)
        decreases numFrames - frame
      {
        frame := frame + 1;
      }
      if frame >= numFrames { cycle, frame := cycle + 1, 0; }
    }

    /** update_screen_state. */
    method UpdateScreenState(now: int, online: nat, cap: int)
      requires Valid(Animation())
      modifies this`run, this`cycle, this`frame, this`capacity, this`nextScreen, this`log
      ensures Animation() == Screen(old(Animation()), now, cap)
      ensures log == old(log) + ScreenEffects(old(Animation()), now, online, cap)
    {
      if !run || now < nextScreen { return; }
      if cycle == numCycles {
        run, cycle, frame, nextScreen := false, 0, 0, -1;
        log := log + [Blank(true)];
        if online > 0 { log := log + [Suspend(true)]; }
        return;
      }
      var dispTime := FRAMES[frame].dispTime;
      if frame == 0 {
        if cap >= 0 && numFrames != 0 {
          frame := FindLevel(cap);
          dispTime := FRAMES[frame].dispTime * 2;
        }
        capacity := cap;
      }
      if cycle == 0 { log := log + [Blank(false)]; }
      if numFrames == 0 || capacity < 0 {
        log := log + [DrawUnknown];
        nextScreen, cycle := now + BATTERY_UNKNOWN_TIME, cycle + 1;
        return;
      }
      log := log + [Draw(frame)];
      nextScreen := now + dispTime;
      Advance();
    }

    /** The timeout of wait_next_event. */
    method WaitNextEvent(now: int) returns (timeout: int)
      requires 0 <= now && now + UNPLUGGED_SHUTDOWN_TIME < INT64_MAX && AllNear(View(), now)
      ensures SleepsRight(View(), now, timeout)
    {
      var next := INT64_MAX;
      if nextScreen != -1 { next := nextScreen; }
      if key.next != -1 && key.next < next { next := key.next; }
      if power != -1 && power < next { next := power; }
      if next != -1 && next != INT64_MAX {
        timeout := if next > now then next - now else 0;
        assert IsDeadline(View(), next);
      } else {
        timeout := -1;
      }
    }

    /** event_loop, for as many iterations as there are ticks on a clock that does not run backwards: its state
        is that of the reference run, and each time it goes to sleep it will wake in time. */
    method EventLoop(ts: seq<Tick>, ghost start: int, ghost end: int) returns (timeouts: seq<int>)
      requires Top(View(), start) && Clocked(ts, start, end) && end + UNPLUGGED_SHUTDOWN_TIME < INT64_MAX
      modifies this
      ensures View() == After(old(View()), ts) && AllSleepsSound(old(View()), ts, timeouts)
    {
      var i := 0;
      timeouts := [];
      while i < |ts|
        invariant i <= |ts| && |timeouts| == i
        invariant Valid(Animation()) && View() == After(old(View()), ts[..i])
        invariant AllSleepsSound(old(View()), ts[..i], timeouts)
      {
        ClockedPrefix(ts, start, end, i);
        TopInEveryRun(old(View()), start, ts[..i], ts[i].now);
        var timeout := OneIteration(ts[i]);
        assert ts[..i + 1][..i] == ts[..i] && (timeouts + [timeout])[..i] == timeouts;
        timeouts, i := timeouts + [timeout], i + 1;
      }
      assert ts[..i] == ts;
    }

    method OneIteration(t: Tick) returns (timeout: int)
      requires Top(View(), t.now) && t.now + UNPLUGGED_SHUTDOWN_TIME < INT64_MAX
      modifies this
      ensures View() == Iterate(old(View()), t) && SleepsSound(old(View()), t, timeout)
    {
      ghost var s := View();
      DeadlinesAreSet(s, t);
      HandleAll(t);
      timeout := WaitNextEvent(t.now);
      SleepIsSound(s, t, timeout);
      Dispatch(t.events);
    }

    method HandleAll(t: Tick)
      requires Valid(Animation())
      modifies this
      ensures View() == Body(old(View()), t)
    {
      HandleInputState(t.now);
      HandlePowerSupplyState(t.now, t.online);
      UpdateScreenState(t.now, t.online, t.cap);
      Regroup(old(log), InputEffects(old(key), t.now), PowerEffects(old(power), t.now, t.online),
              ScreenEffects(Kicked(old(View()), t), t.now, t.online, t.cap));
    }

    /** ev_dispatch, for the power key. */
    method Dispatch(es: seq<KeyEvent>)
      modifies this`key
      ensures key == SetKeys(old(key), es)
    {
      var j := 0;
      while j < |es|
        invariant j <= |es| && key == SetKeys(old(key), es[..j])
      {
        SetKeyCallback(es[j]);
        assert es[..j + 1][..j] == es[..j];
        j := j + 1;
      }
      assert es[..j] == es;
    }
  }

  lemma Regroup(l: seq<Effect>, x: seq<Effect>, y: seq<Effect>, z: seq<Effect>)
    ensures l + x + y + z == l + (x + y + z)
  {
  }
}
