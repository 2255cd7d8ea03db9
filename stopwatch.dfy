/**
 * The study stopwatch of `StopwatchProvider`: three pieces of state
 * (`isRunning`, `elapsed` in milliseconds, `lastTick`) changed by `start`,
 * `pause`, `reset` and by the body of the one-second interval that runs while
 * the watch is running. The clock is not read: every operation that reads
 * `Date.now()` takes the current time as `now`.
 */
module StopwatchContext {
  import opened Wrappers

  /** A snapshot of the provider's state. */
  datatype Watch = Watch(isRunning: bool, elapsed: int, lastTick: Option<int>)

  /** What can happen to the watch: a button press, or one firing of the interval. */
  datatype Event = Start(now: int) | Pause | Reset | Tick(now: int)

  const Initial := Watch(false, 0, None)

  /** What the handlers keep: a running watch always has a tick to measure from,
      because `start` records one and nothing else clears it while running. */
  predicate Consistent(w: Watch) {
    w.isRunning ==> w.lastTick.Some?
  }

  /** The time one interval firing adds: `now - (lastTick ?? now)`. */
  function TickGain(w: Watch, now: int): (g: int)
    ensures w.lastTick == None ==> g == 0
    ensures w.lastTick.Some? && w.lastTick.value <= now ==> g >= 0
  {
    match w.lastTick
    case None => 0
    case Some(t) => now - t
  }

  /** One event applied to a snapshot. The interval exists only while the watch is
      running, so a tick of a stopped watch does nothing. */
  function Step(w: Watch, e: Event): (r: Watch)
    ensures Consistent(w) ==> Consistent(r)
    ensures e.Reset? ==> r == Initial
    ensures !e.Reset? && !(e.Tick? && w.isRunning) ==> r.elapsed == w.elapsed
  {
    match e
    case Start(now) => w.(isRunning := true, lastTick := Some(now))
    case Pause => w.(isRunning := false)
    case Reset => Initial
    case Tick(now) =>
      if w.isRunning then w.(elapsed := w.elapsed + TickGain(w, now), lastTick := Some(now))
      else w
  }

  /** A history of events applied in order. */
  function Run(w: Watch, events: seq<Event>): (r: Watch)
    ensures (forall i :: 0 <= i < |events| ==> events[i].Start? || events[i].Pause?) ==> r.elapsed == w.elapsed
    decreases |events|
  {
    if events == [] then w else Run(Step(w, events[0]), events[1..])
  }

  /** The time carried by an event, if it reads the clock. */
  function TimeOf(e: Event): Option<int> {
    match e
    case Start(now) => Some(now)
    case Tick(now) => Some(now)
    case _ => None
  }

  /** Every clock reading in `events` is at least `t` and readings never go back. */
  predicate ClockFrom(t: int, events: seq<Event>)
    decreases |events|
  {
    events == [] ||
    match TimeOf(events[0])
    case None => ClockFrom(t, events[1..])
    case Some(now) => t <= now && ClockFrom(now, events[1..])
  }

  /** The last recorded tick is no later than `t`. */
  predicate TickedBy(w: Watch, t: int) {
    w.lastTick.Some? ==> w.lastTick.value <= t
  }

  predicate NoReset(events: seq<Event>) {
    forall i :: 0 <= i < |events| ==> !events[i].Reset?
  }

  /** A run keeps the watch consistent. */
  lemma {:induction false} RunConsistent(w: Watch, events: seq<Event>)
    requires Consistent(w)
    ensures Consistent(Run(w, events))
    decreases |events|
  {
    if events != [] {
      RunConsistent(Step(w, events[0]), events[1..]);
    }
  }

  /** `reset` returns to the initial snapshot, whatever came before. */
  lemma ResetForgets(w: Watch, events: seq<Event>)
    ensures Run(w, events + [Reset]) == Initial
  {
    RunAppend(w, events, [Reset]);
  }

  /** Running a history in two parts is running it at once. */
  lemma {:induction false} RunAppend(w: Watch, a: seq<Event>, b: seq<Event>)
    ensures Run(w, a + b) == Run(Run(w, a), b)
    decreases |a|
  {
    if a != [] {
      assert (a + b)[0] == a[0];
      assert (a + b)[1..] == a[1..] + b;
      RunAppend(Step(w, a[0]), a[1..], b);
    } else {
      assert a + b == b;
    }
  }

  /** With a clock that never goes back, `elapsed` never decreases unless the watch
      is reset. */
  lemma {:induction false} ElapsedMonotone(w: Watch, t: int, events: seq<Event>)
    requires TickedBy(w, t) && ClockFrom(t, events) && NoReset(events)
    ensures Run(w, events).elapsed >= w.elapsed
    decreases |events|
  {
    if events != [] {
      var e := events[0];
      var w' := Step(w, e);
      assert !e.Reset?;
      var t' := match TimeOf(e) case None => t case Some(now) => now;
      assert TickedBy(w', t');
      assert NoReset(events[1..]) by {
        forall i | 0 <= i < |events[1..]| ensures !events[1..][i].Reset? {
          assert events[1..][i] == events[i + 1];
        }
      }
      ElapsedMonotone(w', t', events[1..]);
    }
  }

  /** Interval firings at the given times. */
  function Ticks(times: seq<int>): (r: seq<Event>)
    ensures |r| == |times|
    ensures forall i :: 0 <= i < |r| ==> r[i] == Tick(times[i])
  {
    if times == [] then [] else [Tick(times[0])] + Ticks(times[1..])
  }

  /** Interval firings of a running watch telescope: together they add the time
      from the last recorded tick to the last firing. */
  lemma {:induction false} TicksTelescope(w: Watch, t0: int, times: seq<int>)
    requires w.isRunning && w.lastTick == Some(t0) && times != []
    ensures Run(w, Ticks(times)) ==
      w.(elapsed := w.elapsed + times[|times| - 1] - t0, lastTick := Some(times[|times| - 1]))
    decreases |times|
  {
    var w' := Step(w, Tick(times[0]));
    assert Ticks(times)[1..] == Ticks(times[1..]);
    if |times| > 1 {
      TicksTelescope(w', times[0], times[1..]);
    }
  }

  /** Firings of a stopped watch change nothing: paused time is not counted. */
  lemma {:induction false} StoppedTicksAddNothing(w: Watch, times: seq<int>)
    requires !w.isRunning
    ensures Run(w, Ticks(times)) == w
    decreases |times|
  {
    if times != [] {
      assert Ticks(times)[1..] == Ticks(times[1..]);
      StoppedTicksAddNothing(w, times[1..]);
    }
  }

  /** After a pause, however long the watch stays stopped, pressing start and letting
      the interval fire counts only the time since the start press: the last tick
      from before the pause no longer matters. */
  lemma PausedTimeNotCounted(w: Watch, idle: seq<int>, start: int, times: seq<int>)
    requires times != []
    ensures Run(w, [Pause] + Ticks(idle) + [Start(start)] + Ticks(times)).elapsed ==
      w.elapsed + times[|times| - 1] - start
  {
    var idleTicks, runTicks := Ticks(idle), Ticks(times);
    var p := Step(w, Pause);
    var s := Step(p, Start(start));
    var rest := [Start(start)] + runTicks;
    assert [Pause] + idleTicks + [Start(start)] + runTicks == [Pause] + (idleTicks + rest);
    RunAppend(w, [Pause], idleTicks + rest);
    assert Run(w, [Pause]) == p;
    RunAppend(p, idleTicks, rest);
    StoppedTicksAddNothing(p, idle);
    RunAppend(p, [Start(start)], runTicks);
    assert Run(p, [Start(start)]) == s;
    TicksTelescope(s, start, times);
  }

  /** The provider itself: its three state variables, changed by the handlers. */
  class Stopwatch {
    var isRunning: bool
    var elapsed: int
    var lastTick: Option<int>

    function Snapshot(): Watch
      reads this
    {
      Watch(isRunning, elapsed, lastTick)
    }

    /** `useState(false)`, `useState(0)`, `useState(null)`. */
    constructor()
      ensures Snapshot() == Initial
    {
      isRunning := false;
      elapsed := 0;
      lastTick := None;
    }

    /** `start`: run, and measure from now; the elapsed time is kept. */
    method Start(now: int)
      modifies this
      ensures isRunning && lastTick == Some(now) && elapsed == old(elapsed)
      ensures Snapshot() == Step(old(Snapshot()), Event.Start(now))
    {
      isRunning := true;
      lastTick := Some(now);
    }

    /** `pause`: only the running flag changes. */
    method Pause()
      modifies this`isRunning
      ensures !isRunning
      ensures Snapshot() == Step(old(Snapshot()), Event.Pause)
    {
      isRunning := false;
    }

    /** `reset`: stopped, zero, no tick. */
    method Reset()
      modifies this
      ensures !isRunning && elapsed == 0 && lastTick == None
      ensures Snapshot() == Step(old(Snapshot()), Event.Reset)
    {
      isRunning := false;
      elapsed := 0;
      lastTick := None;
    }

    /** One firing of the interval, if it is installed (only while running): add the
        time since the last tick and record this one. */
    method Tick(now: int)
      modifies this
      ensures old(isRunning) ==> isRunning && lastTick == Some(now)
      ensures old(isRunning) && old(lastTick).Some? ==>
                elapsed == old(elapsed) + now - old(lastTick).value
      ensures old(isRunning) && old(lastTick) == None ==> elapsed == old(elapsed)
      ensures !old(isRunning) ==> unchanged(this)
      ensures Snapshot() == Step(old(Snapshot()), Event.Tick(now))
    {
      if isRunning {
        var gain := match lastTick case None => 0 case Some(t) => now - t;
        elapsed := elapsed + gain;
        lastTick := Some(now);
      }
    }
  }
}
