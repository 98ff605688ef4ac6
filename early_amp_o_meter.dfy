/**
 * The controller of the revision in amp-o-meter.py: it owns a cumulative
 * counter and a `did_tick` flag. The first hardware event only restarts the
 * counter's clock; every later event is recorded as a tick at the time it
 * arrives. The reset button starts a new session but leaves the flag set.
 */
module EarlyAmpOMeter {
  import opened Outcomes
  import opened Ticks
  import opened ElapsedTime
  import opened CumulativeCounter

  /**
   * `Controller.add_tick(direction)`: the new flag, the counter's new state
   * and how the call ends. `instant` stamps the tick; `now` is the later
   * clock reading the counter divides by (and, for the first event, the new
   * `start`).
   */
  function ControllerAddTick(didTick: bool, s: CounterState, direction: int, instant: real, now: real)
    : (r: (bool, CounterState, Outcome))
    ensures r.0
  {
    if !didTick then
      (true, s.(start := now), Completed)
    else
      var (next, outcome) := AddTickStep(s, instant, direction, now);
      (true, next, outcome)
  }

  /**
   * The flag and counter state after a run of events, in arrival order. An
   * event whose tick raises has still changed the counter, and the next
   * event starts from that state.
   */
  function Run(didTick: bool, s: CounterState, events: seq<Event>): (bool, CounterState)
  {
    if events == [] then (didTick, s)
    else
      var (flag, mid) := Run(didTick, s, events[..|events| - 1]);
      var last := events[|events| - 1];
      var r := ControllerAddTick(flag, mid, last.direction, last.instant, last.now);
      (r.0, r.1)
  }

  /**
   * The first event only restarts the clock; every later one adds one tick
   * and leaves the invariant intact.
   */
  lemma ControllerRecordsAllButFirst(didTick: bool, s: CounterState, direction: int, instant: real, now: real)
    requires Invariant(s)
    ensures var r := ControllerAddTick(didTick, s, direction, instant, now);
            && r.1.ticks == (if didTick then s.ticks + [Tick(instant, direction)] else s.ticks)
            && (!didTick ==> r.1 == s.(start := now) && r.2 == Completed)
            && Invariant(r.1)
  {
    if didTick {
      AddTickPreservesInvariant(s, instant, direction, now);
    }
  }

  /**
   * Over a run of events from a fresh controller, every event but the
   * first adds exactly one tick, and the invariant holds throughout.
   */
  lemma {:induction false} RunCountsAllButFirst(didTick: bool, s: CounterState, events: seq<Event>)
    requires Invariant(s)
    ensures var (flag, r) := Run(didTick, s, events);
            && flag == (didTick || events != [])
            && |r.ticks| == |s.ticks| + (if didTick || events == [] then |events| else |events| - 1)
            && Invariant(r)
  {
    if events != [] {
      var init := events[..|events| - 1];
      RunCountsAllButFirst(didTick, s, init);
      var (flag, mid) := Run(didTick, s, init);
      var last := events[|events| - 1];
      ControllerRecordsAllButFirst(flag, mid, last.direction, last.instant, last.now);
    }
  }

  class Controller {
    const counter: CumulativeCounter.Counter
    var didTick: bool

    ghost predicate Valid()
      reads this, counter
    {
      counter.Valid()
    }

    constructor (now: real)
      ensures Valid() && fresh(counter) && !didTick
      ensures counter.State() == InitialState(now)
    {
      counter := new CumulativeCounter.Counter(now);
      didTick := false;
    }

    /**
     * One hardware event of polarity `direction`, stamped `instant` and
     * processed by the counter at the later clock reading `now`. The first
     * event only restarts the counter's clock; every later one is recorded.
     */
    method AddTick(direction: int, instant: real, now: real) returns (outcome: Outcome)
      requires Valid()
      modifies this, counter
      ensures Valid()
      ensures (didTick, counter.State(), outcome) == ControllerAddTick(old(didTick), old(counter.State()), direction, instant, now)
    {
      if !didTick {
        counter.start := now;
        didTick := true;
        outcome := Completed;
      } else {
        outcome := counter.AddTick(instant, direction, now);
      }
    }

    /** The reset button: a new session for the counter; `didTick` stays as it is. */
    method Reset(now: real)
      modifies counter
      ensures Valid() && counter.State() == ResetState(now)
    {
      counter.Reset(now);
    }

    /** The elapsed-time display at `now`: time since the counter's start, split for display. */
    function TimeElapsed(now: real): (t: Clock)
      reads this, counter
      ensures TotalSeconds(t) == now - counter.start
      ensures 0 <= t.minutes < 60 && 0.0 <= t.seconds < 60.0
    {
      SplitElapsed(now - counter.start)
    }
  }
}
