/**
 * The controller of the revision in simple_gui.py: it owns a cumulative
 * counter and records every hardware event as a tick, the first included.
 */
module SimpleGui {
  import opened Outcomes
  import opened Ticks
  import opened ElapsedTime
  import opened CumulativeCounter

  /** The counter state after a run of events, in arrival order, whether or not some of them raised. */
  function Run(s: CounterState, events: seq<Event>): CounterState
  {
    if events == [] then s
    else
      var last := events[|events| - 1];
      AddTickStep(Run(s, events[..|events| - 1]), last.instant, last.direction, last.now).0
  }

  /** Every event adds exactly one tick, stamped with its instant, and the invariant holds throughout. */
  lemma {:induction false} RunRecordsEveryEvent(s: CounterState, events: seq<Event>)
    requires Invariant(s)
    ensures var r := Run(s, events);
            && |r.ticks| == |s.ticks| + |events|
            && (forall i :: 0 <= i < |events| ==> r.ticks[|s.ticks| + i] == Tick(events[i].instant, events[i].direction))
            && r.ticks[..|s.ticks|] == s.ticks
            && Invariant(r)
  {
    if events != [] {
      var init := events[..|events| - 1];
      var last := events[|events| - 1];
      RunRecordsEveryEvent(s, init);
      var mid := Run(s, init);
      AddTickPreservesInvariant(mid, last.instant, last.direction, last.now);
      var r := Run(s, events);
      assert r.ticks == mid.ticks + [Tick(last.instant, last.direction)];
      forall i | 0 <= i < |events|
        ensures r.ticks[|s.ticks| + i] == Tick(events[i].instant, events[i].direction)
      {
        if i < |init| {
          assert events[i] == init[i];
        }
      }
    }
  }

  class Controller {
    const counter: CumulativeCounter.Counter

    ghost predicate Valid()
      reads this, counter
    {
      counter.Valid()
    }

    constructor (now: real)
      ensures Valid() && fresh(counter)
      ensures counter.State() == InitialState(now)
    {
      counter := new CumulativeCounter.Counter(now);
    }

    /**
     * One hardware event of polarity `direction`, recorded as a tick stamped
     * `instant`; the counter divides by the later clock reading `now`.
     */
    method AddTick(direction: int, instant: real, now: real) returns (outcome: Outcome)
      requires Valid()
      modifies counter
      ensures Valid()
      ensures (counter.State(), outcome) == AddTickStep(old(counter.State()), instant, direction, now)
    {
      outcome := counter.AddTick(instant, direction, now);
    }

    /** The reset button: a new session for the counter. */
    method Reset(now: real)
      modifies counter
      ensures Valid() && counter.State() == ResetState(now)
    {
      counter.Reset(now);
    }

    /** The elapsed-time display at `now`: time since the counter's start, split for display. */
    function TimeElapsed(now: real): (t: Clock)
      reads this, counter
      ensures TotalSeconds(t) == now - counter.start
      ensures 0 <= t.minutes < 60 && 0.0 <= t.seconds < 60.0
    {
      SplitElapsed(now - counter.start)
    }
  }
}
