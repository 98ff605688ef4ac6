/**
 * The cumulative-only `Counter` of the earlier revisions (amp-o-meter.py and
 * simple_gui.py carry the same code): every tick adds its fixed charge to the
 * running total, and the average current is that total over the time since
 * `start`, computed without a guard against a zero duration.
 */
module CumulativeCounter {
  import opened Outcomes
  import opened Ticks
  import opened Statistics

  /** `Tick.CHARGE`: the milli-coulombs of one tick, a fixed calibration in these revisions. */
  const Charge: real := 614.439

  /** The mutable fields of a counter, as one value. */
  datatype CounterState = CounterState(ticks: seq<Tick>, accumulatedCharge: real, avgCurrent: real, start: real)

  /** A freshly built counter whose clock started at `now`. */
  function InitialState(now: real): CounterState
  {
    CounterState([], 0.0, 0.0, now)
  }

  /** The accumulated charge is the signed charge of the ticks since the last reset. */
  predicate Invariant(s: CounterState)
  {
    s.accumulatedCharge == SignedCharge(s.ticks, Charge)
  }

  /**
   * `Counter.add_tick(instant, direction)` at time `now`. The tick and its
   * charge are recorded first; the division that follows raises when no time
   * has passed since `start`, leaving the current as it was.
   */
  function AddTickStep(s: CounterState, instant: real, direction: int, now: real): (r: (CounterState, Outcome))
    ensures r.0.ticks == s.ticks + [Tick(instant, direction)] && r.0.start == s.start
  {
    var acc := s.accumulatedCharge + Charge * direction as real;
    var recorded := s.(ticks := s.ticks + [Tick(instant, direction)], accumulatedCharge := acc);
    if now - s.start == 0.0 then (recorded, Raised(ZeroDivisionError))
    else (recorded.(avgCurrent := acc / (now - s.start)), Completed)
  }

  /** `Counter.reset()`: a new session at `now`. */
  function ResetState(now: real): CounterState
  {
    InitialState(now)
  }

  /** `add_tick` keeps the invariant, whether or not the division raises. */
  lemma AddTickPreservesInvariant(s: CounterState, instant: real, direction: int, now: real)
    requires Invariant(s)
    ensures Invariant(AddTickStep(s, instant, direction, now).0)
  {
    SignedChargeSnoc(s.ticks, Tick(instant, direction), Charge);
  }

  /**
   * `add_tick` raises exactly when no time has passed since `start`;
   * otherwise the new current times the elapsed time is the new charge.
   */
  lemma AddTickOutcome(s: CounterState, instant: real, direction: int, now: real)
    ensures var (r, outcome) := AddTickStep(s, instant, direction, now);
            && (outcome == Raised(ZeroDivisionError) <==> now == s.start)
            && (outcome == Completed <==> now != s.start)
            && (outcome == Completed ==> r.avgCurrent * (now - s.start) == r.accumulatedCharge)
            && (outcome.Raised? ==> r.avgCurrent == s.avgCurrent)
  {
    var (r, outcome) := AddTickStep(s, instant, direction, now);
    if now != s.start {
      QuotientTimesDivisor(r.accumulatedCharge, now - s.start);
    }
  }

  /** The accumulated charge is one quantum per recharging tick minus one per discharging tick. */
  lemma ChargeIsNetCount(s: CounterState)
    requires Invariant(s) && UnitDirections(s.ticks)
    ensures s.accumulatedCharge == Charge * (CountPositive(s.ticks) - CountNegative(s.ticks)) as real
  {
    SignedChargeIsScaledSum(s.ticks, Charge);
    DirectionSumIsNetCount(s.ticks);
  }

  /** A reset state satisfies the invariant, whatever came before. */
  lemma ResetSatisfiesInvariant(now: real)
    ensures Invariant(ResetState(now)) && ResetState(now).ticks == []
  {
  }

  class Counter {
    var ticks: seq<Tick>
    var accumulatedCharge: real
    var avgCurrent: real
    var start: real

    /** The counter's fields as one value. */
    function State(): CounterState
      reads this
    {
      CounterState(ticks, accumulatedCharge, avgCurrent, start)
    }

    ghost predicate Valid()
      reads this
    {
      Invariant(State())
    }

    constructor (now: real)
      ensures Valid() && State() == InitialState(now)
    {
      ticks := [];
      accumulatedCharge := 0.0;
      avgCurrent := 0.0;
      start := now;
    }

    /** Record one tick seen at `instant`; `now` is the clock reading the division uses. */
    method AddTick(instant: real, direction: int, now: real) returns (outcome: Outcome)
      requires Valid()
      modifies this
      ensures Valid()
      ensures (State(), outcome) == AddTickStep(old(State()), instant, direction, now)
    {
      AddTickPreservesInvariant(State(), instant, direction, now);
      var tick := Tick(instant, direction);
      ticks := ticks + [tick];
      accumulatedCharge := accumulatedCharge + Charge * tick.direction as real;
      if now - start == 0.0 {
        // float division by zero
        return Raised(ZeroDivisionError);
      }
      avgCurrent := accumulatedCharge / (now - start);
      outcome := Completed;
    }

    /** Start a new session at `now`. */
    method Reset(now: real)
      modifies this
      ensures Valid() && State() == ResetState(now)
    {
      ticks := [];
      accumulatedCharge := 0.0;
      avgCurrent := 0.0;
      start := now;
    }
  }
}
