/**
 * The counting engine of amp_o_meter.py. A `Counter` keeps the ticks seen
 * since the last reset and derives from them the accumulated charge (over a
 * moving window of `maPeriod` ticks, or since the reset when `maPeriod` is
 * 0), the average current, the tick rate and a jitter-based uncertainty of
 * the current. A `Controller` feeds it one hardware event at a time and
 * ignores the very first event except to restart the clock.
 *
 * The effect of each operation is first given as a function on a
 * `CounterState` value; the classes update their fields in place and promise
 * that their new state is what those functions compute.
 *
 * Charges are in milli-coulombs, currents in milli-amperes, times in
 * seconds. Every read of the clock within one call is the parameter `now`.
 */
module AmpOMeter {
  import opened Outcomes
  import opened Ticks
  import opened Statistics
  import opened ElapsedTime

  /** The sensor's gain (`Tick.GVF`). */
  const Gvf: real := 32.55

  /** `Tick.CHARGE_mC`: the milli-coulombs one tick stands for with a sense resistor of `resistorValue` ohms. */
  function ChargePerTick(resistorValue: real): (c: real)
    requires resistorValue != 0.0
    ensures c * (Gvf * resistorValue) == 1000.0
    ensures resistorValue > 0.0 ==> c > 0.0
  {
    1.0 / (Gvf * resistorValue) * 1000.0
  }

  /** A non-negative amount over a positive duration is a non-negative rate. */
  lemma QuotientNonNegative(amount: real, duration: real)
    requires amount >= 0.0 && duration > 0.0
    ensures amount / duration >= 0.0
  {
    assert amount / duration * duration == amount;
  }

  /** The mutable fields of a counter, as one value. */
  datatype CounterState = CounterState(
    ticks: seq<Tick>,
    tickDiffs: seq<real>,
    accumulatedCharge: real,
    avgCurrent: real,
    ticksPerSecond: real,
    start: real,
    stdDeviationCurrent: real,
    previousTickInstant: Option<real>)

  /** A freshly built counter whose clock started at `now`. */
  function InitialState(now: real): CounterState
  {
    CounterState([], [], 0.0, 0.0, 0.0, now, 0.0, None)
  }

  /**
   * What every reachable state satisfies: the accumulated charge is the
   * signed charge of the ticks (of the window, in the windowed mode), the
   * recorded intervals are non-negative and the rate is non-negative.
   */
  predicate Invariant(s: CounterState, maPeriod: nat, charge: real)
  {
    && (maPeriod == 0 ==> s.accumulatedCharge == SignedCharge(s.ticks, charge))
    && (maPeriod > 0 ==> s.accumulatedCharge == WindowCharge(s.ticks, maPeriod, charge))
    && NonNegative(s.tickDiffs)
    && s.ticksPerSecond >= 0.0
  }

  /**
   * What `add_tick` needs from its caller so that its interval bookkeeping
   * is defined: ticks arrive in time order, and `sd` is what
   * `statistics.pstdev` returns on the intervals after the first `maPeriod`
   * whenever that slice is not empty.
   */
  predicate IntervalReady(tickDiffs: seq<real>, previous: Option<real>, maPeriod: nat, instant: real, sd: real)
  {
    && NonNegative(tickDiffs)
    && (previous.Some? ==> previous.value <= instant)
    && (previous.Some? && maPeriod <= |tickDiffs| ==>
          IsPopStdDev(sd, (tickDiffs + [instant - previous.value])[maPeriod..]))
  }

  /**
   * The moving-window branch of `add_tick`, after the new tick was appended:
   * the window's charge, and the current and rate over the time since the
   * window's oldest tick when that time is positive.
   */
  function WindowUpdate(s: CounterState, maPeriod: nat, charge: real, now: real): (r: CounterState)
    requires maPeriod > 0 && s.ticks != []
  {
    var acc := WindowCharge(s.ticks, maPeriod, charge);
    var span := now - ReferenceInstant(s.ticks, maPeriod);
    if span > 0.0 then
      s.(accumulatedCharge := acc, avgCurrent := acc / span, ticksPerSecond := (maPeriod - 1) as real / span)
    else
      s.(accumulatedCharge := acc)
  }

  /**
   * The cumulative branch of `add_tick`, after the new tick of `direction`
   * was appended. When time has passed since `start` the current is updated
   * and the rate computation then raises, because it asks for the length of
   * a number.
   */
  function CumulativeUpdate(s: CounterState, charge: real, direction: int, now: real): (CounterState, Outcome)
  {
    var acc := s.accumulatedCharge + charge * direction as real;
    if now - s.start > 0.0 then
      (s.(accumulatedCharge := acc, avgCurrent := acc / (now - s.start)), Raised(TypeError))
    else
      (s.(accumulatedCharge := acc), Completed)
  }

  /**
   * The interval bookkeeping of `add_tick`: the first tick ever only
   * remembers its instant; every later one appends its distance from the
   * previous tick, raises when no interval lies after the first `maPeriod`
   * (the mean of an empty list), and otherwise re-estimates the uncertainty
   * from those intervals unless their standard deviation `sd` is zero.
   */
  function IntervalUpdate(s: CounterState, maPeriod: nat, charge: real, instant: real, sd: real): (CounterState, Outcome)
    requires IntervalReady(s.tickDiffs, s.previousTickInstant, maPeriod, instant, sd)
  {
    match s.previousTickInstant
    case None =>
      (s.(previousTickInstant := Some(instant)), Completed)
    case Some(previous) =>
      var diffs := s.tickDiffs + [instant - previous];
      var recorded := s.(tickDiffs := diffs, previousTickInstant := Some(instant));
      if |diffs| <= maPeriod then
        (recorded, Raised(StatisticsError))
      else if sd == 0.0 then
        (recorded, Completed)
      else
        NonNegativeAppend(s.tickDiffs, instant - previous);
        NonNegativeSuffix(diffs, maPeriod);
        JitterMeanPositive(sd, diffs[maPeriod..]);
        (recorded.(stdDeviationCurrent := Uncertainty(charge, Mean(diffs[maPeriod..]), sd)), Completed)
  }

  /** `Counter.add_tick(instant, direction)`: the new state and how the call ends. */
  function AddTickStep(s: CounterState, maPeriod: nat, charge: real, instant: real, direction: int, now: real, sd: real)
    : (r: (CounterState, Outcome))
    requires IntervalReady(s.tickDiffs, s.previousTickInstant, maPeriod, instant, sd)
    ensures r.0.ticks == s.ticks + [Tick(instant, direction)] && r.0.start == s.start
  {
    var appended := s.(ticks := s.ticks + [Tick(instant, direction)]);
    if maPeriod != 0 then
      IntervalUpdate(WindowUpdate(appended, maPeriod, charge, now), maPeriod, charge, instant, sd)
    else
      var (updated, outcome) := CumulativeUpdate(appended, charge, direction, now);
      if outcome.Raised? then (updated, outcome)
      else IntervalUpdate(updated, maPeriod, charge, instant, sd)
  }

  /** `Counter.reset()`: a new session at `now`; the interval history and the uncertainty survive it. */
  function ResetState(s: CounterState, now: real): CounterState
  {
    s.(ticks := [], accumulatedCharge := 0.0, avgCurrent := 0.0, ticksPerSecond := 0.0, start := now)
  }

  /**
   * `Controller.add_tick(direction)`: the new `did_tick`, the counter's new
   * state and how the call ends. `instant` is the clock reading the
   * controller stamps the tick with; `now` is the later reading the counter
   * divides by (and, for the first event, the new `start`).
   */
  function ControllerAddTick(didTick: Option<bool>, s: CounterState, maPeriod: nat, charge: real,
                             direction: int, instant: real, now: real, sd: real): (r: (Option<bool>, CounterState, Outcome))
    requires didTick == Some(true) ==> IntervalReady(s.tickDiffs, s.previousTickInstant, maPeriod, instant, sd)
  {
    match didTick
    case None =>
      // `did_tick` was never assigned: reading it raises
      (None, s, Raised(AttributeError))
    case Some(false) =>
      (Some(true), s.(start := now), Completed)
    case Some(true) =>
      var (next, outcome) := AddTickStep(s, maPeriod, charge, instant, direction, now, sd);
      (Some(true), next, outcome)
  }

  /** The instant the interval bookkeeping remembers after seeing `instants`. */
  function LastInstant(instants: seq<real>): Option<real>
  {
    if instants == [] then None else Some(instants[|instants| - 1])
  }

  /**
   * In the windowed mode the current and the rate are taken over the time
   * since the window's oldest tick, the rate always over `maPeriod - 1`
   * ticks; when no time has passed both keep their previous values.
   */
  lemma WindowRatesOverSpan(s: CounterState, maPeriod: nat, charge: real, now: real)
    requires maPeriod > 0 && s.ticks != []
    ensures var r := WindowUpdate(s, maPeriod, charge, now);
            var span := now - ReferenceInstant(s.ticks, maPeriod);
            && r.accumulatedCharge == WindowCharge(s.ticks, maPeriod, charge)
            && (span > 0.0 ==> r.avgCurrent * span == r.accumulatedCharge && r.ticksPerSecond * span == (maPeriod - 1) as real)
            && (span <= 0.0 ==> r.avgCurrent == s.avgCurrent && r.ticksPerSecond == s.ticksPerSecond)
            && r.ticks == s.ticks && r.tickDiffs == s.tickDiffs && r.start == s.start
  {
    var span := now - ReferenceInstant(s.ticks, maPeriod);
    if span > 0.0 {
      var r := WindowUpdate(s, maPeriod, charge, now);
      QuotientTimesDivisor(r.accumulatedCharge, span);
      QuotientTimesDivisor((maPeriod - 1) as real, span);
    }
  }

  /**
   * In the cumulative mode the tick adds its own signed charge; the current
   * is updated, to the charge over the time since `start`, exactly when that
   * time is positive, and then the call raises.
   */
  lemma CumulativeAverage(s: CounterState, charge: real, direction: int, now: real)
    ensures var (r, outcome) := CumulativeUpdate(s, charge, direction, now);
            && r.accumulatedCharge == s.accumulatedCharge + charge * direction as real
            && (outcome == Raised(TypeError) <==> now - s.start > 0.0)
            && (outcome == Completed <==> now - s.start <= 0.0)
            && (now - s.start > 0.0 ==> r.avgCurrent * (now - s.start) == r.accumulatedCharge)
            && (now - s.start <= 0.0 ==> r.avgCurrent == s.avgCurrent)
            && r.ticksPerSecond == s.ticksPerSecond
  {
    var (r, outcome) := CumulativeUpdate(s, charge, direction, now);
    if now - s.start > 0.0 {
      QuotientTimesDivisor(r.accumulatedCharge, now - s.start);
    }
  }

  /**
   * The windowed example: four recharging ticks one second apart, a window
   * of three and a quantum of 5 mC. At the fourth second the window sums the
   * last two ticks, and the current and rate are taken over two seconds.
   */
  lemma WindowExample()
    ensures var ts := [Tick(0.0, 1), Tick(1.0, 1), Tick(2.0, 1), Tick(3.0, 1)];
            var r := WindowUpdate(CounterState(ts, [], 0.0, 0.0, 0.0, 0.0, 0.0, None), 3, 5.0, 3.0);
            r.accumulatedCharge == 10.0 && r.avgCurrent == 5.0 && r.ticksPerSecond == 1.0
  {
    var ts := [Tick(0.0, 1), Tick(1.0, 1), Tick(2.0, 1), Tick(3.0, 1)];
    assert ts[WindowStart(ts, 3) + 1..] == [Tick(2.0, 1), Tick(3.0, 1)];
    assert [Tick(2.0, 1), Tick(3.0, 1)][..1] == [Tick(2.0, 1)];
    assert [Tick(2.0, 1)][..0] == [];
  }

  /** A new counter satisfies the invariant in either mode. */
  lemma InitialStateSatisfiesInvariant(maPeriod: nat, charge: real, now: real)
    ensures Invariant(InitialState(now), maPeriod, charge)
  {
  }

  /**
   * The interval bookkeeping touches only the interval fields and the
   * uncertainty, and keeps the intervals non-negative.
   */
  lemma IntervalUpdateKeepsCharge(s: CounterState, maPeriod: nat, charge: real, instant: real, sd: real)
    requires IntervalReady(s.tickDiffs, s.previousTickInstant, maPeriod, instant, sd)
    ensures var r := IntervalUpdate(s, maPeriod, charge, instant, sd).0;
            && r.ticks == s.ticks && r.accumulatedCharge == s.accumulatedCharge
            && r.avgCurrent == s.avgCurrent && r.ticksPerSecond == s.ticksPerSecond && r.start == s.start
            && NonNegative(r.tickDiffs)
  {
    if s.previousTickInstant.Some? {
      NonNegativeAppend(s.tickDiffs, instant - s.previousTickInstant.value);
    }
  }

  /**
   * The recorded intervals stay the consecutive differences of the instants
   * the bookkeeping has seen, and the remembered instant stays the last of them.
   */
  lemma IntervalUpdateTracksInstants(s: CounterState, instants: seq<real>, maPeriod: nat, charge: real,
                                     instant: real, sd: real)
    requires IntervalReady(s.tickDiffs, s.previousTickInstant, maPeriod, instant, sd)
    requires s.tickDiffs == Intervals(instants) && s.previousTickInstant == LastInstant(instants)
    ensures var r := IntervalUpdate(s, maPeriod, charge, instant, sd).0;
            r.tickDiffs == Intervals(instants + [instant]) && r.previousTickInstant == LastInstant(instants + [instant])
  {
    if instants == [] {
      assert Intervals([instant]) == [];
    } else {
      IntervalsAppend(instants, instant);
    }
  }

  /** `add_tick` keeps the counter's invariant, whichever way it ends. */
  lemma AddTickPreservesInvariant(s: CounterState, maPeriod: nat, charge: real, instant: real, direction: int,
                                  now: real, sd: real)
    requires Invariant(s, maPeriod, charge) && IntervalReady(s.tickDiffs, s.previousTickInstant, maPeriod, instant, sd)
    ensures Invariant(AddTickStep(s, maPeriod, charge, instant, direction, now, sd).0, maPeriod, charge)
  {
    var appended := s.(ticks := s.ticks + [Tick(instant, direction)]);
    if maPeriod != 0 {
      var windowed := WindowUpdate(appended, maPeriod, charge, now);
      var span := now - ReferenceInstant(appended.ticks, maPeriod);
      if span > 0.0 {
        QuotientNonNegative((maPeriod - 1) as real, span);
      }
      IntervalUpdateKeepsCharge(windowed, maPeriod, charge, instant, sd);
    } else {
      SignedChargeSnoc(s.ticks, Tick(instant, direction), charge);
      var (updated, outcome) := CumulativeUpdate(appended, charge, direction, now);
      if !outcome.Raised? {
        IntervalUpdateKeepsCharge(updated, maPeriod, charge, instant, sd);
      }
    }
  }

  /**
   * How `add_tick` ends: with a `TypeError` exactly in the cumulative mode
   * once time has passed since `start`; otherwise with a `StatisticsError`
   * exactly when an interval is recorded but none lies after the first
   * `maPeriod`; otherwise normally.
   */
  lemma AddTickOutcome(s: CounterState, maPeriod: nat, charge: real, instant: real, direction: int,
                       now: real, sd: real)
    requires IntervalReady(s.tickDiffs, s.previousTickInstant, maPeriod, instant, sd)
    ensures var outcome := AddTickStep(s, maPeriod, charge, instant, direction, now, sd).1;
            && (outcome == Raised(TypeError) <==> maPeriod == 0 && now - s.start > 0.0)
            && (outcome == Raised(StatisticsError) <==>
                  !(maPeriod == 0 && now - s.start > 0.0)
                  && s.previousTickInstant.Some? && |s.tickDiffs| + 1 <= maPeriod)
            && (outcome.Raised? ==> outcome == Raised(TypeError) || outcome == Raised(StatisticsError))
  {
  }

  /**
   * The interval bookkeeping changes the uncertainty exactly from jittered
   * intervals: when it changes, the intervals after the first `maPeriod` are
   * not all equal and the new value lies strictly between 0 and the current
   * the mean interval implies; and when a new interval leaves such jittered
   * intervals, the uncertainty is set to `C/mean - C/(mean + sd)`.
   */
  lemma IntervalUpdateJitter(s: CounterState, maPeriod: nat, charge: real, instant: real, sd: real)
    requires IntervalReady(s.tickDiffs, s.previousTickInstant, maPeriod, instant, sd) && charge > 0.0
    ensures var r := IntervalUpdate(s, maPeriod, charge, instant, sd).0;
            r.stdDeviationCurrent != s.stdDeviationCurrent ==>
              && maPeriod < |r.tickDiffs| && !AllEqual(r.tickDiffs[maPeriod..])
              && Mean(r.tickDiffs[maPeriod..]) > 0.0
              && 0.0 < r.stdDeviationCurrent < charge / Mean(r.tickDiffs[maPeriod..])
    ensures var r := IntervalUpdate(s, maPeriod, charge, instant, sd).0;
            s.previousTickInstant.Some? && maPeriod < |r.tickDiffs| && !AllEqual(r.tickDiffs[maPeriod..]) ==>
              && Mean(r.tickDiffs[maPeriod..]) > 0.0 && sd > 0.0
              && r.stdDeviationCurrent == Uncertainty(charge, Mean(r.tickDiffs[maPeriod..]), sd)
  {
    var r := IntervalUpdate(s, maPeriod, charge, instant, sd).0;
    if s.previousTickInstant.Some? {
      var previous := s.previousTickInstant.value;
      var diffs := s.tickDiffs + [instant - previous];
      assert r.tickDiffs == diffs;
      if maPeriod < |diffs| {
        var recent := diffs[maPeriod..];
        NonNegativeAppend(s.tickDiffs, instant - previous);
        NonNegativeSuffix(diffs, maPeriod);
        StdDevZeroIffAllEqual(sd, recent);
        if sd != 0.0 {
          JitterMeanPositive(sd, recent);
          UncertaintyBounds(charge, Mean(recent), sd);
        }
      }
    }
  }

  /**
   * The same over a whole `add_tick`: the uncertainty only ever changes to a
   * positive value below the current the mean interval implies, computed
   * from intervals after the first `maPeriod` that are not all equal; and
   * unless the call raised before its interval bookkeeping, such intervals
   * set it to `C/mean - C/(mean + sd)`.
   */
  lemma UncertaintyOnlyFromJitter(s: CounterState, maPeriod: nat, charge: real, instant: real, direction: int,
                                  now: real, sd: real)
    requires IntervalReady(s.tickDiffs, s.previousTickInstant, maPeriod, instant, sd) && charge > 0.0
    ensures var r := AddTickStep(s, maPeriod, charge, instant, direction, now, sd).0;
            r.stdDeviationCurrent != s.stdDeviationCurrent ==>
              && maPeriod < |r.tickDiffs| && !AllEqual(r.tickDiffs[maPeriod..])
              && Mean(r.tickDiffs[maPeriod..]) > 0.0
              && 0.0 < r.stdDeviationCurrent < charge / Mean(r.tickDiffs[maPeriod..])
    ensures var r := AddTickStep(s, maPeriod, charge, instant, direction, now, sd).0;
            !(maPeriod == 0 && now - s.start > 0.0) && s.previousTickInstant.Some?
            && maPeriod < |r.tickDiffs| && !AllEqual(r.tickDiffs[maPeriod..]) ==>
              && Mean(r.tickDiffs[maPeriod..]) > 0.0 && sd > 0.0
              && r.stdDeviationCurrent == Uncertainty(charge, Mean(r.tickDiffs[maPeriod..]), sd)
  {
    var appended := s.(ticks := s.ticks + [Tick(instant, direction)]);
    if maPeriod != 0 {
      IntervalUpdateJitter(WindowUpdate(appended, maPeriod, charge, now), maPeriod, charge, instant, sd);
    } else {
      var (updated, outcome) := CumulativeUpdate(appended, charge, direction, now);
      if !outcome.Raised? {
        IntervalUpdateJitter(updated, maPeriod, charge, instant, sd);
      }
    }
  }

  /** In the cumulative mode the accumulated charge is one quantum per recharging tick minus one per discharging tick. */
  lemma CumulativeChargeIsNetCount(s: CounterState, charge: real)
    requires Invariant(s, 0, charge) && UnitDirections(s.ticks)
    ensures s.accumulatedCharge == charge * (CountPositive(s.ticks) - CountNegative(s.ticks)) as real
  {
    SignedChargeIsScaledSum(s.ticks, charge);
    DirectionSumIsNetCount(s.ticks);
  }

  /** In the windowed mode the accumulated charge is at most `maPeriod - 1` quanta in magnitude. */
  lemma WindowedChargeIsBounded(s: CounterState, maPeriod: nat, charge: real)
    requires maPeriod > 0 && Invariant(s, maPeriod, charge) && UnitDirections(s.ticks)
    ensures s.accumulatedCharge == charge * WindowNet(s.ticks, maPeriod) as real
    ensures -(maPeriod - 1) <= WindowNet(s.ticks, maPeriod) <= maPeriod - 1
  {
    WindowChargeIsScaledNet(s.ticks, maPeriod, charge);
    WindowNetBound(s.ticks, maPeriod);
  }

  /** `reset` keeps the invariant and clears the session, but not the interval history or the uncertainty. */
  lemma ResetPreservesInvariant(s: CounterState, maPeriod: nat, charge: real, now: real)
    requires Invariant(s, maPeriod, charge)
    ensures Invariant(ResetState(s, now), maPeriod, charge)
    ensures ResetState(s, now).ticks == [] && ResetState(s, now).start == now
    ensures ResetState(s, now).tickDiffs == s.tickDiffs
    ensures ResetState(s, now).previousTickInstant == s.previousTickInstant
    ensures ResetState(s, now).stdDeviationCurrent == s.stdDeviationCurrent
  {
  }

  /**
   * The controller records a tick for every event but the first: the first
   * only restarts the counter's clock, and without a user interface every
   * event raises and changes nothing.
   */
  lemma ControllerRecordsAllButFirst(didTick: Option<bool>, s: CounterState, maPeriod: nat, charge: real,
                                     direction: int, instant: real, now: real, sd: real)
    requires didTick == Some(true) ==> IntervalReady(s.tickDiffs, s.previousTickInstant, maPeriod, instant, sd)
    ensures var r := ControllerAddTick(didTick, s, maPeriod, charge, direction, instant, now, sd);
            && r.1.ticks == (if didTick == Some(true) then s.ticks + [Tick(instant, direction)] else s.ticks)
            && (didTick == None <==> r.2 == Raised(AttributeError))
            && (didTick == None ==> r.0 == None && r.1 == s)
            && (didTick.Some? ==> r.0 == Some(true))
            && (didTick == Some(false) ==> r.1 == s.(start := now) && r.2 == Completed)
  {
    if didTick == Some(true) {
      AddTickOutcome(s, maPeriod, charge, instant, direction, now, sd);
    }
  }

  /**
   * The first tick recorded after a reset, in the windowed mode: the window
   * holds that tick alone, so its charge is 0, and once the clock has moved
   * past the tick's instant the rate becomes `maPeriod - 1` ticks over that
   * short span.
   */
  lemma FirstWindowedTickRate(s: CounterState, maPeriod: nat, charge: real,
                              direction: int, instant: real, now: real, sd: real)
    requires maPeriod > 0 && s.ticks == [] && instant < now
    requires IntervalReady(s.tickDiffs, s.previousTickInstant, maPeriod, instant, sd)
    ensures var r := ControllerAddTick(Some(true), s, maPeriod, charge, direction, instant, now, sd).1;
            && r.accumulatedCharge == 0.0 && r.avgCurrent == 0.0
            && r.ticksPerSecond * (now - instant) == (maPeriod - 1) as real
  {
    var appended := s.(ticks := [Tick(instant, direction)]);
    WindowRatesOverSpan(appended, maPeriod, charge, now);
    var windowed := WindowUpdate(appended, maPeriod, charge, now);
    IntervalUpdateKeepsCharge(windowed, maPeriod, charge, instant, sd);
  }

  class Counter {
    var ticks: seq<Tick>
    /** Intervals between consecutive ticks; never cleared by `Reset`. */
    var tickDiffs: seq<real>
    var accumulatedCharge: real
    var avgCurrent: real
    var ticksPerSecond: real
    var start: real
    var stdDeviationCurrent: real
    var previousTickInstant: Option<real>
    /** Window size in ticks; 0 selects the cumulative mode. */
    const maPeriod: nat
    /** The charge per tick fixed at construction. */
    const chargeMC: real
    /** The instants of every tick that reached the interval bookkeeping, in order. */
    ghost var instants: seq<real>

    /** The counter's fields as one value. */
    function State(): CounterState
      reads this
    {
      CounterState(ticks, tickDiffs, accumulatedCharge, avgCurrent, ticksPerSecond, start,
                   stdDeviationCurrent, previousTickInstant)
    }

    ghost predicate Valid()
      reads this
    {
      && Invariant(State(), maPeriod, chargeMC)
      && tickDiffs == Intervals(instants)
      && previousTickInstant == LastInstant(instants)
    }

    constructor (resistorValue: real, maPeriod: nat, now: real)
      requires resistorValue != 0.0
      ensures Valid()
      ensures State() == InitialState(now) && instants == []
      ensures this.maPeriod == maPeriod && chargeMC == ChargePerTick(resistorValue)
    {
      ticks := [];
      tickDiffs := [];
      accumulatedCharge := 0.0;
      avgCurrent := 0.0;
      ticksPerSecond := 0.0;
      start := now;
      stdDeviationCurrent := 0.0;
      previousTickInstant := None;
      this.maPeriod := maPeriod;
      chargeMC := ChargePerTick(resistorValue);
      instants := [];
    }

    function NumberOfTicks(): (n: nat)
      reads this
      ensures n == |ticks|
    {
      |ticks|
    }

    method NumberOfPositiveTicks() returns (counter: nat)
      ensures counter == CountPositive(ticks)
    {
      counter := 0;
      for i := 0 to |ticks|
        invariant counter == CountPositive(ticks[..i])
      {
        assert ticks[..i + 1][..i] == ticks[..i];
        if ticks[i].direction > 0 {
          counter := counter + 1;
        }
      }
      assert ticks[..|ticks|] == ticks;
    }

    method NumberOfNegativeTicks() returns (counter: nat)
      ensures counter == CountNegative(ticks)
    {
      counter := 0;
      for i := 0 to |ticks|
        invariant counter == CountNegative(ticks[..i])
      {
        assert ticks[..i + 1][..i] == ticks[..i];
        if ticks[i].direction < 0 {
          counter := counter + 1;
        }
      }
      assert ticks[..|ticks|] == ticks;
    }

    /**
     * The loop of the moving-window branch of `add_tick`: walk the last
     * `maPeriod` ticks, take the first as the time reference and add up the
     * charge of the others into the accumulated charge.
     */
    method SumWindow() returns (referenceInstant: real)
      requires maPeriod > 0 && ticks != []
      modifies this`accumulatedCharge
      ensures accumulatedCharge == WindowCharge(ticks, maPeriod, chargeMC)
      ensures referenceInstant == ReferenceInstant(ticks, maPeriod)
    {
      accumulatedCharge := 0.0;
      var window := LastTicks(ticks, maPeriod);
      var reference: Option<real> := None;
      for i := 0 to |window|
        invariant i == 0 ==> reference == None && accumulatedCharge == 0.0
        invariant i > 0 ==> reference == Some(window[0].instant)
        invariant i > 0 ==> accumulatedCharge == SignedCharge(window[1..i], chargeMC)
      {
        if reference == None {
          reference := Some(window[i].instant);
        } else {
          assert window[1..i + 1][..i - 1] == window[1..i];
          accumulatedCharge := accumulatedCharge + chargeMC * window[i].direction as real;
        }
      }
      assert window[1..|window|] == ticks[WindowStart(ticks, maPeriod) + 1..];
      referenceInstant := reference.value;
    }

    /**
     * The moving-window branch of `add_tick`: the window's charge, then the
     * current and the rate over the time since the window's oldest tick.
     */
    method RecomputeWindow(now: real)
      requires maPeriod > 0 && ticks != []
      modifies this`accumulatedCharge, this`avgCurrent, this`ticksPerSecond
      ensures State() == WindowUpdate(old(State()), maPeriod, chargeMC, now)
    {
      var referenceInstant := SumWindow();
      var span := now - referenceInstant;
      if span > 0.0 {
        avgCurrent := accumulatedCharge / span;
        ticksPerSecond := (maPeriod - 1) as real / span;
      }
    }

    /** The interval bookkeeping of `add_tick`. */
    method RecordInterval(instant: real, sd: real) returns (outcome: Outcome)
      requires IntervalReady(tickDiffs, previousTickInstant, maPeriod, instant, sd)
      modifies this`tickDiffs, this`previousTickInstant, this`stdDeviationCurrent
      ensures (State(), outcome) == IntervalUpdate(old(State()), maPeriod, chargeMC, instant, sd)
    {
      if previousTickInstant == None {
        previousTickInstant := Some(instant);
        return Completed;
      }
      var previous := previousTickInstant.value;
      tickDiffs := tickDiffs + [instant - previous];
      previousTickInstant := Some(instant);
      if |tickDiffs| <= maPeriod {
        // the mean of an empty slice raises
        return Raised(StatisticsError);
      }
      var recent := tickDiffs[maPeriod..];
      var mean := Mean(recent);
      if sd != 0.0 {
        NonNegativeAppend(old(tickDiffs), instant - previous);
        NonNegativeSuffix(tickDiffs, maPeriod);
        JitterMeanPositive(sd, recent);
        stdDeviationCurrent := chargeMC / mean - chargeMC / (mean + sd);
      }
      outcome := Completed;
    }

    /**
     * The cumulative branch of `add_tick`: add the tick's charge and, when
     * time has passed since `start`, update the current; the rate computation
     * that follows raises.
     */
    method Accumulate(direction: int, now: real) returns (outcome: Outcome)
      modifies this`accumulatedCharge, this`avgCurrent
      ensures (State(), outcome) == CumulativeUpdate(old(State()), chargeMC, direction, now)
    {
      accumulatedCharge := accumulatedCharge + chargeMC * direction as real;
      if now - start > 0.0 {
        avgCurrent := accumulatedCharge / (now - start);
        // `len(self.ticks_per_second)`: the rate is a number, so `len` raises
        return Raised(TypeError);
      }
      outcome := Completed;
    }

    /**
     * Record one tick. `sd` is the value `statistics.pstdev` returns for the
     * intervals after the first `maPeriod`, as the caller must supply it
     * whenever that slice is not empty.
     */
    method AddTick(instant: real, direction: int, now: real, sd: real) returns (outcome: Outcome)
      requires Valid() && IntervalReady(tickDiffs, previousTickInstant, maPeriod, instant, sd)
      modifies this
      ensures Valid()
      ensures (State(), outcome) == AddTickStep(old(State()), maPeriod, chargeMC, instant, direction, now, sd)
      ensures instants == if maPeriod == 0 && now - old(start) > 0.0 then old(instants) else old(instants) + [instant]
    {
      ghost var before := State();
      AddTickPreservesInvariant(before, maPeriod, chargeMC, instant, direction, now, sd);
      ticks := ticks + [Tick(instant, direction)];
      ghost var appended := State();
      assert appended == before.(ticks := before.ticks + [Tick(instant, direction)]);
      if maPeriod != 0 {
        RecomputeWindow(now);
        assert State() == WindowUpdate(appended, maPeriod, chargeMC, now);
      } else {
        outcome := Accumulate(direction, now);
        assert (State(), outcome) == CumulativeUpdate(appended, chargeMC, direction, now);
        if outcome.Raised? {
          return;
        }
      }
      ghost var charged := State();
      IntervalUpdateTracksInstants(charged, instants, maPeriod, chargeMC, instant, sd);
      outcome := RecordInterval(instant, sd);
      assert (State(), outcome) == IntervalUpdate(charged, maPeriod, chargeMC, instant, sd);
      instants := instants + [instant];
    }

    /** Start a new session at `now`; the interval history and the uncertainty survive. */
    method Reset(now: real)
      requires Valid()
      modifies this
      ensures Valid()
      ensures State() == ResetState(old(State()), now) && instants == old(instants)
    {
      ResetPreservesInvariant(State(), maPeriod, chargeMC, now);
      ticks := [];
      accumulatedCharge := 0.0;
      avgCurrent := 0.0;
      ticksPerSecond := 0.0;
      start := now;
    }
  }

  class Controller {
    const counter: Counter
    /** `None` when the user interface is off: the constructor returns before assigning it. */
    var didTick: Option<bool>

    ghost predicate Valid()
      reads this, counter
    {
      counter.Valid()
    }

    constructor (resistorValue: real, maPeriod: nat, uiEnabled: bool, now: real)
      requires resistorValue != 0.0
      ensures Valid() && fresh(counter)
      ensures counter.State() == InitialState(now)
      ensures counter.maPeriod == maPeriod && counter.chargeMC == ChargePerTick(resistorValue)
      ensures didTick == if uiEnabled then Some(false) else None
    {
      counter := new Counter(resistorValue, maPeriod, now);
      didTick := if uiEnabled then Some(false) else None;
    }

    /**
     * One hardware event of polarity `direction`, stamped `instant` and
     * processed by the counter at the later clock reading `now`. The first
     * event only restarts the counter's clock; every later one is recorded.
     */
    method AddTick(direction: int, instant: real, now: real, sd: real) returns (outcome: Outcome)
      requires Valid()
      requires didTick == Some(true) ==> IntervalReady(counter.tickDiffs, counter.previousTickInstant, counter.maPeriod, instant, sd)
      modifies this, counter
      ensures Valid()
      ensures (didTick, counter.State(), outcome)
              == ControllerAddTick(old(didTick), old(counter.State()), counter.maPeriod, counter.chargeMC,
                                   direction, instant, now, sd)
    {
      match didTick {
        case None =>
          // `did_tick` was never assigned: reading it raises
          outcome := Raised(AttributeError);
        case Some(false) =>
          counter.start := now;
          didTick := Some(true);
          outcome := Completed;
        case Some(true) =>
          outcome := counter.AddTick(instant, direction, now, sd);
      }
    }

    /** The reset button: a new session for the counter; `didTick` stays as it is. */
    method Reset(now: real)
      requires Valid()
      modifies counter
      ensures Valid()
      ensures counter.State() == ResetState(old(counter.State()), now)
    {
      counter.Reset(now);
    }

    /** The elapsed-time display at `now`: time since the counter's start, split for display. */
    function TimeElapsed(now: real): (t: Clock)
      reads this, counter
      ensures TotalSeconds(t) == now - counter.start
      ensures 0 <= t.minutes < 60 && 0.0 <= t.seconds < 60.0
    {
      SplitElapsed(now - counter.start)
    }
  }
}
