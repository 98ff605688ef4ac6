# amp-o-meter counting engine in Dafny

amp-o-meter measures the charge that flows through a sense resistor. A
probe circuit raises one interrupt per quantum of charge. It reports the
polarity with each interrupt: +1 while the battery is recharging, -1 while
it is discharging. The software turns this stream of *ticks* into:

- the accumulated charge in milli-coulombs;
- the average current in milli-amperes;
- a tick rate;
- an uncertainty of the current, estimated from the jitter of the intervals
  between ticks.

The repository holds three revisions of this engine, and the model covers
all three.

- **amp_o_meter.py** (module `AmpOMeter`, file `amp_o_meter.dfy`). This is
  the full revision. Its `Counter` has two modes:
  - a moving-window mode (`ma_period > 0`), where the charge is summed over
    the last `ma_period` ticks and the oldest tick of the window only marks
    the start of the time span;
  - a cumulative mode (`ma_period == 0`).

  It also keeps the list of intervals between ticks, from which it derives
  the uncertainty. It counts positive and negative ticks, and it can be
  reset. Its `Controller` feeds it hardware events. It uses the first event
  only to restart the clock.
- **amp-o-meter.py** (modules `CumulativeCounter` and `EarlyAmpOMeter`).
  This is an older, cumulative-only counter with a fixed charge per tick. Its
  division by the elapsed time has no guard. Its controller gates the first
  tick in the same way.
- **simple_gui.py** (modules `CumulativeCounter` and `SimpleGui`). It has the
  same counter. Its controller records every event, the first one included.
- **Shared pieces.**
  - `Ticks` (`ticks.dfy`): the tick record and the sums and counts over a
    list of ticks, including the window slice.
  - `Statistics` (`statistics.dfy`): intervals, mean, population variance
    and the uncertainty formula.
  - `ElapsedTime` (`elapsed_time.dfy`): the `divmod` split of the elapsed
    time into hours, minutes and seconds.
  - `Outcomes` (`outcomes.dfy`): how a call ends.

## How the model is built

- **Operations as functions on a state value.** Each operation of a counter
  is first a function on a `CounterState` value, which holds the counter's
  fields as one value. Examples are `AmpOMeter.AddTickStep` and
  `AmpOMeter.ResetState`.
- **Classes that update in place.** The classes `Counter` and `Controller`
  update their fields in place, as the Python objects do. Each method
  promises that its new state is what the function computes.
- **Lemmas on the functions.** The lemmas about those functions carry the
  properties: invariants kept, charge as a net count of quanta, how a call
  ends, and the bounds of the uncertainty.
- **Python exceptions as outcomes.** A Python exception is modelled as the
  outcome `Raised(error)`. The state is left as it was at the point of the
  raise, because the statements before the raise have already updated the
  fields.
- **Charge and time as `real`.** The controllers read the clock once to
  stamp a tick (`instant`), and the counter reads it again to divide by the
  elapsed time. The model keeps these as two parameters, `instant` and
  `now`. The several reads inside one `Counter.add_tick`
  (amp_o_meter.py:94-96) are all `now`.
- **The square root is supplied by the caller.** `statistics.pstdev`
  returns a square root, which the model does not compute. The caller
  supplies the value `sd`, and the predicate `Statistics.IsPopStdDev` states
  that `sd` is non-negative and that its square is the population variance.

### Behaviours of the code worth knowing

The model follows the code as written, including these behaviours.

1. **Cumulative mode raises `TypeError`.** In amp_o_meter.py the cumulative
   branch computes the rate as `len(self.ticks_per_second) - 1`
   (amp_o_meter.py:102). `ticks_per_second` is a number, and `len()` of a
   number always raises `TypeError`. So whenever time has passed since
   `start`, the cumulative rate is never computed. The charge and the
   current are updated before the raise, and the interval bookkeeping after
   it never runs. The model records those updates, then returns
   `Raised(TypeError)` (`AmpOMeter.CumulativeUpdate`,
   `AmpOMeter.AddTickOutcome`).
2. **Too few intervals raise `StatisticsError`.** The mean and the standard
   deviation are taken over `tick_diffs[ma_period:]` (amp_o_meter.py:111-112).
   That slice is empty until more than `ma_period` intervals have been
   recorded, and `statistics.mean` of an empty list raises. The model
   returns `Raised(StatisticsError)` with the interval already appended.
3. **`reset` keeps the interval history.** `Counter.reset`
   (amp_o_meter.py:121-127) assigns neither `tick_diffs`,
   `previous_tick_instant` nor `std_deviation_current`. So the first
   interval after a reset is measured from the last tick before it. The
   controller blanks the uncertainty label on reset (amp_o_meter.py:288), but
   the stored `std_deviation_current` survives, and the next display refresh
   after a recorded tick shows it again. `AmpOMeter.ResetState` keeps the
   three fields, as the code does.
4. **The windowed rate always divides `ma_period - 1`.** It does so even
   while fewer than `ma_period` ticks exist (amp_o_meter.py:96). The first
   tick recorded after a reset therefore sets the rate to `ma_period - 1`
   over the short time between the controller's and the counter's clock
   reads (`AmpOMeter.FirstWindowedTickRate`).
5. **The older counters do not guard the division.** They divide by the
   time since `start` (amp-o-meter.py:46, simple_gui.py:27). A zero duration
   raises `ZeroDivisionError` after the tick and its charge were recorded.
   The model makes this an outcome, not a precondition. When `now < start`
   the division goes ahead with a negative duration.
6. **`did_tick` is never set without a user interface.** When the user
   interface is off, the `Controller` constructor of amp_o_meter.py returns
   before it assigns `did_tick` (amp_o_meter.py:254-256). Every
   `add_tick` then raises `AttributeError`. The model's `didTick` is an
   `Option<bool>` whose `None` stands for the missing attribute.

## Model

| member | source | states |
|---|---|---|
| Ticks.CountPositive | amp_o_meter.py:53-59 | definition (no ensures): the number of ticks with a positive direction; properties in `CountsPartition`, `DirectionSumIsNetCount` and `AmpOMeter.Counter.NumberOfPositiveTicks` |
| Ticks.CountNegative | amp_o_meter.py:61-67 | definition (no ensures): the number of ticks with a negative direction; properties in `CountsPartition`, `DirectionSumIsNetCount` and `AmpOMeter.Counter.NumberOfNegativeTicks` |
| Ticks.CountsPartition | amp_o_meter.py:53-67 | when every direction is +1 or -1, positive ticks plus negative ticks equal the number of ticks |
| Ticks.DirectionSumIsNetCount | amp_o_meter.py:53-67 | when every direction is +1 or -1, the sum of directions equals positive ticks minus negative ticks |
| Ticks.DirectionSumBound | amp_o_meter.py:53-67 | the net count of quanta never exceeds the number of ticks in magnitude |
| Ticks.SignedChargeIsScaledSum | amp_o_meter.py:97-98 | adding `charge * direction` tick by tick equals the charge times the sum of directions |
| Ticks.SignedChargeSnoc | amp_o_meter.py:98 | appending a tick adds exactly its own signed charge |
| Ticks.WindowStart | amp_o_meter.py:88 | the slice `ticks[-w:]` keeps the last `w` ticks, or all of them when there are fewer |
| Ticks.LastTicks | amp_o_meter.py:88 | the window has `min(len(ticks), w)` ticks |
| Ticks.WindowCharge | amp_o_meter.py:85-92 | definition (no ensures): the signed charge of the window `ticks[-w:]` without its oldest tick; properties in `WindowIgnoresOlderTicks`, `WindowOfOneIsEmpty`, `WindowChargeIsScaledNet` and `AmpOMeter.Counter.SumWindow` |
| Ticks.ReferenceInstant | amp_o_meter.py:88-90 | definition (no ensures): the instant of the window's oldest tick; properties in `WindowIgnoresOlderTicks` and `AmpOMeter.Counter.SumWindow` |
| Ticks.WindowIgnoresOlderTicks | amp_o_meter.py:85-92 | ticks older than the last `w` affect neither the window's charge nor its reference instant |
| Ticks.WindowOfOneIsEmpty | amp_o_meter.py:85-92 | with one tick, or a window one tick wide, the window's charge is 0 |
| Ticks.WindowChargeIsScaledNet | amp_o_meter.py:85-92 | the window's charge is the charge per tick times the window's net count, its oldest tick excluded |
| Ticks.WindowNetBound | amp_o_meter.py:85-92 | with unit directions the window's net count lies within `±(w - 1)` |
| Statistics.Intervals | amp_o_meter.py:105-110 | there is one interval fewer than instants, and none for zero or one instant |
| Statistics.IntervalsAppend | amp_o_meter.py:108-109 | a new instant appends exactly its distance from the previous instant |
| Statistics.Mean | amp_o_meter.py:111 | definition (no ensures): `statistics.mean`, the sum over the count, for a non-empty list; properties in `MeanPositive` and `JitterMeanPositive` |
| Statistics.PopVariance | amp_o_meter.py:112 | definition (no ensures): the mean squared deviation from the mean, the square of `statistics.pstdev`; properties in `VarianceZeroIffAllEqual` |
| Statistics.IsPopStdDev | amp_o_meter.py:112 | definition (no ensures): `sd` is the non-negative square root of the population variance; properties in `StdDevZeroIffAllEqual` and `JitterMeanPositive` |
| Statistics.Uncertainty | amp_o_meter.py:114 | definition (no ensures): `C/mean - C/(mean + sd)`; properties in `UncertaintyBounds`, `AmpOMeter.IntervalUpdateJitter` and `AmpOMeter.UncertaintyOnlyFromJitter` |
| Statistics.SquaredDeviationsZero | amp_o_meter.py:112 | squared deviations are non-negative, and zero exactly when every value equals the centre |
| Statistics.VarianceZeroIffAllEqual | amp_o_meter.py:112-113 | the population variance is non-negative, and zero exactly when all intervals are equal |
| Statistics.StdDevZeroIffAllEqual | amp_o_meter.py:112-113 | `pstdev` is zero exactly when all intervals are equal |
| Statistics.MeanPositive | amp_o_meter.py:111 | non-negative intervals that are not all equal have a positive mean |
| Statistics.JitterMeanPositive | amp_o_meter.py:111-114 | when `pstdev` of non-negative intervals is non-zero, it is positive and the mean is positive, so the uncertainty formula is defined |
| Statistics.UncertaintyBounds | amp_o_meter.py:114 | `C/mean - C/(mean + sd)` lies strictly between 0 and `C/mean` for a positive charge, mean and deviation |
| ElapsedTime.SplitElapsed | amp_o_meter.py:318-319 | minutes lie in 0..59 and seconds in [0, 60); hours·3600 + minutes·60 + seconds is the elapsed time; hours are non-negative exactly when the elapsed time is (the same code is at amp-o-meter.py:151-152 and simple_gui.py:119-120) |
| ElapsedTime.SplitElapsedUnique | amp_o_meter.py:318-319 | any reading with in-range minutes and seconds that adds up to the elapsed time is the split |
| AmpOMeter.ChargePerTick | amp_o_meter.py:46 | the charge per tick times `GVF * resistor_value` is 1000, and it is positive for a positive resistor |
| AmpOMeter.InitialState | amp_o_meter.py:32-45 | definition (no ensures): the fields of a new counter, empty with its clock at `now`; properties in `InitialStateSatisfiesInvariant` and `AmpOMeter.Counter.constructor` |
| AmpOMeter.WindowUpdate | amp_o_meter.py:85-96 | definition (no ensures): the windowed branch after the tick is appended; properties in `WindowRatesOverSpan`, `WindowExample`, `FirstWindowedTickRate`, `Ticks.WindowIgnoresOlderTicks` and `WindowedChargeIsBounded` |
| AmpOMeter.CumulativeUpdate | amp_o_meter.py:97-102 | definition (no ensures): the cumulative branch, ending in `TypeError` once time has passed; properties in `CumulativeAverage`, `CumulativeChargeIsNetCount` and `AddTickOutcome` |
| AmpOMeter.IntervalUpdate | amp_o_meter.py:105-114 | definition (no ensures): the interval bookkeeping and the uncertainty update; properties in `IntervalUpdateKeepsCharge`, `IntervalUpdateTracksInstants`, `IntervalUpdateJitter` and `AddTickOutcome` |
| AmpOMeter.ResetState | amp_o_meter.py:121-127 | definition (no ensures): `reset`'s new fields; properties in `ResetPreservesInvariant` and `AmpOMeter.Counter.Reset` |
| AmpOMeter.ControllerAddTick | amp_o_meter.py:296-304 | definition (no ensures): the `did_tick` gating; properties in `ControllerRecordsAllButFirst` and `FirstWindowedTickRate` |
| AmpOMeter.AddTickStep | amp_o_meter.py:81-83 | `add_tick` appends exactly one tick with the given instant and direction, whichever way the call ends, and leaves `start` as it was |
| AmpOMeter.WindowRatesOverSpan | amp_o_meter.py:85-96 | windowed mode: the charge is the window's charge; over a positive span since the reference instant, current·span = charge and rate·span = `ma_period - 1`; over no span, both keep their previous values |
| AmpOMeter.WindowExample | amp_o_meter.py:85-96 | four ticks one second apart, window 3, 5 mC per tick, at t = 3 s: charge 10 mC, current 5 mA, rate 1 tick/s |
| AmpOMeter.CumulativeAverage | amp_o_meter.py:97-102 | cumulative mode adds the tick's signed charge; the current is updated (current·elapsed = charge) exactly when time has passed since `start`, and the call then raises `TypeError`; otherwise the current is kept and the call completes |
| AmpOMeter.InitialStateSatisfiesInvariant | amp_o_meter.py:32-46 | a new counter satisfies the invariant in both modes |
| AmpOMeter.IntervalUpdateKeepsCharge | amp_o_meter.py:105-114 | the interval bookkeeping leaves ticks, charge, current, rate and start unchanged, and keeps the intervals non-negative |
| AmpOMeter.IntervalUpdateTracksInstants | amp_o_meter.py:105-110 | after each tick the intervals are the consecutive differences of the instants seen and the previous instant is the last one, so there is one interval fewer than ticks seen |
| AmpOMeter.AddTickPreservesInvariant | amp_o_meter.py:81-114 | `add_tick` keeps the invariant (the charge is the signed sum of all ticks, or of the window; the intervals are non-negative; the rate is non-negative), whichever way it ends |
| AmpOMeter.AddTickOutcome | amp_o_meter.py:97-112 | `add_tick` raises `TypeError` exactly in cumulative mode once time has passed, `StatisticsError` exactly when an interval is recorded but none lies past the first `ma_period`, and nothing else |
| AmpOMeter.IntervalUpdateJitter | amp_o_meter.py:111-114 | the interval bookkeeping changes the uncertainty only when the intervals past the first `ma_period` are not all equal, and then to a value in `(0, C/mean)`; conversely, a new interval that leaves such jittered intervals sets it to `C/mean - C/(mean + sd)` |
| AmpOMeter.UncertaintyOnlyFromJitter | amp_o_meter.py:111-114 | the same for a whole `add_tick`: the uncertainty changes only from jittered intervals, to a value in `(0, C/mean)`; and unless the call raised `TypeError` first, jittered intervals set it to `C/mean - C/(mean + sd)` |
| AmpOMeter.CumulativeChargeIsNetCount | amp_o_meter.py:97-98 | cumulative mode: the charge is the charge per tick times (positive ticks - negative ticks) since the last reset |
| AmpOMeter.WindowedChargeIsBounded | amp_o_meter.py:85-92 | windowed mode: the charge is the charge per tick times the window's net count, at most `ma_period - 1` quanta in magnitude |
| AmpOMeter.ResetPreservesInvariant | amp_o_meter.py:121-127 | `reset` keeps the invariant, empties the ticks, restarts `start`, and keeps the intervals, the previous instant and the uncertainty |
| AmpOMeter.ControllerRecordsAllButFirst | amp_o_meter.py:296-304 | the first event only restarts the clock and sets `did_tick`; each later event records exactly one tick stamped with the controller's clock reading; without a user interface every event raises `AttributeError` and changes nothing |
| AmpOMeter.FirstWindowedTickRate | amp_o_meter.py:94-96 | windowed mode, first tick recorded after a reset, clock moved past its stamp: the charge and the current are 0 and rate·(now - instant) = `ma_period - 1` |
| AmpOMeter.Counter.constructor | amp_o_meter.py:32-46 | the counter starts empty at `now` with the given window and the charge per tick of its resistor |
| AmpOMeter.Counter.NumberOfTicks | amp_o_meter.py:49-51 | the number of ticks recorded since the last reset |
| AmpOMeter.Counter.NumberOfPositiveTicks | amp_o_meter.py:53-59 | the loop returns the number of ticks with a positive direction |
| AmpOMeter.Counter.NumberOfNegativeTicks | amp_o_meter.py:61-67 | the loop returns the number of ticks with a negative direction |
| AmpOMeter.Counter.SumWindow | amp_o_meter.py:86-92 | the loop over the window takes its first tick as the reference instant and sets the charge to the sum of the others' signed charges |
| AmpOMeter.Counter.RecomputeWindow | amp_o_meter.py:84-96 | the windowed branch leaves the counter in the state `WindowUpdate` describes |
| AmpOMeter.Counter.Accumulate | amp_o_meter.py:97-102 | the cumulative branch leaves the counter and the outcome as `CumulativeUpdate` describes |
| AmpOMeter.Counter.RecordInterval | amp_o_meter.py:105-114 | the interval bookkeeping leaves the counter and the outcome as `IntervalUpdate` describes |
| AmpOMeter.Counter.AddTick | amp_o_meter.py:81-114 | keeps the counter valid; the new state and outcome are `AddTickStep`'s; the instant joins the interval history unless the call raised before reaching it |
| AmpOMeter.Counter.Reset | amp_o_meter.py:121-127 | keeps the counter valid; the new state is `ResetState`'s; the interval history is untouched |
| AmpOMeter.Controller.constructor | amp_o_meter.py:239-278 | builds a counter for the resistor and window; `did_tick` is false with a user interface and unset without one |
| AmpOMeter.Controller.AddTick | amp_o_meter.py:296-304 | flag, counter state and outcome are `ControllerAddTick`'s: the first event restarts the clock; later ones record a tick stamped `instant`, which the counter processes at the later reading `now` |
| AmpOMeter.Controller.Reset | amp_o_meter.py:280-281 | resets the counter and leaves `did_tick` as it is |
| AmpOMeter.Controller.TimeElapsed | amp_o_meter.py:316-319 | the displayed hours, minutes and seconds add up to the time since the counter's start, with minutes and seconds below 60 |
| CumulativeCounter.InitialState | amp-o-meter.py:21-24 | definition (no ensures): a new counter, empty with its clock at `now`; properties in `CumulativeCounter.Counter.constructor` and `ResetSatisfiesInvariant` |
| CumulativeCounter.ResetState | amp-o-meter.py:52-56 | definition (no ensures): `reset`'s new fields; properties in `ResetSatisfiesInvariant` and `CumulativeCounter.Counter.Reset` |
| CumulativeCounter.AddTickStep | amp-o-meter.py:42-46 | `add_tick` appends exactly one tick with the given instant and direction and leaves `start` as it was, whether or not the division raises |
| CumulativeCounter.AddTickPreservesInvariant | amp-o-meter.py:42-45 | the charge stays the fixed charge per tick times the signed sum of directions since the last reset |
| CumulativeCounter.AddTickOutcome | amp-o-meter.py:46 | the division raises `ZeroDivisionError` exactly when no time has passed since `start`, keeping the current; otherwise current·elapsed = charge |
| CumulativeCounter.ChargeIsNetCount | amp-o-meter.py:42-46 | the charge is the fixed charge times (positive ticks - negative ticks) |
| CumulativeCounter.ResetSatisfiesInvariant | amp-o-meter.py:52-56 | a reset counter is empty and satisfies the invariant |
| CumulativeCounter.Counter.constructor | amp-o-meter.py:21-24 | the counter starts empty with its clock at `now` |
| CumulativeCounter.Counter.AddTick | amp-o-meter.py:42-46 | keeps the counter valid; the new state and outcome are `AddTickStep`'s (the same code is at simple_gui.py:23-27) |
| CumulativeCounter.Counter.Reset | amp-o-meter.py:52-56 | empties the ticks, zeroes the charge and the current, and restarts `start` (the same code is at simple_gui.py:29-33) |
| EarlyAmpOMeter.ControllerAddTick | amp-o-meter.py:133-141 | after any event `did_tick` is set |
| EarlyAmpOMeter.ControllerRecordsAllButFirst | amp-o-meter.py:133-141 | the first event only restarts the counter's clock; each later event adds exactly one tick stamped with the controller's clock reading; the invariant holds throughout |
| EarlyAmpOMeter.RunCountsAllButFirst | amp-o-meter.py:133-141 | over a run of events from a fresh controller, every event but the first adds one tick, and the invariant holds at the end |
| EarlyAmpOMeter.Controller.constructor | amp-o-meter.py:105-120 | a fresh counter at `now` and `did_tick` false |
| EarlyAmpOMeter.Controller.AddTick | amp-o-meter.py:133-141 | flag, counter state and outcome are `ControllerAddTick`'s |
| EarlyAmpOMeter.Controller.Reset | amp-o-meter.py:122-123 | resets the counter and leaves `did_tick` as it is |
| EarlyAmpOMeter.Controller.TimeElapsed | amp-o-meter.py:149-152 | the displayed split adds up to the time since the counter's start |
| SimpleGui.RunRecordsEveryEvent | simple_gui.py:101-104 | every event adds exactly one tick stamped with its clock reading and direction, earlier ticks are kept, and the invariant holds |
| SimpleGui.Controller.constructor | simple_gui.py:74-79 | a fresh counter at `now` |
| SimpleGui.Controller.AddTick | simple_gui.py:101-104 | records the event as a tick stamped with the controller's clock reading, with the counter's `add_tick` state and outcome at its own later reading |
| SimpleGui.Controller.Reset | simple_gui.py:92-93 | resets the counter |
| SimpleGui.Controller.TimeElapsed | simple_gui.py:117-120 | the displayed split adds up to the time since the counter's start |

## Left out

- File I/O is not modelled: the CSV history file, which is created and appended to in `create_history_file`, `add_tick` and `reset`.
- The presentation layer is not modelled: `TkGui`, `TerminalUI`, `Gui`, `update_gui` and label formatting.
- The hardware is not modelled: `setup_probe`, `probe_callback` and the GPIO calls. The polarity-to-±1 mapping appears only as the assumption `Ticks.UnitDirections` where a lemma needs it.
- Threads and timing are not modelled: the `update_time_elapsed` loop, `sleep` and the daemon thread. Only its `divmod` arithmetic is modelled.
- The wall clock is not modelled. `time()` is the parameter `now`, and the several reads of the clock within one `add_tick` (amp_o_meter.py:94-96) are the same value.
- The `argparse`/`config.json` handling of the `__main__` blocks is not modelled.
- calibrator.py is not part of this model: its interactive input loops, its use of a regression library and its JSON output are I/O and a foreign library.
- test.py is not part of this model: it is a hardware interrupt demo.
- Floating-point rounding is not modelled: charge and time are exact `real`s.
- AmpOMeter.IntervalUpdate: the square root inside `statistics.pstdev` is not computed. The caller supplies `sd`, and `IntervalReady` requires it to be the population standard deviation whenever the slice is not empty.
- AmpOMeter.Counter.constructor: `CHARGE_mC` is a class attribute of `Tick` shared by every counter, so building a second counter changes the charge of the first. Each model counter keeps its own `chargeMC` constant instead.
- AmpOMeter.Controller.constructor: the constructor's failures are not modelled. These are an unknown `ui_type` raising `Exception`, and a missing display (`TclError`) leaving `self.gui` unset so that the next line raises. A resistor value of 0 is excluded by the precondition rather than raising `ZeroDivisionError`.
- AmpOMeter.Controller.constructor: the `ma_period` parameter is a natural number. The source does not reject negative values.
- AmpOMeter.Counter.AddTick: `add_tick` is one Python method. The model splits it into the helper methods `RecomputeWindow`, `SumWindow`, `Accumulate` and `RecordInterval`, which run in the same order.
- AmpOMeter.Counter.AddTick: `IntervalReady` requires ticks in time order, and `sd` to be `pstdev` of the intervals past the first `ma_period` once that slice is non-empty. The source takes any instants.
- AmpOMeter.Controller.AddTick: after a raised error the rest of the Python call, such as the GUI refresh, does not run. The model ends the call at the raise.
