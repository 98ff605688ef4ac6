/**
 * Ticks: one observed charge quantum each, and the sums and counts the
 * counters keep over a list of them.
 */
module Ticks {

  /** One hardware event: when it was seen and its sign (+1 recharging, -1 discharging). */
  datatype Tick = Tick(instant: real, direction: int)

  /**
   * One hardware event as a controller handles it: its polarity, the clock
   * reading the tick is stamped with, and the later reading the counter
   * computes with.
   */
  datatype Event = Event(direction: int, instant: real, now: real)

  const Recharging: int := 1
  const Discharging: int := -1

  /** The probe callback only ever delivers the two polarities. */
  predicate UnitDirections(ts: seq<Tick>)
  {
    forall i :: 0 <= i < |ts| ==> ts[i].direction == Recharging || ts[i].direction == Discharging
  }

  /** `charge * direction` summed over the ticks, added in list order as the counters do. */
  function SignedCharge(ts: seq<Tick>, charge: real): real
  {
    if ts == [] then 0.0
    else SignedCharge(ts[..|ts| - 1], charge) + charge * ts[|ts| - 1].direction as real
  }

  /** The sum of the directions: the net number of charge quanta. */
  function DirectionSum(ts: seq<Tick>): int
  {
    if ts == [] then 0 else DirectionSum(ts[..|ts| - 1]) + ts[|ts| - 1].direction
  }

  /** Number of ticks whose direction is positive. */
  function CountPositive(ts: seq<Tick>): nat
  {
    if ts == [] then 0
    else CountPositive(ts[..|ts| - 1]) + (if ts[|ts| - 1].direction > 0 then 1 else 0)
  }

  /** Number of ticks whose direction is negative. */
  function CountNegative(ts: seq<Tick>): nat
  {
    if ts == [] then 0
    else CountNegative(ts[..|ts| - 1]) + (if ts[|ts| - 1].direction < 0 then 1 else 0)
  }

  /** Where the slice `ts[-w:]` starts, for `w > 0`: the last `w` ticks, or all of them when there are fewer. */
  function WindowStart(ts: seq<Tick>, w: nat): (k: nat)
    requires w > 0
    ensures k <= |ts| && |ts| - k == if |ts| < w then |ts| else w
  {
    if |ts| <= w then 0 else |ts| - w
  }

  /** The slice `ts[-w:]` for `w > 0`. */
  function LastTicks(ts: seq<Tick>, w: nat): (r: seq<Tick>)
    requires w > 0
    ensures |r| == if |ts| < w then |ts| else w
  {
    ts[WindowStart(ts, w)..]
  }

  /**
   * The charge of a moving window of `w` ticks: the oldest tick of the window
   * only marks where it starts in time, so only the others are summed.
   */
  function WindowCharge(ts: seq<Tick>, w: nat, charge: real): real
    requires w > 0
  {
    if ts == [] then 0.0 else SignedCharge(ts[WindowStart(ts, w) + 1..], charge)
  }

  /** The instant of the oldest tick of the window, its time reference. */
  function ReferenceInstant(ts: seq<Tick>, w: nat): real
    requires w > 0 && ts != []
  {
    ts[WindowStart(ts, w)].instant
  }

  /** Adding charges to a list one by one is the same as scaling the net count of quanta. */
  lemma {:induction false} SignedChargeIsScaledSum(ts: seq<Tick>, charge: real)
    ensures SignedCharge(ts, charge) == charge * DirectionSum(ts) as real
  {
    if ts != [] {
      var init := ts[..|ts| - 1];
      SignedChargeIsScaledSum(init, charge);
      calc {
        SignedCharge(ts, charge);
        charge * DirectionSum(init) as real + charge * ts[|ts| - 1].direction as real;
        charge * (DirectionSum(init) + ts[|ts| - 1].direction) as real;
      }
    }
  }

  /** Appending one tick adds exactly its own signed charge. */
  lemma SignedChargeSnoc(ts: seq<Tick>, t: Tick, charge: real)
    ensures SignedCharge(ts + [t], charge) == SignedCharge(ts, charge) + charge * t.direction as real
  {
    assert (ts + [t])[..|ts|] == ts;
  }

  /** With unit directions every tick is either positive or negative, never both. */
  lemma {:induction false} CountsPartition(ts: seq<Tick>)
    requires UnitDirections(ts)
    ensures CountPositive(ts) + CountNegative(ts) == |ts|
  {
    if ts != [] {
      var init := ts[..|ts| - 1];
      assert UnitDirections(init) by {
        forall i | 0 <= i < |init| ensures init[i].direction == Recharging || init[i].direction == Discharging {
          assert init[i] == ts[i];
        }
      }
      CountsPartition(init);
    }
  }

  /** With unit directions the net count of quanta is positives minus negatives. */
  lemma {:induction false} DirectionSumIsNetCount(ts: seq<Tick>)
    requires UnitDirections(ts)
    ensures DirectionSum(ts) == CountPositive(ts) - CountNegative(ts)
  {
    if ts != [] {
      var init := ts[..|ts| - 1];
      assert UnitDirections(init) by {
        forall i | 0 <= i < |init| ensures init[i].direction == Recharging || init[i].direction == Discharging {
          assert init[i] == ts[i];
        }
      }
      DirectionSumIsNetCount(init);
    }
  }

  /** With unit directions the net count of quanta never exceeds the number of ticks in magnitude. */
  lemma DirectionSumBound(ts: seq<Tick>)
    requires UnitDirections(ts)
    ensures -|ts| <= DirectionSum(ts) <= |ts|
  {
    DirectionSumIsNetCount(ts);
    CountsPartition(ts);
  }

  /** Ticks older than the last `w` have no influence on the window's charge or its reference instant. */
  lemma WindowIgnoresOlderTicks(older: seq<Tick>, recent: seq<Tick>, w: nat, charge: real)
    requires w > 0 && |recent| >= w
    ensures WindowCharge(older + recent, w, charge) == WindowCharge(recent, w, charge)
    ensures ReferenceInstant(older + recent, w) == ReferenceInstant(recent, w)
  {
    var k := WindowStart(recent, w);
    assert (older + recent)[|older| + k + 1..] == recent[k + 1..];
  }

  /** A window that holds a single tick, or is one tick wide, carries no charge. */
  lemma WindowOfOneIsEmpty(ts: seq<Tick>, w: nat, charge: real)
    requires w > 0 && (|ts| == 1 || w == 1)
    ensures WindowCharge(ts, w, charge) == 0.0
  {
  }

  /** A suffix of a unit-direction list is a unit-direction list. */
  lemma SuffixUnitDirections(ts: seq<Tick>, k: nat)
    requires UnitDirections(ts) && k <= |ts|
    ensures UnitDirections(ts[k..])
  {
    var suffix := ts[k..];
    forall i | 0 <= i < |suffix| ensures suffix[i].direction == Recharging || suffix[i].direction == Discharging {
      assert suffix[i] == ts[k + i];
    }
  }

  /** The net number of quanta in a window: the directions of all but its oldest tick. */
  function WindowNet(ts: seq<Tick>, w: nat): int
    requires w > 0
  {
    if ts == [] then 0 else DirectionSum(ts[WindowStart(ts, w) + 1..])
  }

  /** The window's charge is the charge quantum scaled by the window's net count. */
  lemma WindowChargeIsScaledNet(ts: seq<Tick>, w: nat, charge: real)
    requires w > 0
    ensures WindowCharge(ts, w, charge) == charge * WindowNet(ts, w) as real
  {
    if ts != [] {
      SignedChargeIsScaledSum(ts[WindowStart(ts, w) + 1..], charge);
    }
  }

  /** A window of unit-direction ticks holds at most `w - 1` net quanta in magnitude. */
  lemma WindowNetBound(ts: seq<Tick>, w: nat)
    requires w > 0 && UnitDirections(ts)
    ensures -(w - 1) <= WindowNet(ts, w) <= w - 1
  {
    if ts != [] {
      var k := WindowStart(ts, w) + 1;
      SuffixUnitDirections(ts, k);
      DirectionSumBound(ts[k..]);
    }
  }
}
