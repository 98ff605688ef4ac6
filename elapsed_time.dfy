/**
 * The elapsed-time display: `divmod(elapsed, 3600)` and then
 * `divmod(remainder, 60)`, with Python's floor semantics for floats.
 */
module ElapsedTime {

  /** Hours, minutes and seconds as the display shows them. */
  datatype Clock = Clock(hours: int, minutes: int, seconds: real)

  /** The seconds a clock reading stands for. */
  function TotalSeconds(t: Clock): real
  {
    (t.hours * 3600 + t.minutes * 60) as real + t.seconds
  }

  /** Split an elapsed time into whole hours, whole minutes below 60 and seconds below 60. */
  function SplitElapsed(elapsed: real): (t: Clock)
    ensures 0 <= t.minutes < 60 && 0.0 <= t.seconds < 60.0
    ensures TotalSeconds(t) == elapsed
    ensures t.hours >= 0 <==> elapsed >= 0.0
  {
    var hours := (elapsed / 3600.0).Floor;
    var rem := elapsed - hours as real * 3600.0;
    var minutes := (rem / 60.0).Floor;
    Clock(hours, minutes, rem - minutes as real * 60.0)
  }

  /** Any reading with minutes and seconds in range that adds up to `elapsed` is the split. */
  lemma SplitElapsedUnique(elapsed: real, t: Clock)
    requires 0 <= t.minutes < 60 && 0.0 <= t.seconds < 60.0
    requires TotalSeconds(t) == elapsed
    ensures t == SplitElapsed(elapsed)
  {
    var s := SplitElapsed(elapsed);
    var below := (t.minutes * 60) as real + t.seconds;
    assert 0.0 <= below < 3600.0;
    assert s.hours == t.hours by {
      assert (elapsed / 3600.0) == t.hours as real + below / 3600.0;
    }
    assert s.minutes == t.minutes by {
      assert (below / 60.0) == t.minutes as real + t.seconds / 60.0;
    }
  }
}
