/** Parking fee (`calculate_fee`). Timestamps are whole seconds; the first
    15 minutes are free and every minute after that, counted from the entry,
    costs 100 currency units, rounded to the nearest unit. */
module Fee {
  import opened Basics

  /** 15 minutes of grace: a stay of at most this many seconds is free. */
  const GraceSeconds := 900

  /** `round(seconds / 60.0 * 100)` for a stay longer than the grace period,
      and 0 otherwise. The exact value is 5 * seconds / 3, whose fractional
      part is 0, 1/3 or 2/3 and never one half, so Python's round-half-even
      and the integer expression below agree. */
  function Charge(seconds: int): (fee: int)
    ensures fee >= 0
    ensures fee == 0 <==> seconds <= GraceSeconds
    ensures fee != 0 ==> fee > 1500
    ensures seconds > GraceSeconds ==> -1 <= 3 * fee - 5 * seconds <= 1
  {
    if seconds <= GraceSeconds then 0 else (5 * seconds + 1) / 3
  }

  /** `calculate_fee(entry, exit)`: the fee together with the exit time it
      was computed for. A missing entry time gives `(0, None)`; a missing
      exit time is read from the clock, here the parameter `now`. */
  function CalculateFee(entry: Option<int>, exit: Option<int>, now: int): (r: (int, Option<int>))
    ensures entry.None? ==> r == (0, None)
    ensures entry.Some? && exit.Some? ==> r.1 == exit
    ensures entry.Some? && exit.None? ==> r.1 == Some(now)
    ensures r.0 >= 0
    ensures entry.Some? ==> (r.0 == 0 <==> r.1.value - entry.value <= GraceSeconds)
    ensures entry.Some? && r.0 != 0 ==> r.0 > 1500 && -1 <= 3 * r.0 - 5 * (r.1.value - entry.value) <= 1
  {
    match entry
    case None => (0, None)
    case Some(t1) =>
      var t2 := if exit.Some? then exit.value else now;
      (Charge(t2 - t1), Some(t2))
  }

  /** A longer stay never costs less. */
  lemma ChargeMonotone(a: int, b: int)
    requires a <= b
    ensures Charge(a) <= Charge(b)
  {
    if a > GraceSeconds {
      assert 5 * a + 1 <= 5 * b + 1;
      DivMonotone(5 * a + 1, 5 * b + 1);
    }
  }

  lemma DivMonotone(x: int, y: int)
    requires 0 <= x <= y
    ensures x / 3 <= y / 3
  {
  }

  /** One more second adds at most two units once the grace period is over,
      so billing really is per elapsed time and has no other steps. */
  lemma ChargeStep(s: int)
    requires s > GraceSeconds
    ensures Charge(s) <= Charge(s + 1) <= Charge(s) + 2
  {
  }

  /** Sample stays: 10 minutes and exactly 15 minutes are
      free, 20 minutes cost 2000. */
  lemma ChargeExamples()
    ensures Charge(600) == 0
    ensures Charge(900) == 0
    ensures Charge(1200) == 2000
    ensures Charge(901) == 1502
  {
  }
}
