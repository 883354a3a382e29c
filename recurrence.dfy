/**
 * The weekly schedule and the generator of future game-night instants.
 *
 * Local dates are integer day numbers whose weekday is `day % 7`, counted
 * from Sunday = 0 as the platform's `DayOfWeek` does. Combining a date with
 * the configured time of day in the configured zone (with lenient
 * resolution of gaps and overlaps) is a function the caller supplies.
 */
module Recurrence {
  import opened Common

  /** `DayOfWeek`: Sunday = 0 ... Saturday = 6. */
  type DayOfWeek = d: int | 0 <= d < 7

  /** The per-guild schedule singleton. */
  datatype Config = Config(
    channelId: Option<u64>,
    scheduledDay: Option<DayOfWeek>,
    scheduledTime: Option<string>,
    schedulingRelativeToTz: Option<string>)

  /** The schedule is usable once day, time and zone are all set; the channel is not needed. */
  predicate IsConfigured(c: Config)
  {
    !(c.schedulingRelativeToTz.None? || c.scheduledTime.None? || c.scheduledDay.None?)
  }

  /** `ToIsoDayOfWeek`: Monday = 1 ... Sunday = 7. */
  function ToIsoDayOfWeek(d: DayOfWeek): (iso: int)
    ensures 1 <= iso <= 7 && iso % 7 == d
  {
    if d == 0 then 7 else d
  }

  /** `DateAdjusters.NextOrSame(iso)`: the first date on or after `day` with that weekday. */
  function NextOrSame(day: int, iso: int): (r: int)
    ensures day <= r < day + 7
    ensures r % 7 == iso % 7
    ensures forall d :: day <= d < r ==> d % 7 != iso % 7
  {
    day + (iso % 7 - day % 7) % 7
  }

  /** The `k`-th date the generator's cursor tests, starting from `today`. */
  function CandidateDay(today: int, iso: int, k: nat): int
  {
    NextOrSame(today, iso) + 7 * k
  }

  /**
   * Moving the cursor to the day after a candidate and adjusting again gives
   * the next candidate: candidates are exactly one week apart.
   */
  lemma CursorStep(today: int, iso: int, k: nat)
    ensures NextOrSame(CandidateDay(today, iso, k) + 1, iso) == CandidateDay(today, iso, k + 1)
    ensures CandidateDay(today, iso, k + 1) == CandidateDay(today, iso, k) + 7
  {
    AddWeeks(NextOrSame(today, iso), k);
    WeekLater(CandidateDay(today, iso, k), iso);
  }

  /** Whole weeks do not change the weekday. */
  lemma {:induction false} AddWeeks(a: int, k: nat)
    ensures (a + 7 * k) % 7 == a % 7
    decreases k
  {
    if k > 0 {
      AddWeeks(a, k - 1);
      assert a + 7 * k == (a + 7 * (k - 1)) + 7;
    }
  }

  /** From a date with the weekday, the next such date after it is a week later. */
  lemma WeekLater(c: int, iso: int)
    requires c % 7 == iso % 7
    ensures NextOrSame(c + 1, iso) == c + 7
  {
    var m := c % 7;
    if m == 6 {
      assert (c + 1) % 7 == 0;
    } else {
      assert (c + 1) % 7 == m + 1;
      assert (iso % 7 - (c + 1) % 7) % 7 == 6;
    }
  }

  /**
   * What the generator yields after its cursor has tested `n` dates: the
   * instants of those dates that are not before `now`, in order.
   */
  function Yielded(today: int, iso: int, now: Instant, toInstant: int -> Instant, n: nat): seq<Instant>
  {
    if n == 0 then []
    else
      var at := toInstant(CandidateDay(today, iso, n - 1));
      Yielded(today, iso, now, toInstant, n - 1) + (if at >= now then [at] else [])
  }

  lemma {:induction false} YieldedNotBefore(today: int, iso: int, now: Instant, toInstant: int -> Instant, n: nat)
    ensures forall i :: 0 <= i < |Yielded(today, iso, now, toInstant, n)| ==>
              Yielded(today, iso, now, toInstant, n)[i] >= now
  {
    if n > 0 {
      YieldedNotBefore(today, iso, now, toInstant, n - 1);
    }
  }

  /**
   * When the local-to-instant conversion is increasing, the yielded instants
   * are strictly increasing.
   */
  lemma {:induction false} YieldedIncreasing(today: int, iso: int, now: Instant, toInstant: int -> Instant, n: nat)
    requires forall a, b :: a < b ==> toInstant(a) < toInstant(b)
    ensures forall i, j :: 0 <= i < j < |Yielded(today, iso, now, toInstant, n)| ==>
              Yielded(today, iso, now, toInstant, n)[i] < Yielded(today, iso, now, toInstant, n)[j]
    ensures forall i :: 0 <= i < |Yielded(today, iso, now, toInstant, n)| ==>
              Yielded(today, iso, now, toInstant, n)[i] <= toInstant(CandidateDay(today, iso, n - 1))
  {
    if n > 0 {
      YieldedIncreasing(today, iso, now, toInstant, n - 1);
      var prev := Yielded(today, iso, now, toInstant, n - 1);
      var at := toInstant(CandidateDay(today, iso, n - 1));
      if n > 1 {
        assert toInstant(CandidateDay(today, iso, n - 2)) < at;
      }
      assert forall i :: 0 <= i < |prev| ==> prev[i] < at;
    }
  }

  /**
   * `GenerateFutureGameNightInstants`, run until its cursor has tested
   * `steps` dates (the source's generator is infinite and lazy; callers take
   * a bounded prefix). Empty unless the schedule is configured.
   */
  method GenerateFutureGameNightInstants(config: Config, today: int, now: Instant,
                                         toInstant: int -> Instant, steps: nat)
    returns (r: seq<Instant>)
    ensures !IsConfigured(config) ==> r == []
    ensures IsConfigured(config) ==>
              r == Yielded(today, ToIsoDayOfWeek(config.scheduledDay.value), now, toInstant, steps)
    ensures forall i :: 0 <= i < |r| ==> r[i] >= now
  {
    r := [];
    if !IsConfigured(config) {
      return;
    }
    var iso := ToIsoDayOfWeek(config.scheduledDay.value);
    var nextDay := today;
    var k := 0;
    while k < steps
      invariant 0 <= k <= steps
      invariant nextDay == if k == 0 then today else CandidateDay(today, iso, k - 1) + 1
      invariant r == Yielded(today, iso, now, toInstant, k)
    {
      var testDay := NextOrSame(nextDay, iso);
      if k > 0 {
        CursorStep(today, iso, k - 1);
      }
      assert testDay == CandidateDay(today, iso, k);
      nextDay := testDay + 1;
      var result := toInstant(testDay);
      if result >= now {
        r := r + [result];
      }
      k := k + 1;
    }
    YieldedNotBefore(today, iso, now, toInstant, steps);
  }
}
