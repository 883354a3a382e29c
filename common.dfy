/**
 * Values shared by every component: optional values, the unsigned 64-bit
 * identifiers used for platform objects and job handles, and the time types.
 *
 * An `Instant` (and a `Duration`) is a count of nanoseconds, as in the time
 * library the system uses. A `TimeSpan`, which the wait loops hand to the
 * runtime, counts ticks of 100 ns; converting a duration to a time span drops
 * the sub-tick remainder.
 */
module Common {

  datatype Option<T> = None | Some(value: T)

  /** An operation either returns a value or lets an exception escape. */
  datatype Outcome<T> = Returned(value: T) | Threw

  const U64Limit: int := 0x1_0000_0000_0000_0000

  /** `ulong`: platform identifiers (guilds, events, users, channels). */
  type u64 = x: int | 0 <= x < U64Limit

  /** Record keys (`Guid`); only equality matters. */
  type Guid = nat

  /** Nanoseconds since the epoch. */
  type Instant = int

  const NanosPerTick: int := 100
  const NanosPerSecond: int := 1_000_000_000
  const NanosPerMinute: int := 60 * NanosPerSecond
  const FiveSecondsTicks: int := 5 * NanosPerSecond / NanosPerTick

  /** The time span a wait loop sleeps for: forever, or a number of ticks. */
  datatype Wait = Infinite | Delay(ticks: int)

  /** `Duration.ToTimeSpan()` for a non-negative duration. */
  function ToTimeSpan(nanos: nat): Wait
  {
    Delay(nanos / NanosPerTick)
  }

  /**
   * The halving-with-floor timeout used by both wait loops once the earliest
   * pending instant is known: zero when it is already past, five seconds when
   * half of the remaining time is under `floor`, and otherwise half of the
   * remaining time.
   */
  function WaitFor(earliest: Instant, now: Instant, floor: int): (w: Wait)
    requires floor >= NanosPerTick
    ensures w.Delay? && w.ticks >= 0
    ensures w.ticks == 0 <==> earliest < now
    ensures earliest >= now && (earliest - now) / 2 < floor ==> w == Delay(FiveSecondsTicks)
    ensures earliest >= now && (earliest - now) / 2 >= floor ==>
              w.ticks * NanosPerTick <= (earliest - now) / 2 < (w.ticks + 1) * NanosPerTick
    ensures earliest == now ==> w == Delay(FiveSecondsTicks)
  {
    if earliest < now then Delay(0)
    else
      var half := (earliest - now) / 2;
      if half < floor then Delay(FiveSecondsTicks) else ToTimeSpan(half)
  }

  /** The least value of a finite non-empty map with integer values. */
  ghost function Least<K>(m: map<K, int>): (r: int)
    requires m != map[]
    ensures exists k :: k in m && m[k] == r
    ensures forall k :: k in m ==> r <= m[k]
    decreases |m|
  {
    var k :| k in m;
    var rest := m - {k};
    assert rest.Keys == m.Keys - {k};
    assert forall j :: j in m ==> j == k || j in rest;
    if rest == map[] then m[k]
    else
      var r := Least(rest);
      if m[k] <= r then m[k] else r
  }

  /** A value no larger than any other is the least. */
  lemma LeastIs<K>(m: map<K, int>, r: int)
    requires exists k :: k in m && m[k] == r
    requires forall k :: k in m ==> r <= m[k]
    ensures Least(m) == r
  {
    var k :| k in m && m[k] == r;
    var j :| j in m && m[j] == Least(m);
    assert r <= m[j] && Least(m) <= m[k];
  }

  /** Number of occurrences of `x` in `s`. */
  function Count<T(==)>(s: seq<T>, x: T): nat
  {
    if s == [] then 0 else (if s[0] == x then 1 else 0) + Count(s[1..], x)
  }

  /** Taking one more key out of a map. */
  lemma WithoutOneMore<K, V>(m: map<K, V>, gone: set<K>, k: K)
    ensures (m - gone) - {k} == m - (gone + {k})
  {
  }

  /** `List.Remove(x)`: drops the first element equal to `x`, if any. */
  function RemoveFirst<T(==)>(s: seq<T>, x: T): (r: seq<T>)
    ensures x in s ==> |r| == |s| - 1
    ensures x !in s ==> r == s
  {
    if s == [] then []
    else if s[0] == x then s[1..] else [s[0]] + RemoveFirst(s[1..], x)
  }

  /** Removing a present element takes out exactly one copy of it. */
  lemma {:induction false} RemoveFirstMultiset<T>(s: seq<T>, x: T)
    requires x in s
    ensures multiset(RemoveFirst(s, x)) == multiset(s) - multiset{x}
  {
    assert s == [s[0]] + s[1..];
    if s[0] != x {
      RemoveFirstMultiset(s[1..], x);
    }
  }

  lemma {:induction false} RemoveFirstAt<T>(s: seq<T>, i: int)
    requires 0 <= i < |s| && forall j :: 0 <= j < i ==> s[j] != s[i]
    ensures RemoveFirst(s, s[i]) == s[..i] + s[i + 1..]
  {
    if i > 0 {
      var t := s[1..];
      assert forall j :: 0 <= j < i - 1 ==> t[j] != t[i - 1];
      RemoveFirstAt(t, i - 1);
      assert s[..i] + s[i + 1..] == [s[0]] + (t[..i - 1] + t[i..]);
    }
  }
}
