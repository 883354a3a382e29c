/**
 * The legacy timer list of a guild: timers that expire at an instant and
 * carry a one-byte type. One tick hands every expired timer to the handler
 * for its type, newest position first, removing each once its handler has
 * returned; clearing removes the timers of one type.
 *
 * The handlers are outside this model: whether a handler throws for a timer
 * is a parameter, and handlers are taken not to touch the timer list.
 */
module ActionTimers {
  import opened Common

  /** `ActionTimerType`, a byte. */
  type TimerType = x: int | 0 <= x < 256

  const TimerNone: TimerType := 0
  const TimerRotation: TimerType := 1
  const TimerRotationDayAfter: TimerType := 2

  datatype ActionTimer = ActionTimer(expiration: Instant, kind: TimerType)

  datatype HandlerId = RotationTimerHandler | RotationDayAfterTimerHandler

  /** Which handler a timer goes to; `None` and every other value go nowhere. */
  function Handler(kind: TimerType): (h: Option<HandlerId>)
    ensures h == Some(RotationTimerHandler) <==> kind == 1
    ensures h == Some(RotationDayAfterTimerHandler) <==> kind == 2
    ensures h.None? <==> kind != 1 && kind != 2
  {
    if kind == TimerRotation then Some(RotationTimerHandler)
    else if kind == TimerRotationDayAfter then Some(RotationDayAfterTimerHandler)
    else None
  }

  datatype Call = Call(handler: HandlerId, timer: ActionTimer)

  /** The handler calls made for the visited timers, in order. */
  function Calls(visited: seq<ActionTimer>): seq<Call>
    decreases |visited|
  {
    if visited == [] then []
    else
      var x := visited[|visited| - 1];
      Calls(visited[..|visited| - 1]) + (if Handler(x.kind).Some? then [Call(Handler(x.kind).value, x)] else [])
  }

  /** Whether handling the timer throws: only a timer that reaches a handler can. */
  predicate HandlingFails(x: ActionTimer, fails: ActionTimer -> bool)
  {
    Handler(x.kind).Some? && fails(x)
  }

  // ---------------------------------------------------------------------
  // ClearTimers

  /** The list without the timers of one type, the others in their order. */
  function WithoutType(s: seq<ActionTimer>, kind: TimerType): (r: seq<ActionTimer>)
    decreases |s|
  {
    if s == [] then []
    else (if s[0].kind == kind then [] else [s[0]]) + WithoutType(s[1..], kind)
  }

  /**
   * Clearing removes every timer of the type and nothing else: each other
   * timer keeps its number of copies.
   */
  lemma {:induction false} WithoutTypeExact(s: seq<ActionTimer>, kind: TimerType)
    ensures forall x :: x in WithoutType(s, kind) ==> x.kind != kind
    ensures forall x: ActionTimer :: x.kind != kind ==> multiset(WithoutType(s, kind))[x] == multiset(s)[x]
    decreases |s|
  {
    if s != [] {
      WithoutTypeExact(s[1..], kind);
      assert s == [s[0]] + s[1..];
    }
  }

  /** Clearing a type twice is clearing it once. */
  lemma {:induction false} WithoutTypeIdempotent(s: seq<ActionTimer>, kind: TimerType)
    ensures WithoutType(WithoutType(s, kind), kind) == WithoutType(s, kind)
    decreases |s|
  {
    if s != [] {
      WithoutTypeIdempotent(s[1..], kind);
      if s[0].kind != kind {
        var w := WithoutType(s, kind);
        assert w[0] == s[0] && w[1..] == WithoutType(s[1..], kind);
        assert w == [s[0]] + WithoutType(s[1..], kind);
        assert WithoutType(w, kind) == [w[0]] + WithoutType(w[1..], kind);
      } else {
        assert WithoutType(s, kind) == [] + WithoutType(s[1..], kind) == WithoutType(s[1..], kind);
      }
    }
  }

  // ---------------------------------------------------------------------
  // One tick

  datatype PassResult = PassResult(visited: seq<ActionTimer>, remaining: seq<ActionTimer>, threw: bool)

  /**
   * `GetPassedTimers` driven by `OnTickInterval`, from the last position
   * down: an expired timer (at or before `now`) is yielded and handled,
   * and removed when the enumeration resumes; a handler that throws ends the
   * tick with that timer still in the list and the earlier positions not
   * visited. Unexpired timers stay.
   */
  function Pass(s: seq<ActionTimer>, now: Instant, fails: ActionTimer -> bool): (r: PassResult)
    ensures r.threw ==> r.visited != [] && HandlingFails(r.visited[|r.visited| - 1], fails)
    decreases |s|
  {
    if s == [] then PassResult([], [], false)
    else
      var x := s[|s| - 1];
      var front := s[..|s| - 1];
      if x.expiration <= now then
        if HandlingFails(x, fails) then PassResult([x], s, true)
        else
          var r := Pass(front, now, fails);
          PassResult([x] + r.visited, r.remaining, r.threw)
      else
        var r := Pass(front, now, fails);
        PassResult(r.visited, r.remaining + [x], r.threw)
  }

  /** The expired timers, last position first. */
  function ExpiredNewestFirst(s: seq<ActionTimer>, now: Instant): seq<ActionTimer>
    decreases |s|
  {
    if s == [] then []
    else
      var x := s[|s| - 1];
      (if x.expiration <= now then [x] else []) + ExpiredNewestFirst(s[..|s| - 1], now)
  }

  /** The unexpired timers, in order. */
  function Unexpired(s: seq<ActionTimer>, now: Instant): (r: seq<ActionTimer>)
    ensures forall x :: x in r ==> x in s && x.expiration > now
    decreases |s|
  {
    if s == [] then []
    else
      var x := s[|s| - 1];
      Unexpired(s[..|s| - 1], now) + (if x.expiration <= now then [] else [x])
  }

  /**
   * When no handler throws, a tick visits every expired timer, last position
   * first, and leaves exactly the unexpired ones in their order.
   */
  lemma {:induction false} PassWithoutFailures(s: seq<ActionTimer>, now: Instant, fails: ActionTimer -> bool)
    requires forall i :: 0 <= i < |s| ==> !HandlingFails(s[i], fails)
    ensures Pass(s, now, fails) == PassResult(ExpiredNewestFirst(s, now), Unexpired(s, now), false)
    decreases |s|
  {
    if s != [] {
      var front := s[..|s| - 1];
      assert forall i :: 0 <= i < |front| ==> front[i] == s[i];
      PassWithoutFailures(front, now, fails);
    }
  }

  /**
   * A throwing handler leaves its timer in the list; that the positions in
   * front of it stay untouched is `PassSplit`.
   */
  lemma {:induction false} PassFailureKeeps(s: seq<ActionTimer>, now: Instant, fails: ActionTimer -> bool)
    requires Pass(s, now, fails).threw
    ensures var r := Pass(s, now, fails);
            r.visited[|r.visited| - 1] in r.remaining && |r.remaining| >= 1
    decreases |s|
  {
    var x := s[|s| - 1];
    var front := s[..|s| - 1];
    if !(x.expiration <= now && HandlingFails(x, fails)) {
      PassFailureKeeps(front, now, fails);
    }
  }

  /** Processing a list is processing its back part first, then its front unless the back threw. */
  lemma {:induction false} PassSplit(front: seq<ActionTimer>, back: seq<ActionTimer>, now: Instant,
                                     fails: ActionTimer -> bool)
    ensures var b := Pass(back, now, fails);
            var f := Pass(front, now, fails);
            Pass(front + back, now, fails) ==
              if b.threw then PassResult(b.visited, front + b.remaining, true)
              else PassResult(b.visited + f.visited, f.remaining + b.remaining, f.threw)
    decreases |back|
  {
    if back == [] {
      assert front + back == front;
      var f := Pass(front, now, fails);
      assert [] + f.visited == f.visited && f.remaining + [] == f.remaining;
    } else {
      var x := back[|back| - 1];
      var back' := back[..|back| - 1];
      assert (front + back)[..|front + back| - 1] == front + back';
      assert (front + back)[|front + back| - 1] == x;
      PassSplit(front, back', now, fails);
      if x.expiration <= now && !HandlingFails(x, fails) {
        var b' := Pass(back', now, fails);
        if !b'.threw {
          var f := Pass(front, now, fails);
          assert [x] + (b'.visited + f.visited) == ([x] + b'.visited) + f.visited;
        }
      } else if x.expiration > now {
        var b' := Pass(back', now, fails);
        if b'.threw {
          assert front + (b'.remaining + [x]) == (front + b'.remaining) + [x];
        } else {
          var f := Pass(front, now, fails);
          assert f.remaining + (b'.remaining + [x]) == (f.remaining + b'.remaining) + [x];
        }
      }
    }
  }

  /** One step of the backward scan: position `i` after the positions above it. */
  lemma PassStep(s: seq<ActionTimer>, i: nat, now: Instant, fails: ActionTimer -> bool)
    requires i < |s| && !Pass(s[i + 1..], now, fails).threw
    ensures var b := Pass(s[i + 1..], now, fails);
            var x := s[i];
            Pass(s[i..], now, fails) ==
              if x.expiration > now then PassResult(b.visited, [x] + b.remaining, false)
              else if HandlingFails(x, fails) then PassResult(b.visited + [x], [x] + b.remaining, true)
              else PassResult(b.visited + [x], b.remaining, false)
  {
    var x := s[i];
    assert s[i..] == [x] + s[i + 1..];
    assert [x][..0] == [] && [x][0] == x;
    PassSplit([x], s[i + 1..], now, fails);
  }

  // ---------------------------------------------------------------------
  // The list

  /** A guild's timers (`Instance.Timers`). */
  class TimerList {
    var timers: seq<ActionTimer>

    constructor (timers: seq<ActionTimer>)
      ensures this.timers == timers
    {
      this.timers := timers;
    }

    /** `ClearTimers`: the backward scan removing the timers of one type. */
    method ClearTimers(kind: TimerType)
      modifies this
      ensures timers == WithoutType(old(timers), kind)
    {
      ghost var s := timers;
      var i := |timers|;
      while i > 0
        invariant 0 <= i <= |s|
        invariant timers == s[..i] + WithoutType(s[i..], kind)
        decreases i
      {
        i := i - 1;
        assert s[i..] == [s[i]] + s[i + 1..];
        assert s[..i + 1] == s[..i] + [s[i]];
        if timers[i].kind == kind {
          timers := timers[..i] + timers[i + 1..];
        }
      }
      assert s[0..] == s;
    }

    /**
     * `OnTickInterval` over `GetPassedTimers`: the timers visited, the handler
     * calls made, and whether a handler's exception escaped.
     */
    method OnTickInterval(now: Instant, fails: ActionTimer -> bool)
      returns (visited: seq<ActionTimer>, calls: seq<Call>, r: Outcome<()>)
      modifies this
      ensures var p := Pass(old(timers), now, fails);
              visited == p.visited && timers == p.remaining && (r.Threw? <==> p.threw)
      ensures calls == Calls(visited)
    {
      ghost var s := timers;
      var i := |timers|;
      visited, calls := [], [];
      while i > 0
        invariant 0 <= i <= |s|
        invariant var p := Pass(s[i..], now, fails);
                  visited == p.visited && timers == s[..i] + p.remaining && !p.threw
        invariant calls == Calls(visited)
        decreases i
      {
        i := i - 1;
        var x := timers[i];
        ghost var b := Pass(s[i + 1..], now, fails);
        PassStep(s, i, now, fails);
        assert s[..i + 1] == s[..i] + [x];
        if x.expiration <= now {
          visited := visited + [x];
          var h := Handler(x.kind);
          if h.Some? {
            calls := calls + [Call(h.value, x)];
            if fails(x) {
              assert timers == s[..i] + ([x] + b.remaining);
              assert s == s[..i] + s[i..];
              PassSplit(s[..i], s[i..], now, fails);
              r := Threw;
              return;
            }
          }
          assert timers[..i] == s[..i] && timers[i + 1..] == b.remaining;
          timers := timers[..i] + timers[i + 1..];
        } else {
          assert timers == s[..i] + ([x] + b.remaining);
        }
      }
      assert s[0..] == s;
      r := Returned(());
    }
  }
}
