/**
 * The dispose-once guard: `Dispose` runs the object's own `DisposeOnce`
 * until one run completes, and then marks the object disposed; `Ensure`
 * rejects disposed objects.
 */
module Disposable {
  import opened Common

  /** What the guard records: the flag and how many times `DisposeOnce` has run. */
  datatype GuardState = GuardState(disposed: bool, disposeOnceRuns: nat)

  /**
   * One `Dispose` call, given whether this run of `DisposeOnce` throws. The
   * flag is set only after `DisposeOnce` returns.
   */
  function DisposeStep(st: GuardState, disposeOnceFails: bool): (r: (GuardState, Outcome<()>))
    ensures st.disposed ==> r == (st, Returned(()))
    ensures !st.disposed ==> r.0.disposeOnceRuns == st.disposeOnceRuns + 1
    ensures !st.disposed ==> (r.0.disposed <==> !disposeOnceFails) && (r.1.Threw? <==> disposeOnceFails)
  {
    if st.disposed then (st, Returned(()))
    else if disposeOnceFails then (GuardState(false, st.disposeOnceRuns + 1), Threw)
    else (GuardState(true, st.disposeOnceRuns + 1), Returned(()))
  }

  /** The state after a series of `Dispose` calls, each told whether its `DisposeOnce` run throws. */
  function DisposeSeries(st: GuardState, fails: seq<bool>): GuardState
    decreases |fails|
  {
    if fails == [] then st else DisposeSeries(DisposeStep(st, fails[0]).0, fails[1..])
  }

  /** Number of leading runs that throw. */
  function LeadingFailures(fails: seq<bool>): (n: nat)
    ensures n <= |fails|
    ensures forall i :: 0 <= i < n ==> fails[i]
    ensures n < |fails| ==> !fails[n]
  {
    if fails == [] || !fails[0] then 0 else 1 + LeadingFailures(fails[1..])
  }

  /**
   * Starting undisposed, a series of calls runs `DisposeOnce` once per
   * throwing attempt up to and including the first that completes, and never
   * after; the object ends disposed exactly when some attempt completed.
   */
  lemma {:induction false} DisposeOnceRunsUntilSuccess(st: GuardState, fails: seq<bool>)
    requires !st.disposed
    ensures var n := LeadingFailures(fails);
            DisposeSeries(st, fails).disposeOnceRuns ==
              st.disposeOnceRuns + (if n < |fails| then n + 1 else n)
    ensures DisposeSeries(st, fails).disposed <==> exists i :: 0 <= i < |fails| && !fails[i]
    decreases |fails|
  {
    if fails != [] {
      var next := DisposeStep(st, fails[0]).0;
      if fails[0] {
        DisposeOnceRunsUntilSuccess(next, fails[1..]);
        if exists i :: 0 <= i < |fails[1..]| && !fails[1..][i] {
          var i :| 0 <= i < |fails[1..]| && !fails[1..][i];
          assert !fails[i + 1];
        }
      } else {
        DisposedStays(next, fails[1..]);
      }
    }
  }

  /** Once disposed, further calls change nothing. */
  lemma {:induction false} DisposedStays(st: GuardState, fails: seq<bool>)
    requires st.disposed
    ensures DisposeSeries(st, fails) == st
    decreases |fails|
  {
    if fails != [] {
      DisposedStays(st, fails[1..]);
    }
  }

  /** An object that implements the contract. */
  class Guarded {
    var disposed: bool
    var disposeOnceRuns: nat

    constructor ()
      ensures !disposed && disposeOnceRuns == 0
    {
      disposed := false;
      disposeOnceRuns := 0;
    }

    /** `IDisposable.Dispose` of the contract. */
    method Dispose(disposeOnceFails: bool) returns (r: Outcome<()>)
      modifies this
      ensures (GuardState(disposed, disposeOnceRuns), r) ==
              DisposeStep(GuardState(old(disposed), old(disposeOnceRuns)), disposeOnceFails)
    {
      if !disposed {
        disposeOnceRuns := disposeOnceRuns + 1;
        if disposeOnceFails {
          return Threw;
        }
        disposed := true;
      }
      return Returned(());
    }

    /** `Disposable.Ensure`: throws exactly for a disposed object. */
    method Ensure() returns (r: Outcome<()>)
      ensures r.Threw? <==> disposed
    {
      if disposed {
        return Threw;
      }
      return Returned(());
    }
  }
}
