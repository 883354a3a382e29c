/**
 * The job scheduler: jobs keyed by a handle that only grows, a transaction
 * depth kept in one byte, and a signal that wakes the wait loop after a
 * change made outside any transaction. The wait loop itself is modelled one
 * step at a time: the wait it computes, and one pass over the due jobs.
 *
 * Callbacks are values of the type parameter `C`; whether a callback throws
 * is a parameter of the pass, and callbacks are taken not to reach back into
 * the scheduler.
 */
module Scheduler {
  import opened Common

  datatype Job<C> = Job(id: nat, time: Instant, action: C)

  // ---------------------------------------------------------------------
  // Transaction depth and the signal

  /** The part of the scheduler that transactions govern. */
  datatype TxState = TxState(depth: int, signaled: bool)

  datatype TxOp = Begin | End | Mutate

  /**
   * `BeginTransaction` increments the byte; a mutation signals when the depth
   * is 0; closing a transaction decrements the byte and then recalculates.
   */
  function StepTx(st: TxState, op: TxOp): (r: TxState)
    ensures op == Mutate ==> r.depth == st.depth && (r.signaled <==> st.signaled || st.depth == 0)
    ensures op == Begin ==> r.signaled == st.signaled
    ensures op == End && 1 <= st.depth < 256 ==> r.depth == st.depth - 1 && (r.signaled <==> st.signaled || st.depth == 1)
  {
    match op
    case Begin => TxState((st.depth + 1) % 256, st.signaled)
    case Mutate => TxState(st.depth, st.signaled || st.depth == 0)
    case End =>
      var d := (st.depth - 1) % 256;
      TxState(d, st.signaled || d == 0)
  }

  function RunTx(st: TxState, ops: seq<TxOp>): TxState
    decreases |ops|
  {
    if ops == [] then st else RunTx(StepTx(st, ops[0]), ops[1..])
  }

  /** Unbounded depth change of one operation. */
  function Change(op: TxOp): int
  {
    match op
    case Begin => 1
    case End => -1
    case Mutate => 0
  }

  function Balance(ops: seq<TxOp>): int
    decreases |ops|
  {
    if ops == [] then 0 else Change(ops[0]) + Balance(ops[1..])
  }

  /** Starting at `depth`, every operation leaves the depth between 1 and 255. */
  predicate Open(depth: int, ops: seq<TxOp>)
    decreases |ops|
  {
    ops == [] || (1 <= depth + Change(ops[0]) < 256 && Open(depth + Change(ops[0]), ops[1..]))
  }

  /** Inside an open transaction nothing signals, and the depth moves by the balance. */
  lemma {:induction false} ScopeSilent(st: TxState, ops: seq<TxOp>)
    requires 1 <= st.depth < 256 && Open(st.depth, ops)
    ensures RunTx(st, ops) == TxState(st.depth + Balance(ops), st.signaled)
    decreases |ops|
  {
    if ops != [] {
      var next := StepTx(st, ops[0]);
      assert next == TxState(st.depth + Change(ops[0]), st.signaled);
      ScopeSilent(next, ops[1..]);
    }
  }

  lemma {:induction false} RunTxAppend(st: TxState, a: seq<TxOp>, b: seq<TxOp>)
    ensures RunTx(st, a + b) == RunTx(RunTx(st, a), b)
    decreases |a|
  {
    if a == [] {
      assert a + b == b;
    } else {
      assert (a + b)[1..] == a[1..] + b;
      RunTxAppend(StepTx(st, a[0]), a[1..], b);
    }
  }

  /**
   * A scope opened at depth 0 around balanced work raises no signal until
   * it closes, and then signals.
   */
  lemma OutermostScope(signaled: bool, inner: seq<TxOp>)
    requires Open(1, inner) && Balance(inner) == 0
    ensures RunTx(TxState(0, signaled), [Begin] + inner) == TxState(1, signaled)
    ensures RunTx(TxState(0, signaled), [Begin] + inner + [End]) == TxState(0, true)
  {
    var started := StepTx(TxState(0, signaled), Begin);
    assert ([Begin] + inner)[1..] == inner;
    ScopeSilent(started, inner);
    RunTxAppend(TxState(0, signaled), [Begin] + inner, [End]);
  }

  /** `n` mutations in a row. */
  function Mutations(n: nat): (ops: seq<TxOp>)
    ensures |ops| == n && forall i :: 0 <= i < n ==> ops[i] == Mutate
  {
    seq(n, _ => Mutate)
  }

  /**
   * What a scope that makes `n` changes leaves behind, opened from `st`: the
   * depth is back where it was, and the signal is raised if it was raised
   * before, if the scope closed at depth 0, or if the byte wrapped to 0
   * inside the scope and a change happened there.
   */
  function ScopeResult(st: TxState, n: nat): TxState
  {
    TxState(st.depth, st.signaled || st.depth == 0 || (st.depth == 255 && n > 0))
  }

  lemma {:induction false} MutationsRun(st: TxState, n: nat)
    ensures RunTx(st, Mutations(n)) == TxState(st.depth, st.signaled || (st.depth == 0 && n > 0))
    decreases n
  {
    if n > 0 {
      assert Mutations(n)[1..] == Mutations(n - 1);
      MutationsRun(StepTx(st, Mutate), n - 1);
    }
  }

  /** Incrementing and then decrementing the byte gives the depth back. */
  lemma ByteRoundTrip(d: int)
    requires 0 <= d < 256
    ensures ((d + 1) % 256 - 1) % 256 == d
    ensures (d + 1) % 256 == 0 <==> d == 255
  {
    if d == 255 {
      assert (d + 1) % 256 == 0;
    } else {
      assert (d + 1) % 256 == d + 1;
    }
  }

  lemma RunOne(st: TxState, op: TxOp)
    ensures RunTx(st, [op]) == StepTx(st, op)
  {
    assert [op][1..] == [];
  }

  /** `ScopeResult` is what running begin, `n` changes and end does to the depth and signal. */
  lemma ScopeRuns(st: TxState, n: nat)
    requires 0 <= st.depth < 256
    ensures RunTx(st, [Begin] + Mutations(n) + [End]) == ScopeResult(st, n)
  {
    var body := Mutations(n);
    var started := TxState((st.depth + 1) % 256, st.signaled);
    BeginStep(st);
    RunOne(st, Begin);
    RunTxAppend(st, [Begin], body);
    MutationsRun(started, n);
    var mid := TxState(started.depth, st.signaled || (started.depth == 0 && n > 0));
    assert RunTx(st, [Begin] + body) == mid;
    RunTxAppend(st, [Begin] + body, [End]);
    RunOne(mid, End);
    ScopeCloses(st, n);
  }

  /** Closing the scope after `n` changes at the incremented depth gives `ScopeResult`. */
  lemma ScopeCloses(st: TxState, n: nat)
    requires 0 <= st.depth < 256
    ensures var d := (st.depth + 1) % 256;
            StepTx(TxState(d, st.signaled || (d == 0 && n > 0)), End) == ScopeResult(st, n)
  {
    var d := (st.depth + 1) % 256;
    ByteRoundTrip(st.depth);
  }

  /** Proof helper of `ScopeRuns`: the begin step in isolation, where it is cheap to unfold. */
  lemma BeginStep(st: TxState)
    ensures StepTx(st, Begin) == TxState((st.depth + 1) % 256, st.signaled)
  {
  }

  // ---------------------------------------------------------------------
  // Earliest job

  /** The due time of each job. */
  function Times<C>(jobs: map<nat, Job<C>>): (ts: map<nat, Instant>)
    ensures ts.Keys == jobs.Keys && forall h :: h in jobs ==> ts[h] == jobs[h].time
  {
    map h | h in jobs :: jobs[h].time
  }

  // ---------------------------------------------------------------------
  // The service

  class SchedulerService<C> {
    var jobs: map<nat, Job<C>>
    var nextJobId: nat
    var transactions: int
    /** Whether the semaphore has been released since the wait loop last took it. */
    var signaled: bool

    /** Handles never exceed the counter, each job carries its own handle, and the depth is a byte. */
    ghost predicate Valid()
      reads this
    {
      0 <= transactions < 256 &&
      forall h :: h in jobs ==> 1 <= h <= nextJobId && jobs[h].id == h
    }

    ghost function Tx(): TxState
      reads this
    {
      TxState(transactions, signaled)
    }

    constructor ()
      ensures Valid() && jobs == map[] && nextJobId == 0 && transactions == 0 && !signaled
    {
      jobs := map[];
      nextJobId := 0;
      transactions := 0;
      signaled := false;
    }

    /** `RecalculateTick`: release the signal unless a transaction is open. */
    method RecalculateTick()
      modifies this
      ensures Tx() == StepTx(old(Tx()), Mutate)
      ensures jobs == old(jobs) && nextJobId == old(nextJobId)
    {
      if transactions == 0 {
        signaled := true;
      }
    }

    /** `BeginTransaction`: the byte depth goes up by one (wrapping at 256). */
    method BeginTransaction() returns (t: Transaction<C>)
      modifies this
      ensures fresh(t) && t.owner == this
      ensures Tx() == StepTx(old(Tx()), Begin)
      ensures jobs == old(jobs) && nextJobId == old(nextJobId)
      ensures old(Valid()) ==> Valid()
    {
      transactions := (transactions + 1) % 256;
      t := new Transaction(this);
    }

    /**
     * `AddJob`: the handle is the counter plus one; exactly one job is added
     * under it. Since handles only grow and only this method creates keys,
     * the handle is never in use, so the failure branch cannot be taken.
     */
    method AddJob(instant: Instant, callback: C) returns (handle: nat)
      requires Valid()
      modifies this
      ensures Valid()
      ensures handle == old(nextJobId) + 1 && nextJobId == handle
      ensures handle !in old(jobs) && jobs == old(jobs)[handle := Job(handle, instant, callback)]
      ensures Tx() == StepTx(old(Tx()), Mutate)
    {
      nextJobId := nextJobId + 1;
      var next := nextJobId;
      assert next !in jobs;
      jobs := jobs[next := Job(next, instant, callback)];
      RecalculateTick();
      return next;
    }

    /** `UpdateJob`: an unknown handle changes nothing, not even the signal. */
    method UpdateJob(handle: nat, instant: Instant, callback: C) returns (updated: bool)
      requires Valid()
      modifies this
      ensures Valid() && nextJobId == old(nextJobId)
      ensures updated <==> handle in old(jobs)
      ensures !updated ==> jobs == old(jobs) && Tx() == old(Tx())
      ensures updated ==> jobs == old(jobs)[handle := Job(handle, instant, callback)] && |jobs| == |old(jobs)| &&
                          Tx() == StepTx(old(Tx()), Mutate)
    {
      if handle !in jobs {
        return false;
      }
      jobs := jobs[handle := Job(handle, instant, callback)];
      RecalculateTick();
      return true;
    }

    /** `RemoveJob`: the handle is gone afterwards; the signal is recalculated even for an unknown one. */
    method RemoveJob(handle: nat) returns (removed: bool)
      requires Valid()
      modifies this
      ensures Valid() && nextJobId == old(nextJobId)
      ensures removed <==> handle in old(jobs)
      ensures jobs == old(jobs) - {handle}
      ensures Tx() == StepTx(old(Tx()), Mutate)
    {
      removed := handle in jobs;
      jobs := jobs - {handle};
      RecalculateTick();
    }

    /**
     * `ApproachNextEvent`: no wait limit without jobs; otherwise the
     * halving-with-floor timeout towards the earliest job, with a one-minute
     * floor.
     */
    method ApproachNextEvent(now: Instant) returns (w: Wait)
      ensures jobs == map[] ==> w == Infinite
      ensures jobs != map[] ==> w == WaitFor(Least(Times(jobs)), now, NanosPerMinute)
    {
      if jobs == map[] {
        return Infinite;
      }
      var first :| first in jobs;
      var earliest := jobs[first].time;
      var pending := jobs.Keys - {first};
      while pending != {}
        invariant pending <= jobs.Keys
        invariant exists h :: h in jobs && jobs[h].time == earliest
        invariant forall h :: h in jobs && h !in pending ==> earliest <= jobs[h].time
        decreases |pending|
      {
        var k :| k in pending;
        if jobs[k].time < earliest {
          earliest := jobs[k].time;
        }
        pending := pending - {k};
      }
      LeastIs(Times(jobs), earliest);
      w := WaitFor(earliest, now, NanosPerMinute);
    }

    /**
     * `NextTick`: the wait the loop sleeps for, computed before sleeping;
     * whichever way the sleep ends, the signal has been taken afterwards.
     */
    method NextTick(now: Instant) returns (w: Wait)
      modifies this
      ensures jobs == old(jobs) && nextJobId == old(nextJobId) && transactions == old(transactions)
      ensures !signaled
      ensures jobs == map[] ==> w == Infinite
      ensures jobs != map[] ==> w == WaitFor(Least(Times(jobs)), now, NanosPerMinute)
    {
      w := ApproachNextEvent(now);
      signaled := false;
    }

    /**
     * One pass of `Spin` over a snapshot of the jobs: every job due strictly
     * before `now` is fired and removed, whether or not its callback throws;
     * the failures are only logged. Jobs due at or after `now` stay.
     */
    method ProcessDue(now: Instant, fails: C -> bool) returns (fired: set<nat>, failed: set<nat>)
      requires Valid()
      modifies this
      ensures Valid() && nextJobId == old(nextJobId) && Tx() == old(Tx())
      ensures fired == set h | h in old(jobs) && old(jobs)[h].time < now
      ensures failed == set h | h in fired && fails(old(jobs)[h].action)
      ensures jobs == old(jobs) - fired
      ensures forall h :: h in jobs ==> jobs[h].time >= now
    {
      var snapshot := jobs;
      var pending := snapshot.Keys;
      fired, failed := {}, {};
      while pending != {}
        invariant pending <= snapshot.Keys
        invariant forall h :: h in fired <==> h in snapshot && h !in pending && snapshot[h].time < now
        invariant forall h :: h in failed <==> h in fired && fails(snapshot[h].action)
        invariant jobs == snapshot - fired
        invariant nextJobId == old(nextJobId) && Tx() == old(Tx())
        decreases |pending|
      {
        var k :| k in pending;
        WithoutOneMore(snapshot, fired, k);
        if snapshot[k].time < now {
          if fails(snapshot[k].action) {
            failed := failed + {k};
          }
          jobs := jobs - {k};
          fired := fired + {k};
        }
        pending := pending - {k};
      }
      assert fired == set h | h in snapshot && snapshot[h].time < now;
      assert failed == set h | h in fired && fails(snapshot[h].action);
    }
  }

  /** The scope object `BeginTransaction` hands out. */
  class Transaction<C> {
    const owner: SchedulerService<C>

    constructor (owner: SchedulerService<C>)
      ensures this.owner == owner
    {
      this.owner := owner;
    }

    /** The depth goes down by one (a byte: 0 wraps to 255), then the signal is recalculated. */
    method Dispose()
      modifies owner
      ensures owner.Tx() == StepTx(old(owner.Tx()), End)
      ensures owner.jobs == old(owner.jobs) && owner.nextJobId == old(owner.nextJobId)
      ensures old(owner.Valid()) ==> owner.Valid()
    {
      owner.transactions := (owner.transactions - 1) % 256;
      owner.RecalculateTick();
    }
  }
}
