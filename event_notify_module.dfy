/**
 * The event-notify module: its own map from platform event id to the event's
 * guild and start time, kept up to date by the platform's event handlers, and
 * a wait loop that announces each event five minutes before it starts. The
 * loop is modelled one step at a time: the wait it computes, and one pass
 * over the events whose warning time has passed.
 *
 * The notification itself (looking the event up, finding the channel,
 * posting, starting the event) is platform I/O; the pass is told which
 * notifications throw.
 */
module EventNotifyModule {
  import opened Common

  /** A platform event as a handler receives it. */
  datatype GuildEvent = GuildEvent(id: u64, guildId: u64, startTime: Instant)

  /** A guild and its scheduled events, as `GetEventsAsync` lists them. */
  datatype Guild = Guild(id: u64, events: seq<GuildEvent>)

  datatype TrackedEvent = TrackedEvent(id: u64, guildId: u64, eventTime: Instant)

  const FiveMinutes: int := 5 * NanosPerMinute

  /** `TrackedEvent.FiveMinuteWarning`. */
  function FiveMinuteWarning(e: TrackedEvent): (w: Instant)
    ensures w < e.eventTime && e.eventTime - w == 5 * 60 * 1_000_000_000
  {
    e.eventTime - FiveMinutes
  }

  /** The warning time of each tracked event. */
  function Warnings(events: map<u64, TrackedEvent>): (ws: map<u64, Instant>)
    ensures ws.Keys == events.Keys && forall k :: k in events ==> ws[k] == FiveMinuteWarning(events[k])
  {
    map k | k in events :: FiveMinuteWarning(events[k])
  }

  /** Every entry sits under its own event id. */
  ghost predicate KeyedById(events: map<u64, TrackedEvent>)
  {
    forall k :: k in events ==> events[k].id == k
  }

  function Lookup(events: map<u64, TrackedEvent>, k: u64): Option<TrackedEvent>
  {
    if k in events then Some(events[k]) else None
  }

  // ---------------------------------------------------------------------
  // TryAdd in bulk

  /** `ConcurrentDictionary.TryAdd` under the event's id: an id already present keeps its entry. */
  function TryAdd(events: map<u64, TrackedEvent>, e: TrackedEvent): map<u64, TrackedEvent>
  {
    if e.id in events then events else events[e.id := e]
  }

  function TryAddAll(events: map<u64, TrackedEvent>, list: seq<TrackedEvent>): (r: map<u64, TrackedEvent>)
    ensures KeyedById(events) ==> KeyedById(r)
    decreases |list|
  {
    if list == [] then events else TryAddAll(TryAdd(events, list[0]), list[1..])
  }

  /** The first entry of the list with the given id. */
  function FirstWithId(list: seq<TrackedEvent>, k: u64): (r: Option<TrackedEvent>)
    ensures r.Some? ==> r.value in list && r.value.id == k
    ensures r.None? <==> forall i :: 0 <= i < |list| ==> list[i].id != k
  {
    if list == [] then None
    else if list[0].id == k then Some(list[0])
    else FirstWithId(list[1..], k)
  }

  /** Adding a list one by one keeps what was there and otherwise takes the first entry for each id. */
  lemma {:induction false} TryAddAllLookup(events: map<u64, TrackedEvent>, list: seq<TrackedEvent>, k: u64)
    ensures Lookup(TryAddAll(events, list), k) == if k in events then Some(events[k]) else FirstWithId(list, k)
    decreases |list|
  {
    if list != [] {
      TryAddAllLookup(TryAdd(events, list[0]), list[1..], k);
    }
  }

  lemma {:induction false} TryAddAllAppend(events: map<u64, TrackedEvent>, a: seq<TrackedEvent>, b: seq<TrackedEvent>)
    ensures TryAddAll(events, a + b) == TryAddAll(TryAddAll(events, a), b)
    decreases |a|
  {
    if a == [] {
      assert a + b == b;
    } else {
      assert (a + b)[1..] == a[1..] + b;
      TryAddAllAppend(TryAdd(events, a[0]), a[1..], b);
    }
  }

  /** The entries `Discord_Ready` makes for one guild: each event under the guild's id. */
  function Tracked(g: Guild): (list: seq<TrackedEvent>)
    ensures |list| == |g.events|
    ensures forall i :: 0 <= i < |list| ==>
              list[i] == TrackedEvent(g.events[i].id, g.id, g.events[i].startTime)
  {
    seq(|g.events|, i requires 0 <= i < |g.events| => TrackedEvent(g.events[i].id, g.id, g.events[i].startTime))
  }

  /** The entries of all guilds, guild by guild. */
  function AllTracked(guilds: seq<Guild>): seq<TrackedEvent>
    decreases |guilds|
  {
    if guilds == [] then [] else AllTracked(guilds[..|guilds| - 1]) + Tracked(guilds[|guilds| - 1])
  }

  /** After `Discord_Ready` an id is tracked exactly when some guild lists it, with the first listing's data. */
  lemma ReadyContents(guilds: seq<Guild>, k: u64)
    ensures Lookup(TryAddAll(map[], AllTracked(guilds)), k) == FirstWithId(AllTracked(guilds), k)
    ensures k in TryAddAll(map[], AllTracked(guilds)) <==> exists e :: e in AllTracked(guilds) && e.id == k
  {
    TryAddAllLookup(map[], AllTracked(guilds), k);
    var list := AllTracked(guilds);
    if exists e :: e in list && e.id == k {
      var e :| e in list && e.id == k;
      var i :| 0 <= i < |list| && list[i] == e;
      assert list[i].id == k;
    }
  }

  // ---------------------------------------------------------------------
  // Due events in enumeration order

  /** The ids of `order` whose event is tracked and warned strictly before `now`. */
  function DueInOrder(order: seq<u64>, events: map<u64, TrackedEvent>, now: Instant): (due: seq<u64>)
    decreases |order|
  {
    if order == [] then []
    else
      var k := order[|order| - 1];
      DueInOrder(order[..|order| - 1], events, now) +
      (if k in events && FiveMinuteWarning(events[k]) < now then [k] else [])
  }

  /** Position of the first id whose notification throws, or the length. */
  function FirstFailure(due: seq<u64>, fails: u64 -> bool): (n: nat)
    ensures n <= |due|
    ensures forall i :: 0 <= i < n ==> !fails(due[i])
    ensures n < |due| ==> fails(due[n])
  {
    if due == [] || fails(due[0]) then 0 else 1 + FirstFailure(due[1..], fails)
  }

  lemma {:induction false} FirstFailureAt(due: seq<u64>, fails: u64 -> bool, n: nat)
    requires n <= |due|
    requires forall i :: 0 <= i < n ==> !fails(due[i])
    requires n < |due| ==> fails(due[n])
    ensures FirstFailure(due, fails) == n
    decreases n
  {
    if n > 0 {
      FirstFailureAt(due[1..], fails, n - 1);
    }
  }

  // ---------------------------------------------------------------------
  // The module

  class Notifier {
    var events: map<u64, TrackedEvent>
    /** Whether the semaphore has been released since the wait loop last took it. */
    var signaled: bool

    ghost predicate Valid()
      reads this
    {
      KeyedById(events)
    }

    constructor ()
      ensures Valid() && events == map[] && !signaled
    {
      events := map[];
      signaled := false;
    }

    /** `Discord_Ready`: clear, then track every event of every guild; then signal. */
    method Ready(guilds: seq<Guild>)
      modifies this
      ensures Valid() && signaled
      ensures events == TryAddAll(map[], AllTracked(guilds))
    {
      events := map[];
      for gi := 0 to |guilds|
        invariant events == TryAddAll(map[], AllTracked(guilds[..gi]))
      {
        var g := guilds[gi];
        ghost var before := AllTracked(guilds[..gi]);
        assert guilds[..gi + 1][..gi] == guilds[..gi];
        assert AllTracked(guilds[..gi + 1]) == before + Tracked(g);
        for ei := 0 to |g.events|
          invariant events == TryAddAll(TryAddAll(map[], before), Tracked(g)[..ei])
        {
          var e := g.events[ei];
          TryAddAllAppend(TryAddAll(map[], before), Tracked(g)[..ei], [Tracked(g)[ei]]);
          assert Tracked(g)[..ei + 1] == Tracked(g)[..ei] + [Tracked(g)[ei]];
          if e.id !in events {
            events := events[e.id := TrackedEvent(e.id, g.id, e.startTime)];
          }
        }
        assert Tracked(g)[..|g.events|] == Tracked(g);
        TryAddAllAppend(map[], before, Tracked(g));
      }
      assert guilds[..|guilds|] == guilds;
      signaled := true;
    }

    /** `Discord_GuildScheduledEventCreated`: track the event unless its id is tracked; signal either way. */
    method Created(ev: GuildEvent)
      requires Valid()
      modifies this
      ensures Valid() && signaled
      ensures events == TryAdd(old(events), TrackedEvent(ev.id, ev.guildId, ev.startTime))
      ensures ev.id in old(events) ==> events == old(events)
      ensures ev.id !in old(events) ==> events == old(events)[ev.id := TrackedEvent(ev.id, ev.guildId, ev.startTime)]
    {
      if ev.id !in events {
        events := events[ev.id := TrackedEvent(ev.id, ev.guildId, ev.startTime)];
      }
      signaled := true;
    }

    /**
     * `Discord_GuildScheduledEventUpdated`, given the id of the cached copy
     * (`None` when the event is not in the client cache, where reading its
     * id throws before anything changes) and the updated event: an
     * untracked id goes through `Created`; a tracked one gets the new start
     * time and keeps its id and guild, and the signal is raised only when
     * the time changed.
     */
    method Updated(cachedId: Option<u64>, ev: GuildEvent) returns (r: Outcome<()>)
      requires Valid()
      modifies this
      ensures Valid()
      ensures r.Threw? <==> cachedId.None?
      ensures cachedId.None? ==> events == old(events) && signaled == old(signaled)
      ensures cachedId.Some? && cachedId.value !in old(events) ==>
                events == TryAdd(old(events), TrackedEvent(ev.id, ev.guildId, ev.startTime)) && signaled
      ensures cachedId.Some? && cachedId.value in old(events) ==>
                var prior := old(events)[cachedId.value];
                events == old(events)[cachedId.value := prior.(eventTime := ev.startTime)] &&
                (signaled <==> old(signaled) || prior.eventTime != ev.startTime)
    {
      if cachedId.None? {
        return Threw;
      }
      r := Returned(());
      var id := cachedId.value;
      if id !in events {
        Created(ev);
        return;
      }
      var oldEvent := events[id];
      var newEvent := oldEvent.(eventTime := ev.startTime);
      events := events - {oldEvent.id};
      if newEvent.id !in events {
        events := events[newEvent.id := newEvent];
      }
      assert events == old(events)[id := newEvent];
      if oldEvent.eventTime != newEvent.eventTime {
        signaled := true;
      }
    }

    /** `Discord_GuildScheduledEventCancelled`: forget the id, if tracked, and signal. */
    method Cancelled(id: u64)
      requires Valid()
      modifies this
      ensures Valid() && signaled
      ensures events == old(events) - {id}
    {
      events := events - {id};
      signaled := true;
    }

    /**
     * `ApproachNextEvent`: no wait limit without events; otherwise the
     * halving-with-floor timeout towards the earliest warning time, with a
     * five-minute floor.
     */
    method ApproachNextEvent(now: Instant) returns (w: Wait)
      ensures events == map[] ==> w == Infinite
      ensures events != map[] ==> w == WaitFor(Least(Warnings(events)), now, FiveMinutes)
    {
      if events == map[] {
        return Infinite;
      }
      var first :| first in events;
      var earliest := FiveMinuteWarning(events[first]);
      var pending := events.Keys - {first};
      while pending != {}
        invariant pending <= events.Keys
        invariant exists k :: k in events && FiveMinuteWarning(events[k]) == earliest
        invariant forall k :: k in events && k !in pending ==> earliest <= FiveMinuteWarning(events[k])
        decreases |pending|
      {
        var k :| k in pending;
        if FiveMinuteWarning(events[k]) < earliest {
          earliest := FiveMinuteWarning(events[k]);
        }
        pending := pending - {k};
      }
      LeastIs(Warnings(events), earliest);
      w := WaitFor(earliest, now, FiveMinutes);
    }

    /** `NextTick`: the wait computed before sleeping; afterwards the signal has been taken. */
    method NextTick(now: Instant) returns (w: Wait)
      modifies this
      ensures events == old(events) && !signaled
      ensures events == map[] ==> w == Infinite
      ensures events != map[] ==> w == WaitFor(Least(Warnings(events)), now, FiveMinutes)
    {
      w := ApproachNextEvent(now);
      signaled := false;
    }

    /**
     * One pass of `Spin` over a snapshot, visited in the dictionary's
     * enumeration order `order`: each event warned strictly before `now` is
     * notified and then forgotten. A notification that throws ends the pass
     * (and the loop) with that event still tracked and the later ones not
     * visited; `notified` lists the events notified and forgotten.
     */
    method ProcessDue(now: Instant, order: seq<u64>, notifyFails: u64 -> bool)
      returns (notified: seq<u64>, r: Outcome<()>)
      requires Valid()
      requires forall k :: k in events <==> k in order
      modifies this
      ensures Valid() && signaled == old(signaled)
      ensures var due := DueInOrder(order, old(events), now);
              var n := FirstFailure(due, notifyFails);
              notified == due[..n] && (r.Threw? <==> n < |due|) &&
              events == old(events) - (set k | k in notified)
    {
      var snapshot := events;
      notified := [];
      for i := 0 to |order|
        invariant notified == DueInOrder(order[..i], snapshot, now)
        invariant forall j :: 0 <= j < |notified| ==> !notifyFails(notified[j])
        invariant forall k :: k in events <==> k in snapshot && k !in notified
        invariant forall k :: k in events ==> events[k] == snapshot[k]
        invariant signaled == old(signaled) && Valid()
      {
        var k := order[i];
        DueStep(order, i, snapshot, now);
        if k in snapshot && FiveMinuteWarning(snapshot[k]) < now {
          if notifyFails(k) {
            FailureStops(order, i, snapshot, now, notified, notifyFails);
            RemovedExactly(snapshot, events, notified);
            return notified, Threw;
          }
          events := events - {k};
          notified := notified + [k];
        }
      }
      assert order[..|order|] == order;
      FirstFailureAt(notified, notifyFails, |notified|);
      RemovedExactly(snapshot, events, notified);
      return notified, Returned(());
    }
  }

  lemma RemovedExactly(snapshot: map<u64, TrackedEvent>, events: map<u64, TrackedEvent>, removed: seq<u64>)
    requires forall k :: k in events <==> k in snapshot && k !in removed
    requires forall k :: k in events ==> events[k] == snapshot[k]
    ensures events == snapshot - (set k | k in removed)
  {
  }

  /** Looking at one more id of the order appends it when it is due. */
  lemma DueStep(order: seq<u64>, i: nat, events: map<u64, TrackedEvent>, now: Instant)
    requires i < |order|
    ensures var k := order[i];
            DueInOrder(order[..i + 1], events, now) ==
              DueInOrder(order[..i], events, now) +
              (if k in events && FiveMinuteWarning(events[k]) < now then [k] else [])
  {
    assert order[..i + 1][..i] == order[..i];
  }

  /** A throwing notification of the `i`-th id ends the pass exactly at the first failure. */
  lemma FailureStops(order: seq<u64>, i: nat, events: map<u64, TrackedEvent>, now: Instant,
                     notified: seq<u64>, fails: u64 -> bool)
    requires i < |order|
    requires DueInOrder(order[..i + 1], events, now) == notified + [order[i]]
    requires forall j :: 0 <= j < |notified| ==> !fails(notified[j])
    requires fails(order[i])
    ensures var due := DueInOrder(order, events, now);
            |notified| < |due| && FirstFailure(due, fails) == |notified| && due[..|notified|] == notified
  {
    var due := DueInOrder(order, events, now);
    var n := |notified|;
    DueSplit(order, i + 1, events, now);
    assert due[..n + 1] == notified + [order[i]];
    assert due[n] == due[..n + 1][n] == order[i];
    assert due[..n] == due[..n + 1][..n] == notified;
    assert forall j :: 0 <= j < n ==> due[j] == notified[j];
    FirstFailureAt(due, fails, n);
  }

  /** The ids due among the first `i` come first among all due ids. */
  lemma {:induction false} DueSplit(order: seq<u64>, i: nat, events: map<u64, TrackedEvent>, now: Instant)
    requires i <= |order|
    ensures var all := DueInOrder(order, events, now);
            var front := DueInOrder(order[..i], events, now);
            |front| <= |all| && all[..|front|] == front
    decreases |order| - i
  {
    if i < |order| {
      assert order[..|order| - 1][..i] == order[..i];
      DueSplit(order[..|order| - 1], i, events, now);
    } else {
      assert order[..i] == order;
    }
  }
}
