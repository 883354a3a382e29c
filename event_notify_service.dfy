/**
 * The event-notify service: a client of the scheduler that keeps one job per
 * platform event, due five minutes before the event starts, and remembers
 * the job under the event id. The job's callback announces the event once
 * per event id, recording each announced id in the guild's store.
 *
 * The map is modelled as written, including its inconsistencies:
 * - `Created` stores the guild id as the entry's `Id` and the event id as its
 *   `GuildId`;
 * - the stored `EventTime` is the raw start time, whereas `Updated` compares
 *   it with the start time minus five minutes;
 * - `Updated` re-files the entry under the job handle instead of the event id.
 * Map keys are therefore unbounded naturals, holding both event ids and
 * handles.
 */
module EventNotifyService {
  import opened Common
  import opened Scheduler
  import opened Storage
  import opened EventNotifyModule

  /** What a job runs: `NotifyEvent(guildId, eventId)`. */
  datatype Notification = Notify(guildId: u64, eventId: u64)

  datatype LiveEvent = LiveEvent(jobHandle: nat, id: u64, guildId: u64, eventTime: Instant)

  // ---------------------------------------------------------------------
  // Specifications

  /** The map after `JoinedGuild` files `evs` of guild `gid`, handles counting up from `next + 1`. */
  function Joined(live: map<nat, LiveEvent>, next: nat, gid: u64, evs: seq<GuildEvent>): (r: map<nat, LiveEvent>)
    ensures live.Keys <= r.Keys
    ensures forall k :: k in live ==> r[k] == live[k]
    decreases |evs|
  {
    if evs == [] then live
    else
      var m := Joined(live, next, gid, evs[..|evs| - 1]);
      var e := evs[|evs| - 1];
      if e.id in m then m else m[e.id := LiveEvent(next + |evs|, e.id, gid, e.startTime)]
  }

  /** The jobs after `JoinedGuild` adds one per event of `evs`. */
  function JobsAdded(jobs: map<nat, Job<Notification>>, next: nat, evs: seq<GuildEvent>): (r: map<nat, Job<Notification>>)
    decreases |evs|
  {
    if evs == [] then jobs
    else
      var e := evs[|evs| - 1];
      var h := next + |evs|;
      JobsAdded(jobs, next, evs[..|evs| - 1])[h := Job(h, e.startTime - FiveMinutes, Notify(e.guildId, e.id))]
  }

  /** One more event of the guild: its job under the next handle, its entry if the id is new. */
  lemma JoinStep(live: map<nat, LiveEvent>, jobs: map<nat, Job<Notification>>, next: nat, gid: u64,
                 evs: seq<GuildEvent>, i: nat)
    requires i < |evs|
    ensures var e, h := evs[i], next + i + 1;
            var m := Joined(live, next, gid, evs[..i]);
            JobsAdded(jobs, next, evs[..i + 1]) ==
              JobsAdded(jobs, next, evs[..i])[h := Job(h, e.startTime - FiveMinutes, Notify(e.guildId, e.id))] &&
            Joined(live, next, gid, evs[..i + 1]) ==
              (if e.id in m then m else m[e.id := LiveEvent(h, e.id, gid, e.startTime)])
  {
    assert evs[..i + 1][..i] == evs[..i];
  }

  /**
   * The jobs `JoinedGuild` adds are exactly one per event, the `i`-th under
   * `next + i + 1`, due five minutes before the event; jobs with handles up
   * to `next` stay as they were.
   */
  lemma {:induction false} JobsAddedContents(jobs: map<nat, Job<Notification>>, next: nat, evs: seq<GuildEvent>)
    requires forall h :: h in jobs ==> h <= next
    ensures var r := JobsAdded(jobs, next, evs);
            (forall h :: h in r <==> h in jobs || next < h <= next + |evs|) &&
            (forall h :: h in jobs ==> r[h] == jobs[h]) &&
            (forall i :: 0 <= i < |evs| ==>
               r[next + i + 1] == Job(next + i + 1, evs[i].startTime - FiveMinutes, Notify(evs[i].guildId, evs[i].id)))
    decreases |evs|
  {
    if evs != [] {
      var front := evs[..|evs| - 1];
      JobsAddedContents(jobs, next, front);
      forall i | 0 <= i < |front| ensures front[i] == evs[i] {
      }
    }
  }

  /** After `JoinedGuild` every listed event id is filed. */
  lemma {:induction false} JoinedFilesAll(live: map<nat, LiveEvent>, next: nat, gid: u64, evs: seq<GuildEvent>)
    ensures forall i :: 0 <= i < |evs| ==> evs[i].id in Joined(live, next, gid, evs)
    decreases |evs|
  {
    if evs != [] {
      var front := evs[..|evs| - 1];
      JoinedFilesAll(live, next, gid, front);
      forall i | 0 <= i < |front| ensures front[i] == evs[i] {
      }
    }
  }

  /** The job handles held in the map. */
  function Handles(live: map<nat, LiveEvent>): set<nat>
  {
    HandlesOf(live, live.Keys)
  }

  /** The job handles held under the given keys. */
  function HandlesOf(live: map<nat, LiveEvent>, keys: set<nat>): set<nat>
  {
    set k | k in keys && k in live :: live[k].jobHandle
  }

  lemma HandlesOfAdd(live: map<nat, LiveEvent>, keys: set<nat>, key: nat)
    requires key in live
    ensures HandlesOf(live, keys + {key}) == HandlesOf(live, keys) + {live[key].jobHandle}
  {
  }

  function EventCount(guilds: seq<Guild>): nat
    decreases |guilds|
  {
    if guilds == [] then 0 else EventCount(guilds[..|guilds| - 1]) + |guilds[|guilds| - 1].events|
  }

  /** `JoinedGuild` for each guild in turn. */
  function JoinedAll(live: map<nat, LiveEvent>, next: nat, guilds: seq<Guild>): map<nat, LiveEvent>
    decreases |guilds|
  {
    if guilds == [] then live
    else
      var front := guilds[..|guilds| - 1];
      var g := guilds[|guilds| - 1];
      Joined(JoinedAll(live, next, front), next + EventCount(front), g.id, g.events)
  }

  function JobsAddedAll(jobs: map<nat, Job<Notification>>, next: nat, guilds: seq<Guild>): map<nat, Job<Notification>>
    decreases |guilds|
  {
    if guilds == [] then jobs
    else
      var front := guilds[..|guilds| - 1];
      JobsAdded(JobsAddedAll(jobs, next, front), next + EventCount(front), guilds[|guilds| - 1].events)
  }

  /** How the platform answers during one `NotifyEvent` run. */
  datatype NotifyPlatform = NotifyPlatform(
    featureEnabled: bool,
    eventFound: bool,
    channelId: Option<u64>,
    isTextChannel: u64 -> bool,
    postFails: bool,
    scheduled: bool,
    startFails: bool)

  /** Whether `NotifyEvent` posts (and records) the announcement. */
  predicate Posts(handled: seq<u64>, eventId: u64, p: NotifyPlatform)
  {
    p.featureEnabled && eventId !in handled && p.eventFound && p.channelId.Some? &&
    p.isTextChannel(p.channelId.value) && !p.postFails
  }

  /**
   * `NotifyEvent`: nothing for a disabled feature or an event already
   * announced; a missing event throws; a missing or unusable channel is only
   * logged; after the post the event id is recorded, and then the event is
   * started if it is still scheduled.
   */
  function NotifySpec(handled: seq<u64>, eventId: u64, p: NotifyPlatform): (r: (Outcome<bool>, seq<u64>))
    ensures Posts(handled, eventId, p) ==> r.1 == handled + [eventId]
    ensures !Posts(handled, eventId, p) ==> r.1 == handled
    ensures r.0 == Returned(true) ==> Posts(handled, eventId, p)
    ensures eventId in handled ==> r == (Returned(false), handled)
  {
    if !p.featureEnabled || eventId in handled then (Returned(false), handled)
    else if !p.eventFound then (Threw, handled)
    else if p.channelId.None? || !p.isTextChannel(p.channelId.value) then (Returned(false), handled)
    else if p.postFails then (Threw, handled)
    else if p.scheduled && p.startFails then (Threw, handled + [eventId])
    else (Returned(true), handled + [eventId])
  }

  /** An event is announced at most once: after a run that posted, any later run posts nothing. */
  lemma NotifiesAtMostOnce(handled: seq<u64>, eventId: u64, p: NotifyPlatform, q: NotifyPlatform)
    ensures var h := NotifySpec(handled, eventId, p).1;
            eventId in handled || h != handled ==> NotifySpec(h, eventId, q) == (Returned(false), h)
  {
  }

  // ---------------------------------------------------------------------
  // The service

  class EventNotify {
    var liveEvents: map<nat, LiveEvent>
    const scheduler: SchedulerService<Notification>

    constructor (scheduler: SchedulerService<Notification>)
      ensures this.scheduler == scheduler && liveEvents == map[]
    {
      this.scheduler := scheduler;
      liveEvents := map[];
    }

    /** `Discord_JoinedGuild`: one job per listed event, filed under the event id, in one transaction. */
    method JoinedGuild(g: Guild)
      requires scheduler.Valid()
      modifies this, scheduler
      ensures scheduler.Valid()
      ensures liveEvents == Joined(old(liveEvents), old(scheduler.nextJobId), g.id, g.events)
      ensures scheduler.jobs == JobsAdded(old(scheduler.jobs), old(scheduler.nextJobId), g.events)
      ensures scheduler.nextJobId == old(scheduler.nextJobId) + |g.events|
      ensures scheduler.Tx() == ScopeResult(old(scheduler.Tx()), |g.events|)
    {
      ghost var start := scheduler.Tx();
      var tran := scheduler.BeginTransaction();
      assert scheduler.Tx().depth == (start.depth + 1) % 256;
      AddGuildJobs(g);
      tran.Dispose();
      ScopeCloses(start, |g.events|);
    }

    /** The loop of `Discord_JoinedGuild` over the guild's events. */
    method AddGuildJobs(g: Guild)
      requires scheduler.Valid()
      modifies this, scheduler
      ensures scheduler.Valid()
      ensures liveEvents == Joined(old(liveEvents), old(scheduler.nextJobId), g.id, g.events)
      ensures scheduler.jobs == JobsAdded(old(scheduler.jobs), old(scheduler.nextJobId), g.events)
      ensures scheduler.nextJobId == old(scheduler.nextJobId) + |g.events|
      ensures var st := old(scheduler.Tx());
              scheduler.Tx() == TxState(st.depth, st.signaled || (st.depth == 0 && |g.events| > 0))
    {
      ghost var start := scheduler.Tx();
      ghost var next := scheduler.nextJobId;
      for i := 0 to |g.events|
        invariant scheduler.Valid() && scheduler.nextJobId == next + i
        invariant liveEvents == Joined(old(liveEvents), next, g.id, g.events[..i])
        invariant scheduler.jobs == JobsAdded(old(scheduler.jobs), next, g.events[..i])
        invariant scheduler.Tx() == TxState(start.depth, start.signaled || (start.depth == 0 && i > 0))
      {
        var e := g.events[i];
        JoinStep(old(liveEvents), old(scheduler.jobs), next, g.id, g.events, i);
        var handle := scheduler.AddJob(e.startTime - FiveMinutes, Notify(e.guildId, e.id));
        if e.id !in liveEvents {
          liveEvents := liveEvents[e.id := LiveEvent(handle, e.id, g.id, e.startTime)];
        }
      }
      assert g.events[..|g.events|] == g.events;
    }

    /**
     * `Discord_GuildScheduledEventCreated`: a new job, and the entry for the
     * event id overwritten with the guild id and event id swapped.
     */
    method Created(ev: GuildEvent)
      requires scheduler.Valid()
      modifies this, scheduler
      ensures scheduler.Valid() && scheduler.nextJobId == old(scheduler.nextJobId) + 1
      ensures var h := scheduler.nextJobId;
              scheduler.jobs == old(scheduler.jobs)[h := Job(h, ev.startTime - FiveMinutes, Notify(ev.guildId, ev.id))] &&
              liveEvents == old(liveEvents)[ev.id := LiveEvent(h, ev.guildId, ev.id, ev.startTime)]
      ensures scheduler.Tx() == StepTx(old(scheduler.Tx()), Mutate)
    {
      var handle := scheduler.AddJob(ev.startTime - FiveMinutes, Notify(ev.guildId, ev.id));
      liveEvents := liveEvents[ev.id := LiveEvent(handle, ev.guildId, ev.id, ev.startTime)];
    }

    /** `Discord_GuildScheduledEventCancelled`: the entry and its job go, if the id is filed. */
    method Cancelled(id: u64)
      requires scheduler.Valid()
      modifies this, scheduler
      ensures scheduler.Valid() && scheduler.nextJobId == old(scheduler.nextJobId)
      ensures id !in old(liveEvents) ==>
                liveEvents == old(liveEvents) && scheduler.jobs == old(scheduler.jobs) &&
                scheduler.Tx() == old(scheduler.Tx())
      ensures id in old(liveEvents) ==>
                liveEvents == old(liveEvents) - {id} &&
                scheduler.jobs == old(scheduler.jobs) - {old(liveEvents)[id].jobHandle} &&
                scheduler.Tx() == StepTx(old(scheduler.Tx()), Mutate)
    {
      if id in liveEvents {
        var liveEvent := liveEvents[id];
        liveEvents := liveEvents - {id};
        var _ := scheduler.RemoveJob(liveEvent.jobHandle);
      }
    }

    /**
     * `Discord_GuildScheduledEventUpdated`, given the id of the cached copy
     * (`None` when the event is not in the client cache, where reading its
     * id throws before anything changes) and the updated event. An unfiled id goes through `Created`. A filed
     * one gets the new start time minus five minutes, is filed again under
     * its job handle (the entry under the event id stays), and its job is
     * rescheduled only when that time differs from the stored one.
     */
    method Updated(cachedId: Option<u64>, ev: GuildEvent) returns (r: Outcome<()>)
      requires scheduler.Valid()
      modifies this, scheduler
      ensures scheduler.Valid()
      ensures r.Threw? <==> cachedId.None?
      ensures cachedId.None? ==>
                liveEvents == old(liveEvents) && scheduler.jobs == old(scheduler.jobs) &&
                scheduler.nextJobId == old(scheduler.nextJobId) && scheduler.Tx() == old(scheduler.Tx())
      ensures cachedId.Some? && cachedId.value !in old(liveEvents) ==>
                var h := scheduler.nextJobId;
                h == old(scheduler.nextJobId) + 1 &&
                scheduler.jobs == old(scheduler.jobs)[h := Job(h, ev.startTime - FiveMinutes, Notify(ev.guildId, ev.id))] &&
                liveEvents == old(liveEvents)[ev.id := LiveEvent(h, ev.guildId, ev.id, ev.startTime)]
      ensures cachedId.Some? && cachedId.value in old(liveEvents) ==>
                var prior := old(liveEvents)[cachedId.value];
                var moved := prior.(eventTime := ev.startTime - FiveMinutes);
                liveEvents == (old(liveEvents) - {prior.jobHandle})[prior.jobHandle := moved] &&
                scheduler.nextJobId == old(scheduler.nextJobId) &&
                (prior.eventTime == moved.eventTime ==>
                   scheduler.jobs == old(scheduler.jobs) && scheduler.Tx() == old(scheduler.Tx())) &&
                (prior.eventTime != moved.eventTime && prior.jobHandle in old(scheduler.jobs) ==>
                   scheduler.jobs == old(scheduler.jobs)[prior.jobHandle :=
                     Job(prior.jobHandle, moved.eventTime, Notify(moved.guildId, moved.id))] &&
                   scheduler.Tx() == StepTx(old(scheduler.Tx()), Mutate)) &&
                (prior.eventTime != moved.eventTime && prior.jobHandle !in old(scheduler.jobs) ==>
                   scheduler.jobs == old(scheduler.jobs) && scheduler.Tx() == old(scheduler.Tx()))
    {
      if cachedId.None? {
        return Threw;
      }
      r := Returned(());
      var id := cachedId.value;
      if id !in liveEvents {
        Created(ev);
        return;
      }
      var oldEvent := liveEvents[id];
      var newEvent := oldEvent.(eventTime := ev.startTime - FiveMinutes);
      liveEvents := liveEvents - {oldEvent.jobHandle};
      if newEvent.jobHandle !in liveEvents {
        liveEvents := liveEvents[newEvent.jobHandle := newEvent];
      }
      if oldEvent.eventTime != newEvent.eventTime {
        var _ := scheduler.UpdateJob(newEvent.jobHandle, newEvent.eventTime, Notify(newEvent.guildId, newEvent.id));
      }
    }

    /** `ClearEventJobs`: every held job is removed and the map emptied, in one transaction. */
    method ClearEventJobs()
      requires scheduler.Valid()
      modifies this, scheduler
      ensures scheduler.Valid() && scheduler.nextJobId == old(scheduler.nextJobId)
      ensures liveEvents == map[]
      ensures scheduler.jobs == old(scheduler.jobs) - Handles(old(liveEvents))
      ensures scheduler.Tx() == ScopeResult(old(scheduler.Tx()), |old(liveEvents)|)
    {
      ghost var start := scheduler.Tx();
      var tran := scheduler.BeginTransaction();
      assert scheduler.Tx().depth == (start.depth + 1) % 256;
      RemoveHeldJobs();
      tran.Dispose();
      ScopeCloses(start, |old(liveEvents)|);
    }

    /** The loop of `ClearEventJobs` over a copy of the map: each held job removed, then its entry. */
    method RemoveHeldJobs()
      requires scheduler.Valid()
      modifies this, scheduler
      ensures scheduler.Valid() && scheduler.nextJobId == old(scheduler.nextJobId)
      ensures liveEvents == map[]
      ensures scheduler.jobs == old(scheduler.jobs) - Handles(old(liveEvents))
      ensures var st := old(scheduler.Tx());
              scheduler.Tx() == TxState(st.depth, st.signaled || (st.depth == 0 && |old(liveEvents)| > 0))
    {
      ghost var start := scheduler.Tx();
      var snapshot := liveEvents;
      var pending := snapshot.Keys;
      while pending != {}
        invariant pending <= snapshot.Keys
        invariant liveEvents == snapshot - (snapshot.Keys - pending)
        invariant scheduler.jobs == old(scheduler.jobs) - HandlesOf(snapshot, snapshot.Keys - pending)
        invariant scheduler.Valid() && scheduler.nextJobId == old(scheduler.nextJobId)
        invariant scheduler.Tx() == TxState(start.depth, start.signaled || (start.depth == 0 && pending != snapshot.Keys))
        decreases |pending|
      {
        var key :| key in pending;
        ghost var removed := snapshot.Keys - pending;
        assert snapshot.Keys - (pending - {key}) == removed + {key};
        HandlesOfAdd(snapshot, removed, key);
        WithoutOneMore(old(scheduler.jobs), HandlesOf(snapshot, removed), snapshot[key].jobHandle);
        WithoutOneMore(snapshot, removed, key);
        var _ := scheduler.RemoveJob(snapshot[key].jobHandle);
        liveEvents := liveEvents - {key};
        pending := pending - {key};
      }
      assert |snapshot| > 0 <==> snapshot.Keys != {};
    }

    /**
     * `Discord_Connected`: inside one transaction, clear every job and then
     * join every guild again.
     */
    method Connected(guilds: seq<Guild>)
      requires scheduler.Valid()
      modifies this, scheduler
      ensures scheduler.Valid()
      ensures liveEvents == JoinedAll(map[], old(scheduler.nextJobId), guilds)
      ensures scheduler.jobs ==
              JobsAddedAll(old(scheduler.jobs) - Handles(old(liveEvents)), old(scheduler.nextJobId), guilds)
      ensures scheduler.nextJobId == old(scheduler.nextJobId) + EventCount(guilds)
      ensures scheduler.Tx() ==
              StepTx(ScopeResult(StepTx(old(scheduler.Tx()), Begin), |old(liveEvents)| + EventCount(guilds)), End)
    {
      var tran := scheduler.BeginTransaction();
      ClearEventJobs();
      JoinGuilds(guilds);
      tran.Dispose();
    }

    /** The loop of `Discord_Connected`: `JoinedGuild` for each guild in turn. */
    method JoinGuilds(guilds: seq<Guild>)
      requires scheduler.Valid()
      modifies this, scheduler
      ensures scheduler.Valid()
      ensures liveEvents == JoinedAll(old(liveEvents), old(scheduler.nextJobId), guilds)
      ensures scheduler.jobs == JobsAddedAll(old(scheduler.jobs), old(scheduler.nextJobId), guilds)
      ensures scheduler.nextJobId == old(scheduler.nextJobId) + EventCount(guilds)
      ensures guilds == [] ==> scheduler.Tx() == old(scheduler.Tx())
      ensures guilds != [] ==> scheduler.Tx() == ScopeResult(old(scheduler.Tx()), EventCount(guilds))
    {
      ghost var next := scheduler.nextJobId;
      for gi := 0 to |guilds|
        invariant scheduler.Valid() && scheduler.nextJobId == next + EventCount(guilds[..gi])
        invariant liveEvents == JoinedAll(old(liveEvents), next, guilds[..gi])
        invariant scheduler.jobs == JobsAddedAll(old(scheduler.jobs), next, guilds[..gi])
        invariant gi == 0 ==> scheduler.Tx() == old(scheduler.Tx())
        invariant gi > 0 ==> scheduler.Tx() == ScopeResult(old(scheduler.Tx()), EventCount(guilds[..gi]))
      {
        assert guilds[..gi + 1][..gi] == guilds[..gi];
        JoinedGuild(guilds[gi]);
      }
      assert guilds[..|guilds|] == guilds;
    }

    /** `NotifyEvent`, the job callback, against the guild's store. */
    method NotifyEvent(db: Database, guildId: u64, eventId: u64, p: NotifyPlatform) returns (r: Outcome<bool>)
      modifies db
      ensures (r, db.handledEvents) == NotifySpec(old(db.handledEvents), eventId, p)
      ensures db.rotationEntries == old(db.rotationEntries) && db.trackedEvents == old(db.trackedEvents)
      ensures db.config == old(db.config)
    {
      if !p.featureEnabled {
        return Returned(false);
      }
      if eventId in db.handledEvents {
        return Returned(false);
      }
      if !p.eventFound {
        return Threw;
      }
      if p.channelId.None? {
        return Returned(false);
      }
      if !p.isTextChannel(p.channelId.value) {
        return Returned(false);
      }
      if p.postFails {
        return Threw;
      }
      db.handledEvents := db.handledEvents + [eventId];
      if p.scheduled && p.startFails {
        return Threw;
      }
      return Returned(true);
    }
  }
}
