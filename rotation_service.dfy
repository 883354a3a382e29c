/**
 * The service snapshot of the rotation: a `RotationList` that loads the
 * queue sorted by `order` and writes it back renumbered, the skip and
 * advance steps on it, the refresh that creates the head's event and unlinks
 * every other entry, and the handler for a completed platform event.
 *
 * In this snapshot the event creator links the head itself, before it
 * inserts the tracked-event record. A failed deletion keeps its record.
 */
module RotationService {
  import opened Common
  import opened Rotation
  import opened Recurrence
  import opened Storage
  import opened Announcement

  class RotationList {
    var items: seq<RotationEntry>
    const db: Database

    /** Loads the stored records sorted by `order`. */
    constructor (db: Database)
      ensures this.db == db && items == OrderByOrder(db.rotationEntries)
    {
      this.db := db;
      items := OrderByOrder(db.rotationEntries);
    }

    /**
     * Moves skipped entries from the head to the tail, clearing their flag.
     * Reading the head of an empty list throws.
     */
    method AdvancePastSkippedUsers() returns (r: Outcome<()>)
      modifies this
      ensures old(items) == [] ==> r == Threw && items == old(items)
      ensures old(items) != [] ==> r == Returned(()) && items == SkipPast(old(items))
    {
      if |items| == 0 {
        return Threw;
      }
      ghost var s := items;
      ghost var k := LeadingSkipped(s);
      ghost var j := 0;
      while items[0].skip
        invariant 0 <= j <= k
        invariant items == s[j..] + Unskipped(s[..j])
        decreases k - j
      {
        assert j < k;
        var move := items[0];
        items := items[1..];
        items := items + [move.(skip := false)];
        assert s[..j + 1] == s[..j] + [s[j]];
        UnskippedAppend(s[..j], [s[j]]);
        j := j + 1;
      }
      assert j == k;
      return Returned(());
    }

    /**
     * One turn: false on an empty list; otherwise the head is handled (a user
     * cycles to the tail, a postponement is dropped) between two skip
     * passes, the second of which throws when nothing is left.
     */
    method AdvanceRotation() returns (r: Outcome<bool>)
      modifies this
      ensures Advance(old(items)) == NotAdvanced ==> r == Returned(false) && items == old(items)
      ensures Advance(old(items)).Advanced? ==> r == Returned(true) && items == Advance(old(items)).rotation
      ensures Advance(old(items)) == Faulted ==> r == Threw && items == []
    {
      if |items| == 0 {
        return Returned(false);
      }
      ghost var s := items;
      var first := AdvancePastSkippedUsers();
      SkipPastShape(s);
      if items[0].kind == User {
        items := items + [items[0]];
      }
      items := items[1..];
      assert items == AfterHead(SkipPast(s));
      var second := AdvancePastSkippedUsers();
      if second.Threw? {
        return Threw;
      }
      return Returned(true);
    }

    /** Writes the queue back: all records replaced, `order` set to the index. */
    method Dispose()
      modifies db
      ensures db.rotationEntries == Renumbered(items)
      ensures db.trackedEvents == old(db.trackedEvents) && db.handledEvents == old(db.handledEvents)
      ensures db.config == old(db.config)
    {
      db.rotationEntries := [];
      for i := 0 to |items|
        invariant db.rotationEntries == Renumbered(items[..i])
        invariant db.trackedEvents == old(db.trackedEvents) && db.handledEvents == old(db.handledEvents)
        invariant db.config == old(db.config)
      {
        db.rotationEntries := db.rotationEntries + [items[i].(order := i)];
      }
      assert items[..|items|] == items;
    }
  }

  // ---------------------------------------------------------------------
  // Specifications

  /**
   * `CreateEventForNextRotation`: nothing for a postponement at the head;
   * for a user, the platform event is created, the head is linked to the
   * new record's key and then the record is inserted (an existing key makes
   * the insert throw, leaving the link in place).
   */
  function CreateSpec(s: seq<RotationEntry>, store: map<Guid, u64>, p: Platform,
                      nights: seq<Instant>, newKey: Guid): (e: Effect<Option<TrackedEvent>>)
    ensures |e.rotation| == |s| && (s != [] ==> e.rotation[1..] == s[1..])
    ensures e.result.Returned? && e.result.value.None? ==> s != [] && s[0].kind.Postponement?
    ensures s != [] && s[0].kind == Postponement ==> e.result == Returned(None)
    ensures e.result.Returned? && e.result.value.None? ==> e.rotation == s && e.store == store
    ensures e.result.Threw? <==>
              s == [] ||
              (s[0].kind == User && (s[0].userId.None? || p.userLookupFails(s[0].userId.value) ||
                                     nights == [] || p.createdEventId.None? || newKey in store))
    ensures e.result.Threw? ==> e.store == store
    ensures e.result.Returned? && e.result.value.Some? ==>
              p.createdEventId.Some? && e.result.value.value == TrackedEvent(newKey, p.createdEventId.value) &&
              newKey !in store && e.store == store[newKey := p.createdEventId.value] &&
              e.rotation[0] == s[0].(trackedEventKey := Some(newKey))
  {
    if s == [] then Effect(Threw, s, store)
    else if s[0].kind != User then Effect(Returned(None), s, store)
    else if s[0].userId.None? || p.userLookupFails(s[0].userId.value) || nights == [] || p.createdEventId.None?
    then Effect(Threw, s, store)
    else
      var linked := s[0 := s[0].(trackedEventKey := Some(newKey))];
      if newKey in store then Effect(Threw, linked, store)
      else Effect(Returned(Some(TrackedEvent(newKey, p.createdEventId.value))), linked,
                  store[newKey := p.createdEventId.value])
  }

  /**
   * `RefreshEvents`: after the skip pass, a user head without a link gets a
   * new event, and then every entry behind the head is unlinked, deleting
   * its record where the platform deletion succeeds.
   */
  function RefreshSpec(s: seq<RotationEntry>, store: map<Guid, u64>, p: Platform,
                       nights: seq<Instant>, newKey: Guid): (e: Effect<()>)
    ensures |e.rotation| == |s|
    ensures s == [] ==> e == Effect(Returned(()), s, store)
  {
    SkipPastShape(s);
    if s == [] then Effect(Returned(()), s, store)
    else
      var t := SkipPast(s);
      if t[0].kind == User && t[0].trackedEventKey.None? then
        var c := CreateSpec(t, store, p, nights, newKey);
        if c.result.Threw? then Effect(Threw, c.rotation, c.store)
        else
          var linked := if c.result.value.Some?
                        then c.rotation[0 := c.rotation[0].(trackedEventKey := Some(c.result.value.value.key))]
                        else c.rotation;
          var (rotation, store') := Cleanup(linked, c.store, p.deleteFails);
          Effect(Returned(()), rotation, store')
      else
        var (rotation, store') := Cleanup(t, store, p.deleteFails);
        Effect(Returned(()), rotation, store')
  }

  /**
   * What the completed-event handler leaves behind once the record `key` of
   * the completed event has been found: the queue after the turn and the
   * new head's event, and the store without `key`.
   */
  function CompletedSpec(records: seq<RotationEntry>, store: map<Guid, u64>, key: Guid, p: Platform,
                         nights: seq<Instant>, newKey: Guid): (e: Effect<()>)
    ensures records == [] ==> e == Effect(Returned(()), [], store)
    ensures Advance(OrderByOrder(records)).Faulted? ==> e == Effect(Threw, [], store)
    ensures Advance(OrderByOrder(records)).Advanced? ==>
              |e.rotation| == |Advance(OrderByOrder(records)).rotation| &&
              e.store.Keys <= (store.Keys - {key}) + {newKey} &&
              (newKey != key ==> key !in e.store)
  {
    var s := OrderByOrder(records);
    match Advance(s)
    case NotAdvanced => Effect(Returned(()), s, store)
    case Faulted => Effect(Threw, [], store)
    case Advanced(a) =>
      var c := CreateSpec(a, store - {key}, p, nights, newKey);
      Effect(if c.result.Threw? then Threw else Returned(()), c.rotation, c.store)
  }

  // ---------------------------------------------------------------------
  // Properties

  /**
   * A refresh that returns leaves a non-skipped head and no link behind
   * it; a user head is then linked, and every record it deletes was linked
   * from behind the head and its platform event could be deleted.
   */
  lemma RefreshLinksHeadOnly(s: seq<RotationEntry>, store: map<Guid, u64>, p: Platform,
                             nights: seq<Instant>, newKey: Guid)
    requires s != []
    requires RefreshSpec(s, store, p, nights, newKey).result.Returned?
    ensures var e := RefreshSpec(s, store, p, nights, newKey);
            OnlyHeadLinked(e.rotation) && !e.rotation[0].skip &&
            (e.rotation[0].kind == User ==> e.rotation[0].trackedEventKey.Some?) &&
            e.store.Keys <= store.Keys + {newKey} &&
            forall k :: k in store && k !in e.store ==>
              !p.deleteFails(store[k]) &&
              exists i :: 1 <= i < |s| && SkipPast(s)[i].trackedEventKey == Some(k)
  {
    SkipPastShape(s);
  }

  /** Refreshing a refreshed queue changes nothing and creates nothing. */
  lemma RefreshIdempotent(s: seq<RotationEntry>, store: map<Guid, u64>, p: Platform,
                          nights: seq<Instant>, newKey: Guid, p2: Platform, nights2: seq<Instant>, newKey2: Guid)
    requires RefreshSpec(s, store, p, nights, newKey).result.Returned?
    ensures var e := RefreshSpec(s, store, p, nights, newKey);
            RefreshSpec(e.rotation, e.store, p2, nights2, newKey2) == Effect(Returned(()), e.rotation, e.store)
  {
    var e := RefreshSpec(s, store, p, nights, newKey);
    if s != [] {
      RefreshLinksHeadOnly(s, store, p, nights, newKey);
      SkipPastShape(e.rotation);
      assert SkipPast(e.rotation) == e.rotation;
      CleanupIdempotent(e.rotation, e.store, p2.deleteFails);
    }
  }

  /**
   * When the completed event's turn was a user's and the next head is a user
   * whose event can be created, the handler moves that turn to the tail and
   * records exactly the new event in place of the completed one.
   */
  lemma CompletedReplacesEvent(records: seq<RotationEntry>, store: map<Guid, u64>, key: Guid, p: Platform,
                               nights: seq<Instant>, newKey: Guid)
    requires key in store && newKey !in store
    requires Advance(OrderByOrder(records)).Advanced?
    requires CompletedSpec(records, store, key, p, nights, newKey).result.Returned?
    ensures var a := Advance(OrderByOrder(records)).rotation;
            var e := CompletedSpec(records, store, key, p, nights, newKey);
            key !in e.store && |e.rotation| == |a| &&
            (a[0].kind == User ==> e.store == (store - {key})[newKey := p.createdEventId.value] &&
                                   e.rotation[0].trackedEventKey == Some(newKey)) &&
            (a[0].kind == Postponement ==> e.store == store - {key} && e.rotation == a)
  {
    AdvanceCases(OrderByOrder(records));
  }

  // ---------------------------------------------------------------------
  // Operations

  /** `CreateEventForNextRotation` on the list. */
  method CreateEventForNextRotation(rotation: RotationList, p: Platform, nights: seq<Instant>, newKey: Guid)
    returns (r: Outcome<Option<TrackedEvent>>)
    modifies rotation, rotation.db
    ensures Effect(r, rotation.items, rotation.db.trackedEvents) ==
            CreateSpec(old(rotation.items), old(rotation.db.trackedEvents), p, nights, newKey)
    ensures rotation.db.rotationEntries == old(rotation.db.rotationEntries)
    ensures rotation.db.handledEvents == old(rotation.db.handledEvents) && rotation.db.config == old(rotation.db.config)
  {
    var db := rotation.db;
    if |rotation.items| == 0 {
      return Threw;
    }
    var next := rotation.items[0];
    if next.kind != User {
      return Returned(None);
    }
    if next.userId.None? || p.userLookupFails(next.userId.value) || |nights| == 0 || p.createdEventId.None? {
      return Threw;
    }
    var nextEvent := TrackedEvent(newKey, p.createdEventId.value);
    rotation.items := rotation.items[0 := rotation.items[0].(trackedEventKey := Some(nextEvent.key))];
    if nextEvent.key in db.trackedEvents {
      return Threw;
    }
    db.trackedEvents := db.trackedEvents[nextEvent.key := nextEvent.discordEventId];
    return Returned(Some(nextEvent));
  }

  /** `RefreshEvents` on the list. */
  method RefreshEvents(rotation: RotationList, p: Platform, nights: seq<Instant>, newKey: Guid)
    returns (r: Outcome<()>)
    modifies rotation, rotation.db
    ensures Effect(r, rotation.items, rotation.db.trackedEvents) ==
            RefreshSpec(old(rotation.items), old(rotation.db.trackedEvents), p, nights, newKey)
    ensures rotation.db.rotationEntries == old(rotation.db.rotationEntries)
    ensures rotation.db.handledEvents == old(rotation.db.handledEvents) && rotation.db.config == old(rotation.db.config)
  {
    var db := rotation.db;
    if |rotation.items| == 0 {
      return Returned(());
    }
    var skipped := rotation.AdvancePastSkippedUsers();
    var next := rotation.items[0];
    if next.kind == User && next.trackedEventKey.None? {
      var nextEvent := CreateEventForNextRotation(rotation, p, nights, newKey);
      if nextEvent.Threw? {
        return Threw;
      }
      if nextEvent.value.Some? {
        rotation.items := rotation.items[0 := rotation.items[0].(trackedEventKey := Some(nextEvent.value.value.key))];
      }
    }
    ClearLinksBehindHead(rotation, p.deleteFails);
    return Returned(());
  }

  /**
   * The loop of `RefreshEvents` over positions 1 onwards: each link is
   * dropped, and its record deleted when the platform deletion succeeds (a
   * failure keeps the record).
   */
  method ClearLinksBehindHead(rotation: RotationList, deleteFails: u64 -> bool)
    modifies rotation, rotation.db
    ensures (rotation.items, rotation.db.trackedEvents) ==
            Cleanup(old(rotation.items), old(rotation.db.trackedEvents), deleteFails)
    ensures rotation.db.rotationEntries == old(rotation.db.rotationEntries)
    ensures rotation.db.handledEvents == old(rotation.db.handledEvents) && rotation.db.config == old(rotation.db.config)
  {
    var db := rotation.db;
    ghost var s := rotation.items;
    ghost var store := db.trackedEvents;
    if |rotation.items| == 0 {
      assert ClearedLinks(s) == s;
      assert store - StaleKeys(s, 0, store, deleteFails) == store;
      return;
    }
    var i := 1;
    while i < |rotation.items|
      invariant 1 <= i <= |s| && |rotation.items| == |s|
      invariant rotation.items == ClearedLinks(s)[..i] + s[i..]
      invariant db.trackedEvents == store - StaleKeys(s, i, store, deleteFails)
      invariant db.rotationEntries == old(db.rotationEntries)
      invariant db.handledEvents == old(db.handledEvents) && db.config == old(db.config)
      decreases |s| - i
    {
      CleanupStep(s, i, store, deleteFails, rotation.items, db.trackedEvents);
      var rot := rotation.items[i];
      if rot.trackedEventKey.Some? {
        var key := rot.trackedEventKey.value;
        if key in db.trackedEvents {
          var discordEventId := db.trackedEvents[key];
          if !deleteFails(discordEventId) {
            db.trackedEvents := db.trackedEvents - {key};
          }
        }
        rotation.items := rotation.items[i := rot.(trackedEventKey := None)];
      }
      i := i + 1;
    }
    assert ClearedLinks(s)[..|s|] == ClearedLinks(s) && s[|s|..] == [];
    assert rotation.items == ClearedLinks(s);
  }

  /**
   * The handler for a completed platform event: nothing unless a tracked
   * event points at it; otherwise the queue takes a turn, the completed
   * event's record is deleted, the next event is created and announced, and
   * the queue is written back, also when a step throws.
   */
  method GuildScheduledEventCompleted(db: Database, guildId: u64, eventId: u64, p: Platform,
                                      nights: seq<Instant>, newKey: Guid)
    returns (r: Outcome<Option<Message>>)
    modifies db
    ensures !Tracks(old(db.trackedEvents), eventId) ==>
              r == Returned(None) && db.rotationEntries == old(db.rotationEntries) &&
              db.trackedEvents == old(db.trackedEvents)
    ensures Tracks(old(db.trackedEvents), eventId) ==>
              exists key :: key in old(db.trackedEvents) && old(db.trackedEvents)[key] == eventId &&
                var e := CompletedSpec(old(db.rotationEntries), old(db.trackedEvents), key, p, nights, newKey);
                db.rotationEntries == Renumbered(e.rotation) && db.trackedEvents == e.store &&
                r == (if e.result.Threw? then Threw
                      else if Advance(OrderByOrder(old(db.rotationEntries))).NotAdvanced? then Returned(None)
                      else Announce(e.rotation, e.store, db.config, guildId, p, nights))
    ensures db.handledEvents == old(db.handledEvents) && db.config == old(db.config)
  {
    if !Tracks(db.trackedEvents, eventId) {
      return Returned(None);
    }
    var key :| key in db.trackedEvents && db.trackedEvents[key] == eventId;
    ghost var records := db.rotationEntries;
    ghost var store := db.trackedEvents;
    var rotation := new RotationList(db);
    var advanced := rotation.AdvanceRotation();
    if advanced.Threw? {
      rotation.Dispose();
      return Threw;
    }
    if !advanced.value {
      rotation.Dispose();
      return Returned(None);
    }
    db.trackedEvents := db.trackedEvents - {key};
    var created := CreateEventForNextRotation(rotation, p, nights, newKey);
    if created.Threw? {
      rotation.Dispose();
      return Threw;
    }
    r := PostRotationMessage(db, guildId, rotation.items, p, nights);
    rotation.Dispose();
  }
}
