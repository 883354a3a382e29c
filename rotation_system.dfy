/**
 * The system snapshot of the rotation: the same skip and advance steps as
 * free routines over a list the caller owns, and a refresh in which the
 * event creator only inserts the record and the refresh links the head.
 * Failed platform deletions are swallowed without a trace.
 */
module RotationSystem {
  import opened Common
  import opened Rotation
  import opened Recurrence
  import opened Storage
  import RotationService

  /** `AdvancePastSkippedUsers`; reading the head of an empty list throws. */
  method AdvancePastSkippedUsers(rotation: EntryList) returns (r: Outcome<()>)
    modifies rotation
    ensures old(rotation.items) == [] ==> r == Threw && rotation.items == old(rotation.items)
    ensures old(rotation.items) != [] ==> r == Returned(()) && rotation.items == SkipPast(old(rotation.items))
  {
    if |rotation.items| == 0 {
      return Threw;
    }
    ghost var s := rotation.items;
    ghost var k := LeadingSkipped(s);
    ghost var j := 0;
    while rotation.items[0].skip
      invariant 0 <= j <= k
      invariant rotation.items == s[j..] + Unskipped(s[..j])
      decreases k - j
    {
      assert j < k;
      var move := rotation.items[0];
      rotation.items := rotation.items[1..];
      rotation.items := rotation.items + [move.(skip := false)];
      assert s[..j + 1] == s[..j] + [s[j]];
      UnskippedAppend(s[..j], [s[j]]);
      j := j + 1;
    }
    assert j == k;
    return Returned(());
  }

  /** `AdvanceRotation`: false exactly for an empty list. */
  method AdvanceRotation(rotation: EntryList) returns (r: Outcome<bool>)
    modifies rotation
    ensures Advance(old(rotation.items)) == NotAdvanced ==> r == Returned(false) && rotation.items == old(rotation.items)
    ensures Advance(old(rotation.items)).Advanced? ==>
              r == Returned(true) && rotation.items == Advance(old(rotation.items)).rotation
    ensures Advance(old(rotation.items)) == Faulted ==> r == Threw && rotation.items == []
  {
    if |rotation.items| == 0 {
      return Returned(false);
    }
    ghost var s := rotation.items;
    var first := AdvancePastSkippedUsers(rotation);
    SkipPastShape(s);
    if rotation.items[0].kind == User {
      rotation.items := rotation.items + [rotation.items[0]];
    }
    rotation.items := rotation.items[1..];
    assert rotation.items == AfterHead(SkipPast(s));
    var second := AdvancePastSkippedUsers(rotation);
    if second.Threw? {
      return Threw;
    }
    return Returned(true);
  }

  // ---------------------------------------------------------------------
  // Specifications

  /**
   * `CreateEventForNextRotation`: nothing for a postponement at the head;
   * for a user, exactly one tracked-event record is inserted, and the queue
   * is left as it is.
   */
  function CreateSpec(s: seq<RotationEntry>, store: map<Guid, u64>, p: Platform,
                      nights: seq<Instant>, newKey: Guid): (e: Effect<Option<TrackedEvent>>)
    ensures e.rotation == s
    ensures e.result.Returned? && e.result.value.None? ==> s != [] && s[0].kind.Postponement?
    ensures s != [] && s[0].kind == Postponement ==> e.result == Returned(None) && e.store == store
    ensures e.result.Threw? <==>
              s == [] ||
              (s[0].kind == User && (s[0].userId.None? || p.userLookupFails(s[0].userId.value) ||
                                     nights == [] || p.createdEventId.None? || newKey in store))
    ensures e.result.Threw? ==> e.store == store
    ensures e.result.Returned? && e.result.value.Some? ==>
              p.createdEventId.Some? && e.result.value.value == TrackedEvent(newKey, p.createdEventId.value) &&
              newKey !in store && e.store == store[newKey := p.createdEventId.value]
  {
    if s == [] then Effect(Threw, s, store)
    else if s[0].kind != User then Effect(Returned(None), s, store)
    else if s[0].userId.None? || p.userLookupFails(s[0].userId.value) || nights == [] ||
            p.createdEventId.None? || newKey in store
    then Effect(Threw, s, store)
    else Effect(Returned(Some(TrackedEvent(newKey, p.createdEventId.value))), s,
                store[newKey := p.createdEventId.value])
  }

  /** `RefreshEvents`: as in the service snapshot, with the link made here. */
  function RefreshSpec(s: seq<RotationEntry>, store: map<Guid, u64>, p: Platform,
                       nights: seq<Instant>, newKey: Guid): (e: Effect<()>)
    ensures |e.rotation| == |s|
    ensures s == [] ==> e == Effect(Returned(()), s, store)
  {
    SkipPastShape(s);
    if s == [] then Effect(Returned(()), s, store)
    else
      var t := SkipPast(s);
      if t[0].kind == User && t[0].trackedEventKey.None? then
        var c := CreateSpec(t, store, p, nights, newKey);
        if c.result.Threw? then Effect(Threw, t, c.store)
        else
          var linked := if c.result.value.Some?
                        then t[0 := t[0].(trackedEventKey := Some(c.result.value.value.key))]
                        else t;
          var (rotation, store') := Cleanup(linked, c.store, p.deleteFails);
          Effect(Returned(()), rotation, store')
      else
        var (rotation, store') := Cleanup(t, store, p.deleteFails);
        Effect(Returned(()), rotation, store')
  }

  /**
   * The two snapshots' refreshes throw under the same conditions and, when
   * they return, leave the same queue and store; when they throw, the store
   * is the same and only the service snapshot may have linked the head.
   */
  lemma SnapshotsAgree(s: seq<RotationEntry>, store: map<Guid, u64>, p: Platform,
                       nights: seq<Instant>, newKey: Guid)
    ensures var sys := RefreshSpec(s, store, p, nights, newKey);
            var svc := RotationService.RefreshSpec(s, store, p, nights, newKey);
            sys.result == svc.result && sys.store == svc.store &&
            (sys.result.Returned? ==> sys.rotation == svc.rotation) &&
            (sys.result.Threw? ==> s != [] && sys.rotation == SkipPast(s) && sys.rotation[1..] == svc.rotation[1..])
  {
    SkipPastShape(s);
    if s != [] {
      var t := SkipPast(s);
      if t[0].kind == User && t[0].trackedEventKey.None? {
        var sys := CreateSpec(t, store, p, nights, newKey);
        var svc := RotationService.CreateSpec(t, store, p, nights, newKey);
        assert sys.result == svc.result && sys.store == svc.store;
        if sys.result.Returned? {
          assert sys.result.value.Some? && sys.result.value.value.key == newKey;
          var linked := t[0 := t[0].(trackedEventKey := Some(newKey))];
          assert svc.rotation == linked;
          assert svc.rotation[0 := svc.rotation[0].(trackedEventKey := Some(newKey))] == linked;
        }
      }
    }
  }

  // ---------------------------------------------------------------------
  // Operations

  /** `CreateEventForNextRotation`: inserts the record; the list is not touched. */
  method CreateEventForNextRotation(db: Database, rotation: EntryList, p: Platform, nights: seq<Instant>, newKey: Guid)
    returns (r: Outcome<Option<TrackedEvent>>)
    modifies db
    ensures Effect(r, rotation.items, db.trackedEvents) ==
            CreateSpec(rotation.items, old(db.trackedEvents), p, nights, newKey)
    ensures db.rotationEntries == old(db.rotationEntries)
    ensures db.handledEvents == old(db.handledEvents) && db.config == old(db.config)
  {
    if |rotation.items| == 0 {
      return Threw;
    }
    var next := rotation.items[0];
    if next.kind != User {
      return Returned(None);
    }
    if next.userId.None? || p.userLookupFails(next.userId.value) || |nights| == 0 || p.createdEventId.None? {
      return Threw;
    }
    var newEvent := TrackedEvent(newKey, p.createdEventId.value);
    if newEvent.key in db.trackedEvents {
      return Threw;
    }
    db.trackedEvents := db.trackedEvents[newEvent.key := newEvent.discordEventId];
    return Returned(Some(newEvent));
  }

  /** `RefreshEvents`. */
  method RefreshEvents(db: Database, rotation: EntryList, p: Platform, nights: seq<Instant>, newKey: Guid)
    returns (r: Outcome<()>)
    modifies db, rotation
    ensures Effect(r, rotation.items, db.trackedEvents) ==
            RefreshSpec(old(rotation.items), old(db.trackedEvents), p, nights, newKey)
    ensures db.rotationEntries == old(db.rotationEntries)
    ensures db.handledEvents == old(db.handledEvents) && db.config == old(db.config)
  {
    if |rotation.items| == 0 {
      return Returned(());
    }
    var skipped := AdvancePastSkippedUsers(rotation);
    var next := rotation.items[0];
    if next.kind == User && next.trackedEventKey.None? {
      var nextEvent := CreateEventForNextRotation(db, rotation, p, nights, newKey);
      if nextEvent.Threw? {
        return Threw;
      }
      if nextEvent.value.Some? {
        rotation.items := rotation.items[0 := rotation.items[0].(trackedEventKey := Some(nextEvent.value.value.key))];
      }
    }
    ClearLinksBehindHead(db, rotation, p.deleteFails);
    return Returned(());
  }

  /** The loop of `RefreshEvents` over positions 1 onwards; deletion failures are swallowed. */
  method ClearLinksBehindHead(db: Database, rotation: EntryList, deleteFails: u64 -> bool)
    modifies db, rotation
    ensures (rotation.items, db.trackedEvents) == Cleanup(old(rotation.items), old(db.trackedEvents), deleteFails)
    ensures db.rotationEntries == old(db.rotationEntries)
    ensures db.handledEvents == old(db.handledEvents) && db.config == old(db.config)
  {
    ghost var s := rotation.items;
    ghost var store := db.trackedEvents;
    if |rotation.items| == 0 {
      assert ClearedLinks(s) == s;
      assert store - StaleKeys(s, 0, store, deleteFails) == store;
      return;
    }
    var i := 1;
    while i < |rotation.items|
      invariant 1 <= i <= |s| && |rotation.items| == |s|
      invariant rotation.items == ClearedLinks(s)[..i] + s[i..]
      invariant db.trackedEvents == store - StaleKeys(s, i, store, deleteFails)
      invariant db.rotationEntries == old(db.rotationEntries)
      invariant db.handledEvents == old(db.handledEvents) && db.config == old(db.config)
      decreases |s| - i
    {
      CleanupStep(s, i, store, deleteFails, rotation.items, db.trackedEvents);
      var rot := rotation.items[i];
      if rot.trackedEventKey.Some? {
        var key := rot.trackedEventKey.value;
        if key in db.trackedEvents {
          var discordEventId := db.trackedEvents[key];
          if !deleteFails(discordEventId) {
            db.trackedEvents := db.trackedEvents - {key};
          }
        }
        rotation.items := rotation.items[i := rot.(trackedEventKey := None)];
      }
      i := i + 1;
    }
    assert ClearedLinks(s)[..|s|] == ClearedLinks(s) && s[|s|..] == [];
    assert rotation.items == ClearedLinks(s);
  }
}
