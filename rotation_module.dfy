/**
 * The rotation commands: add (at the end or before another user), remove,
 * swap, skip and postpone. Each loads the queue, edits it, refreshes events
 * and announces through the system snapshot when the edit happened, and
 * writes the queue back in every case. Also the module's own handler for a
 * completed platform event.
 *
 * A new user entry has kind `User` (the first value of the kind
 * enumeration), no skip flag, no link and order 0; a new postponement has no
 * user id. Record keys for new entries and events are parameters.
 */
module RotationModule {
  import opened Common
  import opened Rotation
  import opened Recurrence
  import opened Storage
  import opened Announcement
  import RotationSystem

  /** The module's list: the loaded entries and the store they are written back to. */
  class RotationList {
    const entries: EntryList
    const db: Database

    /** Loads the stored records sorted by `order`. */
    constructor (db: Database)
      ensures this.db == db && fresh(entries)
      ensures entries.items == OrderByOrder(db.rotationEntries)
    {
      this.db := db;
      entries := new EntryList(OrderByOrder(db.rotationEntries));
    }

    /** Deletes every stored record and inserts the entries with `order` set to their index. */
    method Dispose()
      modifies db
      ensures db.rotationEntries == Renumbered(entries.items)
      ensures db.trackedEvents == old(db.trackedEvents) && db.handledEvents == old(db.handledEvents)
      ensures db.config == old(db.config)
    {
      db.rotationEntries := [];
      for i := 0 to |entries.items|
        invariant db.rotationEntries == Renumbered(entries.items[..i])
        invariant db.trackedEvents == old(db.trackedEvents) && db.handledEvents == old(db.handledEvents)
        invariant db.config == old(db.config)
      {
        db.rotationEntries := db.rotationEntries + [entries.items[i].(order := i)];
      }
      assert entries.items[..|entries.items|] == entries.items;
    }
  }

  // ---------------------------------------------------------------------
  // Finding users

  /** `FindIndex(x => x.DiscordUserId == uid)`: the first entry of the user, or -1. */
  function IndexOfUser(s: seq<RotationEntry>, uid: u64): (i: int)
    ensures -1 <= i < |s|
    ensures i >= 0 ==> s[i].userId == Some(uid) && forall j :: 0 <= j < i ==> s[j].userId != Some(uid)
    ensures i == -1 <==> forall j :: 0 <= j < |s| ==> s[j].userId != Some(uid)
  {
    if s == [] then -1
    else if s[0].userId == Some(uid) then 0
    else
      var i := IndexOfUser(s[1..], uid);
      if i == -1 then -1 else i + 1
  }

  /** The last entry of the user, or -1. */
  function LastIndexOfUser(s: seq<RotationEntry>, uid: u64): (i: int)
    ensures -1 <= i < |s|
    ensures i >= 0 ==> s[i].userId == Some(uid) && forall j :: i < j < |s| ==> s[j].userId != Some(uid)
    ensures i == -1 <==> forall j :: 0 <= j < |s| ==> s[j].userId != Some(uid)
  {
    if s == [] then -1
    else if s[|s| - 1].userId == Some(uid) then |s| - 1
    else LastIndexOfUser(s[..|s| - 1], uid)
  }

  /** Every user appears at most once. */
  ghost predicate UniqueUsers(s: seq<RotationEntry>)
  {
    forall i, j :: 0 <= i < j < |s| && s[i].userId.Some? ==> s[i].userId != s[j].userId
  }

  lemma UniqueFirstIsLast(s: seq<RotationEntry>, uid: u64)
    requires UniqueUsers(s)
    ensures IndexOfUser(s, uid) == LastIndexOfUser(s, uid)
  {
  }

  /** The linear scan behind `FindIndex`, `Any` and `FirstOrDefault`. */
  method FindIndex(s: seq<RotationEntry>, uid: u64) returns (i: int)
    ensures i == IndexOfUser(s, uid)
  {
    i := 0;
    while i < |s|
      invariant 0 <= i <= |s|
      invariant forall j :: 0 <= j < i ==> s[j].userId != Some(uid)
    {
      if s[i].userId == Some(uid) {
        return i;
      }
      i := i + 1;
    }
    return -1;
  }

  // ---------------------------------------------------------------------
  // Edits

  function NewUserEntry(key: Guid, uid: u64): RotationEntry
  {
    RotationEntry(key, User, Some(uid), false, None, 0)
  }

  function NewPostponement(key: Guid): RotationEntry
  {
    RotationEntry(key, Postponement, None, false, None, 0)
  }

  datatype AddOutcome = AlreadyPresent | BeforeMissing | AddedAt(index: nat)

  /**
   * `Add`: a user already present is rejected; without `before` the user is
   * appended; with it the user goes immediately in front of the first entry
   * of `before`, which must be present. A rejection leaves the list alone.
   */
  function AddSpec(s: seq<RotationEntry>, uid: u64, before: Option<u64>, key: Guid)
    : (r: (AddOutcome, seq<RotationEntry>))
    ensures r.0 == AlreadyPresent <==> IndexOfUser(s, uid) >= 0
    ensures r.0 == BeforeMissing <==> IndexOfUser(s, uid) < 0 && before.Some? && IndexOfUser(s, before.value) < 0
    ensures !r.0.AddedAt? ==> r.1 == s
    ensures r.0.AddedAt? ==>
              |r.1| == |s| + 1 && r.0.index < |r.1| && r.1[r.0.index] == NewUserEntry(key, uid) &&
              r.1[..r.0.index] == s[..r.0.index] && r.1[r.0.index + 1..] == s[r.0.index..]
    ensures r.0.AddedAt? && before.None? ==> r.0.index == |s|
    ensures r.0.AddedAt? && before.Some? ==> r.0.index == IndexOfUser(s, before.value)
  {
    if IndexOfUser(s, uid) >= 0 then (AlreadyPresent, s)
    else if before.None? then (AddedAt(|s|), s + [NewUserEntry(key, uid)])
    else
      var i := IndexOfUser(s, before.value);
      if i < 0 then (BeforeMissing, s) else (AddedAt(i), s[..i] + [NewUserEntry(key, uid)] + s[i..])
  }

  /**
   * `Remove`: the first entry of the user is looked up and then removed by
   * value, which takes out exactly that entry.
   */
  function RemoveSpec(s: seq<RotationEntry>, uid: u64): (r: (bool, seq<RotationEntry>))
    ensures r.0 <==> IndexOfUser(s, uid) >= 0
    ensures !r.0 ==> r.1 == s
    ensures r.0 ==> r.1 == s[..IndexOfUser(s, uid)] + s[IndexOfUser(s, uid) + 1..]
  {
    var i := IndexOfUser(s, uid);
    if i < 0 then (false, s)
    else
      RemoveFirstAt(s, i);
      (true, RemoveFirst(s, s[i]))
  }

  datatype SwapOutcome = SameUser | FirstMissing | SecondMissing | Swapped(firstPos: nat, secondPos: nat)

  /**
   * `Swap`: equal users are rejected, then a missing one; otherwise the last
   * entries of the two users trade places.
   */
  function SwapSpec(s: seq<RotationEntry>, first: u64, second: u64): (r: (SwapOutcome, seq<RotationEntry>))
    ensures r.0 == SameUser <==> first == second
    ensures r.0 == FirstMissing <==> first != second && LastIndexOfUser(s, first) < 0
    ensures r.0 == SecondMissing <==>
              first != second && LastIndexOfUser(s, first) >= 0 && LastIndexOfUser(s, second) < 0
    ensures !r.0.Swapped? ==> r.1 == s
    ensures r.0.Swapped? ==>
              r.0.firstPos == LastIndexOfUser(s, first) && r.0.secondPos == LastIndexOfUser(s, second) &&
              r.0.firstPos != r.0.secondPos && |r.1| == |s| &&
              r.1[r.0.firstPos] == s[r.0.secondPos] && r.1[r.0.secondPos] == s[r.0.firstPos] &&
              (forall k :: 0 <= k < |s| && k != r.0.firstPos && k != r.0.secondPos ==> r.1[k] == s[k]) &&
              multiset(r.1) == multiset(s)
  {
    if first == second then (SameUser, s)
    else
      var a := LastIndexOfUser(s, first);
      var b := LastIndexOfUser(s, second);
      if a < 0 then (FirstMissing, s)
      else if b < 0 then (SecondMissing, s)
      else (Swapped(a, b), s[b := s[a]][a := s[b]])
  }

  /** `Skip`: the first entry of the user gets the skip flag; nothing else changes. */
  function SkipSpec(s: seq<RotationEntry>, uid: u64): (r: (bool, seq<RotationEntry>))
    ensures r.0 <==> IndexOfUser(s, uid) >= 0
    ensures !r.0 ==> r.1 == s
    ensures r.0 ==> var i := IndexOfUser(s, uid);
                    |r.1| == |s| && r.1[i] == s[i].(skip := true) &&
                    forall k :: 0 <= k < |s| && k != i ==> r.1[k] == s[k]
  {
    var i := IndexOfUser(s, uid);
    if i < 0 then (false, s) else (true, s[i := s[i].(skip := true)])
  }

  /** `Postpone`: nothing when the head is already a postponement; otherwise one goes in front. */
  function PostponeSpec(s: seq<RotationEntry>, key: Guid): (r: (bool, seq<RotationEntry>))
    ensures !r.0 <==> s != [] && s[0].kind == Postponement
    ensures !r.0 ==> r.1 == s
    ensures r.0 ==> r.1 == [NewPostponement(key)] + s
  {
    if s != [] && s[0].kind == Postponement then (false, s) else (true, [NewPostponement(key)] + s)
  }

  // ---------------------------------------------------------------------
  // Properties of the edits

  /** Removing a user just added restores the list, wherever the user was added. */
  lemma AddThenRemove(s: seq<RotationEntry>, uid: u64, before: Option<u64>, key: Guid)
    requires AddSpec(s, uid, before, key).0.AddedAt?
    ensures RemoveSpec(AddSpec(s, uid, before, key).1, uid) == (true, s)
  {
    var (outcome, t) := AddSpec(s, uid, before, key);
    var i := outcome.index;
    assert IndexOfUser(t, uid) == i by {
      assert forall j :: 0 <= j < i ==> t[j] == s[j];
    }
    assert t[..i] + t[i + 1..] == s[..i] + s[i..];
    assert s[..i] + s[i..] == s;
  }

  /** Adding keeps every user at most once in the list. */
  lemma AddKeepsUnique(s: seq<RotationEntry>, uid: u64, before: Option<u64>, key: Guid)
    requires UniqueUsers(s)
    ensures UniqueUsers(AddSpec(s, uid, before, key).1)
  {
    var (outcome, t) := AddSpec(s, uid, before, key);
    if outcome.AddedAt? {
      var i := outcome.index;
      forall a, b | 0 <= a < b < |t| && t[a].userId.Some?
        ensures t[a].userId != t[b].userId
      {
        var sa := if a < i then a else a - 1;
        var sb := if b < i then b else b - 1;
        if a != i && b != i {
          assert t[a] == s[sa] && t[b] == s[sb];
        } else if a == i {
          assert t[b] == s[sb];
        } else {
          assert t[a] == s[sa];
        }
      }
    }
  }

  /** In a list without repeated users, swapping the same two users again undoes the swap. */
  lemma SwapTwiceRestores(s: seq<RotationEntry>, first: u64, second: u64)
    requires UniqueUsers(s)
    requires SwapSpec(s, first, second).0.Swapped?
    ensures var (o, t) := SwapSpec(s, first, second);
            SwapSpec(t, first, second) == (Swapped(o.secondPos, o.firstPos), s)
  {
    var (o, t) := SwapSpec(s, first, second);
    var a, b := o.firstPos, o.secondPos;
    assert LastIndexOfUser(t, first) == b by {
      assert t[b].userId == Some(first);
      forall j | b < j < |t| ensures t[j].userId != Some(first) {
        if j == a {
          assert t[j] == s[b];
        } else {
          assert t[j] == s[j];
        }
      }
    }
    assert LastIndexOfUser(t, second) == a by {
      assert t[a].userId == Some(second);
      forall j | a < j < |t| ensures t[j].userId != Some(second) {
        if j == b {
          assert t[j] == s[a];
        } else {
          assert t[j] == s[j];
        }
      }
    }
    var u := t[a := t[b]][b := t[a]];
    assert u == s;
  }

  /** A second postpone in a row adds nothing. */
  lemma PostponeIdempotent(s: seq<RotationEntry>, key: Guid, key2: Guid)
    ensures var t := PostponeSpec(s, key).1;
            PostponeSpec(t, key2) == (false, t)
  {
  }

  // ---------------------------------------------------------------------
  // Commands

  /**
   * What a command leaves once its edit has happened: the system snapshot's
   * refresh, then the announcement unless the refresh threw.
   */
  function AfterEdit(s: seq<RotationEntry>, store: map<Guid, u64>, config: Config, guildId: u64,
                     p: Platform, nights: seq<Instant>, eventKey: Guid): (e: Effect<Option<Message>>)
    ensures var f := RotationSystem.RefreshSpec(s, store, p, nights, eventKey);
            e.rotation == f.rotation && e.store == f.store && (f.result.Threw? ==> e.result.Threw?)
  {
    var f := RotationSystem.RefreshSpec(s, store, p, nights, eventKey);
    if f.result.Threw? then Effect(Threw, f.rotation, f.store)
    else Effect(Announce(f.rotation, f.store, config, guildId, p, nights), f.rotation, f.store)
  }

  /** `RefreshEvents` then `PostRotationMessage` on the loaded list. */
  method RefreshAndPost(rotation: RotationList, guildId: u64, p: Platform, nights: seq<Instant>, eventKey: Guid)
    returns (r: Outcome<Option<Message>>)
    modifies rotation.entries, rotation.db
    ensures Effect(r, rotation.entries.items, rotation.db.trackedEvents) ==
            AfterEdit(old(rotation.entries.items), old(rotation.db.trackedEvents), rotation.db.config,
                      guildId, p, nights, eventKey)
    ensures rotation.db.rotationEntries == old(rotation.db.rotationEntries)
    ensures rotation.db.handledEvents == old(rotation.db.handledEvents) && rotation.db.config == old(rotation.db.config)
  {
    var refreshed := RotationSystem.RefreshEvents(rotation.db, rotation.entries, p, nights, eventKey);
    if refreshed.Threw? {
      return Threw;
    }
    r := PostRotationMessage(rotation.db, guildId, rotation.entries.items, p, nights);
  }

  /** The `add` command. */
  method Add(db: Database, guildId: u64, user: u64, before: Option<u64>, entryKey: Guid,
             p: Platform, nights: seq<Instant>, eventKey: Guid)
    returns (outcome: AddOutcome, r: Outcome<Option<Message>>)
    modifies db
    ensures var s := OrderByOrder(old(db.rotationEntries));
            var (o, t) := AddSpec(s, user, before, entryKey);
            outcome == o &&
            (!o.AddedAt? ==> r == Returned(None) && db.rotationEntries == Renumbered(s) &&
                             db.trackedEvents == old(db.trackedEvents)) &&
            (o.AddedAt? ==> var e := AfterEdit(t, old(db.trackedEvents), old(db.config), guildId, p, nights, eventKey);
                            r == e.result && db.rotationEntries == Renumbered(e.rotation) && db.trackedEvents == e.store)
    ensures db.handledEvents == old(db.handledEvents) && db.config == old(db.config)
  {
    var rotation := new RotationList(db);
    var present := FindIndex(rotation.entries.items, user);
    if present >= 0 {
      rotation.Dispose();
      return AlreadyPresent, Returned(None);
    }
    if before.None? {
      rotation.entries.items := rotation.entries.items + [NewUserEntry(entryKey, user)];
      outcome := AddedAt(|rotation.entries.items| - 1);
    } else {
      var index := FindIndex(rotation.entries.items, before.value);
      if index < 0 {
        rotation.Dispose();
        return BeforeMissing, Returned(None);
      }
      rotation.entries.items := rotation.entries.items[..index] + [NewUserEntry(entryKey, user)] + rotation.entries.items[index..];
      outcome := AddedAt(index);
    }
    r := RefreshAndPost(rotation, guildId, p, nights, eventKey);
    rotation.Dispose();
  }

  /** The `remove` command. */
  method Remove(db: Database, guildId: u64, user: u64, p: Platform, nights: seq<Instant>, eventKey: Guid)
    returns (removed: bool, r: Outcome<Option<Message>>)
    modifies db
    ensures var s := OrderByOrder(old(db.rotationEntries));
            var (o, t) := RemoveSpec(s, user);
            removed == o &&
            (!o ==> r == Returned(None) && db.rotationEntries == Renumbered(s) &&
                    db.trackedEvents == old(db.trackedEvents)) &&
            (o ==> var e := AfterEdit(t, old(db.trackedEvents), old(db.config), guildId, p, nights, eventKey);
                   r == e.result && db.rotationEntries == Renumbered(e.rotation) && db.trackedEvents == e.store)
    ensures db.handledEvents == old(db.handledEvents) && db.config == old(db.config)
  {
    var rotation := new RotationList(db);
    var index := FindIndex(rotation.entries.items, user);
    if index < 0 {
      rotation.Dispose();
      return false, Returned(None);
    }
    var rot := rotation.entries.items[index];
    rotation.entries.items := RemoveFirst(rotation.entries.items, rot);
    r := RefreshAndPost(rotation, guildId, p, nights, eventKey);
    rotation.Dispose();
    return true, r;
  }

  /**
   * The scan of `Swap`: the last position of each user, an entry of the
   * first user never counting for the second.
   */
  method LastPositions(s: seq<RotationEntry>, first: u64, second: u64) returns (firstPos: int, secondPos: int)
    ensures firstPos == LastIndexOfUser(s, first)
    ensures first != second ==> secondPos == LastIndexOfUser(s, second)
  {
    firstPos, secondPos := -1, -1;
    for i := 0 to |s|
      invariant firstPos == LastIndexOfUser(s[..i], first)
      invariant first != second ==> secondPos == LastIndexOfUser(s[..i], second)
    {
      assert s[..i + 1][..i] == s[..i];
      if s[i].userId == Some(first) {
        firstPos := i;
      } else if s[i].userId == Some(second) {
        secondPos := i;
      }
    }
    assert s[..|s|] == s;
  }

  /** The `swap` command. */
  method Swap(db: Database, guildId: u64, first: u64, second: u64, p: Platform, nights: seq<Instant>, eventKey: Guid)
    returns (outcome: SwapOutcome, r: Outcome<Option<Message>>)
    modifies db
    ensures first == second ==> outcome == SameUser && r == Returned(None) && unchanged(db)
    ensures first != second ==>
              var s := OrderByOrder(old(db.rotationEntries));
              var (o, t) := SwapSpec(s, first, second);
              outcome == o &&
              (!o.Swapped? ==> r == Returned(None) && db.rotationEntries == Renumbered(s) &&
                               db.trackedEvents == old(db.trackedEvents)) &&
              (o.Swapped? ==> var e := AfterEdit(t, old(db.trackedEvents), old(db.config), guildId, p, nights, eventKey);
                              r == e.result && db.rotationEntries == Renumbered(e.rotation) && db.trackedEvents == e.store)
    ensures db.handledEvents == old(db.handledEvents) && db.config == old(db.config)
  {
    if first == second {
      return SameUser, Returned(None);
    }
    var rotation := new RotationList(db);
    var firstPos, secondPos := LastPositions(rotation.entries.items, first, second);
    if firstPos < 0 {
      rotation.Dispose();
      return FirstMissing, Returned(None);
    }
    if secondPos < 0 {
      rotation.Dispose();
      return SecondMissing, Returned(None);
    }
    var items := rotation.entries.items;
    rotation.entries.items := items[secondPos := items[firstPos]][firstPos := items[secondPos]];
    outcome := Swapped(firstPos, secondPos);
    r := RefreshAndPost(rotation, guildId, p, nights, eventKey);
    rotation.Dispose();
  }

  /** The `skip` command; without a user it skips the caller. */
  method Skip(db: Database, guildId: u64, user: Option<u64>, caller: u64, p: Platform, nights: seq<Instant>,
              eventKey: Guid)
    returns (skipped: bool, r: Outcome<Option<Message>>)
    modifies db
    ensures var s := OrderByOrder(old(db.rotationEntries));
            var target := if user.Some? then user.value else caller;
            var (o, t) := SkipSpec(s, target);
            skipped == o &&
            (!o ==> r == Returned(None) && db.rotationEntries == Renumbered(s) &&
                    db.trackedEvents == old(db.trackedEvents)) &&
            (o ==> var e := AfterEdit(t, old(db.trackedEvents), old(db.config), guildId, p, nights, eventKey);
                   r == e.result && db.rotationEntries == Renumbered(e.rotation) && db.trackedEvents == e.store)
    ensures db.handledEvents == old(db.handledEvents) && db.config == old(db.config)
  {
    var rotation := new RotationList(db);
    var target := if user.Some? then user.value else caller;
    var pos := FindIndex(rotation.entries.items, target);
    if pos < 0 {
      rotation.Dispose();
      return false, Returned(None);
    }
    rotation.entries.items := rotation.entries.items[pos := rotation.entries.items[pos].(skip := true)];
    r := RefreshAndPost(rotation, guildId, p, nights, eventKey);
    rotation.Dispose();
    return true, r;
  }

  /** The `postpone` command. */
  method Postpone(db: Database, guildId: u64, entryKey: Guid, p: Platform, nights: seq<Instant>, eventKey: Guid)
    returns (postponed: bool, r: Outcome<Option<Message>>)
    modifies db
    ensures var s := OrderByOrder(old(db.rotationEntries));
            var (o, t) := PostponeSpec(s, entryKey);
            postponed == o &&
            (!o ==> r == Returned(None) && db.rotationEntries == Renumbered(s) &&
                    db.trackedEvents == old(db.trackedEvents)) &&
            (o ==> var e := AfterEdit(t, old(db.trackedEvents), old(db.config), guildId, p, nights, eventKey);
                   r == e.result && db.rotationEntries == Renumbered(e.rotation) && db.trackedEvents == e.store)
    ensures db.handledEvents == old(db.handledEvents) && db.config == old(db.config)
  {
    var rotation := new RotationList(db);
    if |rotation.entries.items| > 0 && rotation.entries.items[0].kind == Postponement {
      rotation.Dispose();
      return false, Returned(None);
    }
    rotation.entries.items := [NewPostponement(entryKey)] + rotation.entries.items;
    r := RefreshAndPost(rotation, guildId, p, nights, eventKey);
    rotation.Dispose();
    return true, r;
  }

  // ---------------------------------------------------------------------
  // Completed events

  /**
   * What the module's completed-event handler leaves: the queue after the
   * turn and the store with the next event's record added. The completed
   * event's record is kept, and the new record is not linked to the head.
   */
  function CompletedSpec(records: seq<RotationEntry>, store: map<Guid, u64>, p: Platform,
                         nights: seq<Instant>, newKey: Guid): (e: Effect<()>)
    ensures store.Keys <= e.store.Keys
    ensures Advance(OrderByOrder(records)).Advanced? ==> e.rotation == Advance(OrderByOrder(records)).rotation
  {
    var s := OrderByOrder(records);
    match Advance(s)
    case NotAdvanced => Effect(Returned(()), s, store)
    case Faulted => Effect(Threw, [], store)
    case Advanced(a) =>
      var c := RotationSystem.CreateSpec(a, store, p, nights, newKey);
      Effect(if c.result.Threw? then Threw else Returned(()), a, c.store)
  }

  /**
   * `Discord_GuildScheduledEventCompleted` of the module: nothing unless a
   * tracked event points at the completed one; otherwise a turn, the next
   * event, the announcement, and the queue written back.
   */
  method GuildScheduledEventCompleted(db: Database, guildId: u64, eventId: u64, p: Platform,
                                      nights: seq<Instant>, newKey: Guid)
    returns (r: Outcome<Option<Message>>)
    modifies db
    ensures !Tracks(old(db.trackedEvents), eventId) ==> r == Returned(None) && unchanged(db)
    ensures Tracks(old(db.trackedEvents), eventId) ==>
              var e := CompletedSpec(old(db.rotationEntries), old(db.trackedEvents), p, nights, newKey);
              db.rotationEntries == Renumbered(e.rotation) && db.trackedEvents == e.store &&
              r == (if e.result.Threw? then Threw
                    else if Advance(OrderByOrder(old(db.rotationEntries))).NotAdvanced? then Returned(None)
                    else Announce(e.rotation, e.store, db.config, guildId, p, nights))
    ensures db.handledEvents == old(db.handledEvents) && db.config == old(db.config)
  {
    if !Tracks(db.trackedEvents, eventId) {
      return Returned(None);
    }
    var rotation := new RotationList(db);
    var advanced := RotationSystem.AdvanceRotation(rotation.entries);
    if advanced.Threw? {
      rotation.Dispose();
      return Threw;
    }
    if !advanced.value {
      rotation.Dispose();
      return Returned(None);
    }
    var created := RotationSystem.CreateEventForNextRotation(db, rotation.entries, p, nights, newKey);
    if created.Threw? {
      rotation.Dispose();
      return Threw;
    }
    r := PostRotationMessage(db, guildId, rotation.entries.items, p, nights);
    rotation.Dispose();
  }
}
