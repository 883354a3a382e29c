/**
 * The turn-rotation queue shared by both snapshots of the rotation logic:
 * the entry records, the list object the services edit in place, and the
 * pure specification of each queue operation with its properties.
 */
module Rotation {
  import opened Common

  datatype EntryKind = User | Postponement

  /**
   * One queue entry. `order` is the persisted position; `trackedEventKey`
   * links the entry to a tracked platform event.
   */
  datatype RotationEntry = RotationEntry(
    key: Guid,
    kind: EntryKind,
    userId: Option<u64>,
    skip: bool,
    trackedEventKey: Option<Guid>,
    order: int)

  /** A stored record tying a local key to a platform event id. */
  datatype TrackedEvent = TrackedEvent(key: Guid, discordEventId: u64)

  /** A `List<RotationEntry>` the services receive and edit in place. */
  class EntryList {
    var items: seq<RotationEntry>

    constructor (items: seq<RotationEntry>)
      ensures this.items == items
    {
      this.items := items;
    }
  }

  // ---------------------------------------------------------------------
  // Skipping past skipped entries

  /** Length of the run of skipped entries at the front. */
  function LeadingSkipped(s: seq<RotationEntry>): (k: nat)
    ensures k <= |s|
    ensures forall i :: 0 <= i < k ==> s[i].skip
    ensures k < |s| ==> !s[k].skip
  {
    if s == [] || !s[0].skip then 0 else 1 + LeadingSkipped(s[1..])
  }

  /** The same entries with their skip flags cleared. */
  function Unskipped(s: seq<RotationEntry>): (r: seq<RotationEntry>)
    ensures |r| == |s|
    ensures forall i :: 0 <= i < |s| ==> r[i] == s[i].(skip := false)
  {
    seq(|s|, i requires 0 <= i < |s| => s[i].(skip := false))
  }

  /**
   * The queue after skipping: the leading skipped entries move, in their
   * original order and with the flag cleared, behind the others.
   */
  function SkipPast(s: seq<RotationEntry>): seq<RotationEntry>
  {
    var k := LeadingSkipped(s);
    s[k..] + Unskipped(s[..k])
  }

  lemma SkipPastShape(s: seq<RotationEntry>)
    ensures |SkipPast(s)| == |s|
    ensures s != [] ==> !SkipPast(s)[0].skip
    ensures LeadingSkipped(s) == 0 ==> SkipPast(s) == s
  {
    var k := LeadingSkipped(s);
    if k == 0 {
      assert s[..0] == [];
      assert SkipPast(s) == s[0..] + [];
    }
  }

  /** Skipping twice is the same as skipping once. */
  lemma SkipPastIdempotent(s: seq<RotationEntry>)
    ensures SkipPast(SkipPast(s)) == SkipPast(s)
  {
    SkipPastShape(s);
    var t := SkipPast(s);
    if t != [] {
      assert LeadingSkipped(t) == 0;
    }
    SkipPastShape(t);
  }

  // ---------------------------------------------------------------------
  // Advancing the rotation

  /**
   * Outcome of `AdvanceRotation`: the list was empty, the rotation advanced
   * to a new queue, or the second skip pass indexed an empty list and threw
   * (the list is then left empty).
   */
  datatype AdvanceResult = NotAdvanced | Advanced(rotation: seq<RotationEntry>) | Faulted

  /** The queue once the head has been handled: a user cycles, a postponement is dropped. */
  function AfterHead(t: seq<RotationEntry>): seq<RotationEntry>
    requires t != []
  {
    if t[0].kind == User then t[1..] + [t[0]] else t[1..]
  }

  function Advance(s: seq<RotationEntry>): AdvanceResult
  {
    if s == [] then NotAdvanced
    else
      SkipPastShape(s);
      var u := AfterHead(SkipPast(s));
      if u == [] then Faulted else Advanced(SkipPast(u))
  }

  /**
   * Advancing fails only for the empty list (false) and for a list whose one
   * remaining entry after skipping is a postponement (the fault). Otherwise a
   * user head keeps the length and a postponement head shortens it by one,
   * and the new head is never skipped.
   */
  lemma AdvanceCases(s: seq<RotationEntry>)
    ensures Advance(s) == NotAdvanced <==> s == []
    ensures Advance(s) == Faulted <==> |s| == 1 && SkipPast(s)[0].kind == Postponement
    ensures s != [] && SkipPast(s)[0].kind == User ==>
              Advance(s).Advanced? && |Advance(s).rotation| == |s|
    ensures |s| > 1 && SkipPast(s)[0].kind == Postponement ==>
              Advance(s).Advanced? && |Advance(s).rotation| == |s| - 1
    ensures Advance(s).Advanced? ==> !Advance(s).rotation[0].skip
  {
    if s != [] {
      SkipPastShape(s);
      var u := AfterHead(SkipPast(s));
      SkipPastShape(u);
    }
  }

  /** A plain queue: only users, none of them skipped. */
  ghost predicate Plain(s: seq<RotationEntry>)
  {
    forall i :: 0 <= i < |s| ==> s[i].kind == User && !s[i].skip
  }

  /** On a plain queue an advance is a rotation by one place. */
  lemma AdvancePlain(s: seq<RotationEntry>)
    requires s != [] && Plain(s)
    ensures Advance(s) == Advanced(s[1..] + [s[0]])
  {
    SkipPastShape(s);
    var u := s[1..] + [s[0]];
    assert !u[0].skip;
    SkipPastShape(u);
  }

  /** `n` advances in a row (stopping early if one does not advance). */
  function AdvanceTimes(s: seq<RotationEntry>, n: nat): seq<RotationEntry>
    decreases n
  {
    if n == 0 then s
    else match Advance(s)
      case Advanced(r) => AdvanceTimes(r, n - 1)
      case _ => s
  }

  /**
   * After `k` advances a plain queue is rotated by `k` places; after as many
   * advances as there are users every user is back at its original position.
   */
  lemma {:induction false} PlainCycle(s: seq<RotationEntry>, k: nat)
    requires Plain(s) && k <= |s|
    ensures AdvanceTimes(s, k) == s[k..] + s[..k]
    ensures k == |s| ==> AdvanceTimes(s, k) == s
    decreases k
  {
    if k == 0 {
      assert s[0..] + s[..0] == s;
    } else {
      AdvancePlain(s);
      var r := s[1..] + [s[0]];
      PlainRotated(s);
      PlainCycle(r, k - 1);
      RotateStep(s, k);
    }
    if k == |s| {
      assert s[k..] + s[..k] == s;
    }
  }

  lemma PlainRotated(s: seq<RotationEntry>)
    requires s != [] && Plain(s)
    ensures Plain(s[1..] + [s[0]])
  {
    var r := s[1..] + [s[0]];
    forall i | 0 <= i < |r| ensures r[i].kind == User && !r[i].skip {
      if i < |s| - 1 { assert r[i] == s[i + 1]; } else { assert r[i] == s[0]; }
    }
  }

  lemma RotateStep<T>(s: seq<T>, k: nat)
    requires 1 <= k <= |s|
    ensures var r := s[1..] + [s[0]]; r[k - 1..] + r[..k - 1] == s[k..] + s[..k]
  {
    var r := s[1..] + [s[0]];
    assert r[k - 1..] == s[k..] + [s[0]];
    assert r[..k - 1] == s[1..k];
    assert s[..k] == [s[0]] + s[1..k];
  }

  lemma UnskippedAppend(a: seq<RotationEntry>, b: seq<RotationEntry>)
    ensures Unskipped(a + b) == Unskipped(a) + Unskipped(b)
  {
  }

  /** Skipping only clears flags: up to the flags, it is a rotation of the queue. */
  lemma SkipPastKeepsEntries(s: seq<RotationEntry>)
    ensures multiset(Unskipped(SkipPast(s))) == multiset(Unskipped(s))
  {
    var k := LeadingSkipped(s);
    assert s == s[..k] + s[k..];
    UnskippedAppend(s[..k], s[k..]);
    UnskippedAppend(s[k..], Unskipped(s[..k]));
    assert Unskipped(Unskipped(s[..k])) == Unskipped(s[..k]);
  }

  /**
   * No user entry is ever lost: up to skip flags, advancing past a user keeps
   * exactly the same entries, and advancing past a postponement loses exactly it.
   */
  lemma AdvanceKeepsUsers(s: seq<RotationEntry>)
    requires Advance(s).Advanced?
    ensures var h := SkipPast(s)[0];
            var before := multiset(Unskipped(s));
            var after := multiset(Unskipped(Advance(s).rotation));
            if h.kind == User then after == before
            else after + multiset{h.(skip := false)} == before
  {
    SkipPastShape(s);
    var t := SkipPast(s);
    var u := AfterHead(t);
    assert Advance(s).rotation == SkipPast(u);
    var head, rest := multiset{t[0].(skip := false)}, multiset(Unskipped(t[1..]));
    SkipPastKeepsEntries(s);
    SkipPastKeepsEntries(u);
    HeadSplit(t);
    assert multiset(Unskipped(s)) == head + rest;
    if t[0].kind == User {
      UnskippedAppend(t[1..], [t[0]]);
      assert Unskipped([t[0]]) == [t[0].(skip := false)];
      assert multiset(Unskipped(u)) == rest + head;
    } else {
      assert multiset(Unskipped(u)) == rest;
    }
  }

  lemma HeadSplit(t: seq<RotationEntry>)
    requires t != []
    ensures multiset(Unskipped(t)) == multiset{t[0].(skip := false)} + multiset(Unskipped(t[1..]))
  {
    assert t == [t[0]] + t[1..];
    UnskippedAppend([t[0]], t[1..]);
    assert Unskipped([t[0]]) == [t[0].(skip := false)];
  }

  // ---------------------------------------------------------------------
  // Event link cleanup

  /** The single-active-event invariant: only the head may hold an event link. */
  ghost predicate OnlyHeadLinked(s: seq<RotationEntry>)
  {
    forall i :: 1 <= i < |s| ==> s[i].trackedEventKey.None?
  }

  /** The queue with every link behind the head dropped. */
  function ClearedLinks(s: seq<RotationEntry>): (r: seq<RotationEntry>)
    ensures |r| == |s|
    ensures s != [] ==> r[0] == s[0]
    ensures forall i :: 1 <= i < |s| ==> r[i] == s[i].(trackedEventKey := None)
  {
    seq(|s|, i requires 0 <= i < |s| => if i == 0 then s[0] else s[i].(trackedEventKey := None))
  }

  lemma ClearedLinksEstablishes(s: seq<RotationEntry>)
    ensures OnlyHeadLinked(ClearedLinks(s))
    ensures OnlyHeadLinked(s) ==> ClearedLinks(s) == s
  {
  }

  /**
   * Keys of the tracked-event records that the cleanup pass deletes when it
   * has looked at positions 1 up to `n`: linked from such a position, present
   * in the store, and whose platform event could be deleted.
   */
  function StaleKeys(s: seq<RotationEntry>, n: int, store: map<Guid, u64>, deleteFails: u64 -> bool): set<Guid>
  {
    set i | 1 <= i < n && i < |s| && s[i].trackedEventKey.Some? && s[i].trackedEventKey.value in store
                        && !deleteFails(store[s[i].trackedEventKey.value])
          :: s[i].trackedEventKey.value
  }

  /** Looking at one more position adds at most that position's key. */
  lemma StaleKeysStep(s: seq<RotationEntry>, i: int, store: map<Guid, u64>, deleteFails: u64 -> bool)
    requires 1 <= i < |s|
    ensures var k := s[i].trackedEventKey;
            StaleKeys(s, i + 1, store, deleteFails) ==
              StaleKeys(s, i, store, deleteFails) +
              (if k.Some? && k.value in store && !deleteFails(store[k.value]) then {k.value} else {})
  {
  }

  /**
   * One position of the cleanup loop: dropping the link at `i` and deleting
   * its record when the deletion succeeds moves the loop's state from
   * positions below `i` to positions up to `i`.
   */
  lemma CleanupStep(s: seq<RotationEntry>, i: int, store: map<Guid, u64>, deleteFails: u64 -> bool,
                    items: seq<RotationEntry>, tracked: map<Guid, u64>)
    requires 1 <= i < |s|
    requires items == ClearedLinks(s)[..i] + s[i..]
    requires tracked == store - StaleKeys(s, i, store, deleteFails)
    ensures items[i] == s[i]
    ensures var k := s[i].trackedEventKey;
            var items' := if k.Some? then items[i := s[i].(trackedEventKey := None)] else items;
            var tracked' := if k.Some? && k.value in tracked && !deleteFails(tracked[k.value])
                            then tracked - {k.value} else tracked;
            items' == ClearedLinks(s)[..i + 1] + s[i + 1..] &&
            tracked' == store - StaleKeys(s, i + 1, store, deleteFails)
  {
    var c := ClearedLinks(s);
    assert items[i] == s[i..][0];
    StaleKeysStep(s, i, store, deleteFails);
    var k := s[i].trackedEventKey;
    if k.Some? {
      assert c[..i + 1] == c[..i] + [s[i].(trackedEventKey := None)];
      assert items[i := s[i].(trackedEventKey := None)] == c[..i + 1] + s[i + 1..];
    } else {
      assert c[..i + 1] == c[..i] + [s[i]];
      assert s[i..] == [s[i]] + s[i + 1..];
    }
  }

  /** The cleanup pass on its own: links behind the head dropped, stale records deleted. */
  function Cleanup(s: seq<RotationEntry>, store: map<Guid, u64>, deleteFails: u64 -> bool)
    : (r: (seq<RotationEntry>, map<Guid, u64>))
    ensures OnlyHeadLinked(r.0) && |r.0| == |s|
    ensures r.1.Keys <= store.Keys
  {
    ClearedLinksEstablishes(s);
    (ClearedLinks(s), store - StaleKeys(s, |s|, store, deleteFails))
  }

  /** Once only the head is linked, cleaning up again changes nothing. */
  lemma CleanupIdempotent(s: seq<RotationEntry>, store: map<Guid, u64>, deleteFails: u64 -> bool)
    requires OnlyHeadLinked(s)
    ensures Cleanup(s, store, deleteFails) == (s, store)
  {
    ClearedLinksEstablishes(s);
    assert StaleKeys(s, |s|, store, deleteFails) == {};
    assert store - {} == store;
  }

  // ---------------------------------------------------------------------
  // Persisted order

  /** What `Dispose` writes: every entry with `order` set to its index. */
  function Renumbered(s: seq<RotationEntry>): (r: seq<RotationEntry>)
    ensures |r| == |s|
    ensures forall i :: 0 <= i < |s| ==> r[i] == s[i].(order := i)
  {
    seq(|s|, i requires 0 <= i < |s| => s[i].(order := i))
  }

  ghost predicate SortedByOrder(s: seq<RotationEntry>)
  {
    forall i, j :: 0 <= i < j < |s| ==> s[i].order <= s[j].order
  }

  /** Places `x` after every entry of `t` whose order is not larger (stable). */
  function InsertByOrder(t: seq<RotationEntry>, x: RotationEntry): (r: seq<RotationEntry>)
    ensures |r| == |t| + 1
  {
    if t == [] then [x]
    else if t[|t| - 1].order <= x.order then t + [x]
    else InsertByOrder(t[..|t| - 1], x) + [t[|t| - 1]]
  }

  /** `OrderBy(x => x.Order)`: a stable sort of the stored records. */
  function OrderByOrder(s: seq<RotationEntry>): (r: seq<RotationEntry>)
    ensures |r| == |s|
  {
    if s == [] then [] else InsertByOrder(OrderByOrder(s[..|s| - 1]), s[|s| - 1])
  }

  /** Sorting a list that is already in order changes nothing. */
  lemma {:induction false} OrderByOrderSorted(s: seq<RotationEntry>)
    requires SortedByOrder(s)
    ensures OrderByOrder(s) == s
  {
    if s != [] {
      var init := s[..|s| - 1];
      assert SortedByOrder(init);
      OrderByOrderSorted(init);
      assert s == init + [s[|s| - 1]];
    }
  }

  /**
   * Persist then load reproduces the queue: the records `Dispose` writes come
   * back from the constructor in the same order, and persisting again writes
   * the same records.
   */
  lemma PersistLoadRoundTrip(s: seq<RotationEntry>)
    ensures OrderByOrder(Renumbered(s)) == Renumbered(s)
    ensures Renumbered(OrderByOrder(Renumbered(s))) == Renumbered(s)
  {
    OrderByOrderSorted(Renumbered(s));
  }

  /** Loading sorts: the result is in order and holds exactly the stored records. */
  lemma {:induction false} OrderByOrderSorts(s: seq<RotationEntry>)
    ensures SortedByOrder(OrderByOrder(s))
    ensures multiset(OrderByOrder(s)) == multiset(s)
  {
    if s != [] {
      var init := s[..|s| - 1];
      OrderByOrderSorts(init);
      InsertByOrderSorts(OrderByOrder(init), s[|s| - 1]);
      assert s == init + [s[|s| - 1]];
    }
  }

  lemma {:induction false} InsertByOrderSorts(t: seq<RotationEntry>, x: RotationEntry)
    requires SortedByOrder(t)
    ensures SortedByOrder(InsertByOrder(t, x))
    ensures multiset(InsertByOrder(t, x)) == multiset(t) + multiset{x}
  {
    InsertByOrderKeeps(t, x);
    if t == [] {
    } else if t[|t| - 1].order <= x.order {
      forall y | y in t
        ensures y.order <= x.order
      {
        var i :| 0 <= i < |t| && t[i] == y;
      }
      AppendSorted(t, x);
    } else {
      var init := t[..|t| - 1];
      var last := t[|t| - 1];
      assert SortedByOrder(init);
      InsertByOrderSorts(init, x);
      var r := InsertByOrder(init, x);
      forall y | y in r
        ensures y.order <= last.order
      {
        assert y in multiset(r);
        if y != x {
          assert y in multiset(init);
          var i :| 0 <= i < |init| && init[i] == y;
        }
      }
      AppendSorted(r, last);
    }
  }

  lemma {:induction false} InsertByOrderKeeps(t: seq<RotationEntry>, x: RotationEntry)
    ensures multiset(InsertByOrder(t, x)) == multiset(t) + multiset{x}
  {
    if t != [] && t[|t| - 1].order > x.order {
      InsertByOrderKeeps(t[..|t| - 1], x);
      assert t == t[..|t| - 1] + [t[|t| - 1]];
    }
  }

  lemma AppendSorted(r: seq<RotationEntry>, last: RotationEntry)
    requires SortedByOrder(r)
    requires forall y :: y in r ==> y.order <= last.order
    ensures SortedByOrder(r + [last])
  {
    forall i, j | 0 <= i < j < |r| + 1
      ensures (r + [last])[i].order <= (r + [last])[j].order
    {
      if j == |r| {
        assert (r + [last])[i] in r;
      }
    }
  }

  // ---------------------------------------------------------------------
  // Announcement slots, shared by both announcement routines

  /**
   * One line of the rotation announcement: a user with the game night they
   * host (none while away) and the star the first user gets, or a postponed
   * night.
   */
  datatype Slot = UserSlot(userId: u64, star: bool, at: Option<Instant>) | PostponedSlot(night: Instant)

  /** Entries that take the next game night: users who are not away, and postponements. */
  predicate Consumes(e: RotationEntry)
  {
    e.kind == Postponement || !e.skip
  }

  /** How many entries in front of position `i` take a game night. */
  function ConsumedBefore(s: seq<RotationEntry>, i: nat): (n: nat)
    requires i <= |s|
    ensures n <= i
  {
    if i == 0 then 0 else ConsumedBefore(s, i - 1) + (if Consumes(s[i - 1]) then 1 else 0)
  }

  /**
   * `Current` of the game-night enumerator after `m` calls to `MoveNext`. The
   * enumerator of an unconfigured schedule is empty and reports the default
   * instant, the epoch.
   */
  function CurrentAfter(nights: seq<Instant>, m: nat): Instant
  {
    if 1 <= m <= |nights| then nights[m - 1] else 0
  }

  /** A user entry that makes the announcement throw: no user id, or the user lookup fails. */
  predicate BadUser(e: RotationEntry, userLookupFails: u64 -> bool)
  {
    e.kind == User && (e.userId.None? || userLookupFails(e.userId.value))
  }

  predicate UserBefore(s: seq<RotationEntry>, i: int)
    requires i <= |s|
  {
    exists j :: 0 <= j < i && s[j].kind == User
  }

  /** The announcement line for position `i`. */
  function SlotAt(s: seq<RotationEntry>, i: int, nights: seq<Instant>): Slot
    requires 0 <= i < |s| && (s[i].kind == User ==> s[i].userId.Some?)
  {
    var at := CurrentAfter(nights, ConsumedBefore(s, i) + 1);
    if s[i].kind == Postponement then PostponedSlot(at)
    else UserSlot(s[i].userId.value, !UserBefore(s, i), if s[i].skip then None else Some(at))
  }

  predicate AllUsersHaveIds(s: seq<RotationEntry>)
  {
    forall i :: 0 <= i < |s| ==> s[i].kind == User ==> s[i].userId.Some?
  }

  /** The announcement lines of a queue whose users all have ids. */
  function Slots(s: seq<RotationEntry>, nights: seq<Instant>): (r: seq<Slot>)
    requires AllUsersHaveIds(s)
    ensures |r| == |s| && forall i :: 0 <= i < |s| ==> r[i] == SlotAt(s, i, nights)
  {
    seq(|s|, i requires 0 <= i < |s| => SlotAt(s, i, nights))
  }

  /**
   * The walk over the queue that assigns game nights: it throws at the first
   * user without an id or whose lookup fails, and otherwise gives one line per
   * entry.
   */
  method AnnouncementSlots(s: seq<RotationEntry>, nights: seq<Instant>, userLookupFails: u64 -> bool)
    returns (r: Outcome<seq<Slot>>)
    ensures r.Threw? <==> exists i :: 0 <= i < |s| && BadUser(s[i], userLookupFails)
    ensures r.Returned? ==> r.value == Slots(s, nights)
  {
    var slots := [];
    var moved := 0;
    var firstUser := true;
    for i := 0 to |s|
      invariant |slots| == i
      invariant forall j :: 0 <= j < i ==> !BadUser(s[j], userLookupFails)
      invariant forall j :: 0 <= j < i ==> slots[j] == SlotAt(s, j, nights)
      invariant moved == ConsumedBefore(s, i)
      invariant firstUser == !UserBefore(s, i)
    {
      var item := s[i];
      match item.kind {
        case User =>
          if item.userId.None? || userLookupFails(item.userId.value) {
            return Threw;
          }
          var star := firstUser;
          firstUser := false;
          if item.skip {
            slots := slots + [UserSlot(item.userId.value, star, None)];
          } else {
            moved := moved + 1;
            slots := slots + [UserSlot(item.userId.value, star, Some(CurrentAfter(nights, moved)))];
          }
        case Postponement =>
          moved := moved + 1;
          slots := slots + [PostponedSlot(CurrentAfter(nights, moved))];
      }
    }
    return Returned(slots);
  }

  /** Only the first user in the queue gets the star. */
  lemma StarOnFirstUser(s: seq<RotationEntry>, nights: seq<Instant>, i: int)
    requires 0 <= i < |s| && s[i].kind == User && s[i].userId.Some?
    ensures SlotAt(s, i, nights).star <==> forall j :: 0 <= j < i ==> s[j].kind != User
  {
  }

  /** Positions further back in the queue have taken at least as many game nights. */
  lemma {:induction false} ConsumedMonotone(s: seq<RotationEntry>, i: nat, j: nat)
    requires i <= j <= |s|
    ensures ConsumedBefore(s, i) <= ConsumedBefore(s, j)
    ensures i < j && Consumes(s[i]) ==> ConsumedBefore(s, i) < ConsumedBefore(s, j)
    decreases j - i
  {
    if i < j {
      ConsumedMonotone(s, i, j - 1);
      if Consumes(s[i]) && i + 1 < j {
        ConsumedMonotone(s, i + 1, j);
      }
    }
  }

  /**
   * With an increasing supply of game nights long enough for the queue, the
   * entries that take a night get strictly later nights the further back
   * they stand, the first of them getting the first night.
   */
  lemma SlotDatesIncrease(s: seq<RotationEntry>, nights: seq<Instant>, i: int, j: int)
    requires forall a, b :: 0 <= a < b < |nights| ==> nights[a] < nights[b]
    requires ConsumedBefore(s, |s|) <= |nights|
    requires 0 <= i < j < |s| && Consumes(s[i]) && Consumes(s[j])
    ensures CurrentAfter(nights, ConsumedBefore(s, i) + 1) < CurrentAfter(nights, ConsumedBefore(s, j) + 1)
  {
    ConsumedMonotone(s, i, j);
    ConsumedMonotone(s, j + 1, |s|);
  }
}
