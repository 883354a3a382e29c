/**
 * The rotation announcement both snapshots post after every change: one line
 * per queue entry with the game night it takes, and a link to the head's
 * platform event when the head is a user whose tracked event is on record.
 * Only the content is modelled; the message text, the reaction and the pin
 * are platform calls.
 */
module Announcement {
  import opened Common
  import opened Rotation
  import opened Recurrence
  import opened Storage
  import GuildEventUtility

  /** What is sent: the channel, the lines, and the event link. */
  datatype Message = Message(channelId: u64, slots: seq<Slot>, eventLink: Option<string>)

  /** The link to the head's event, looked up by the head's tracked-event key. */
  function HeadLink(s: seq<RotationEntry>, store: map<Guid, u64>, guildId: u64): (r: Option<string>)
    requires s != []
    ensures r.Some? <==> s[0].kind == User && s[0].trackedEventKey.Some? && s[0].trackedEventKey.value in store
    ensures r.Some? ==> r.value == GuildEventUtility.CreateEventLink(guildId, store[s[0].trackedEventKey.value])
  {
    var k := s[0].trackedEventKey;
    if s[0].kind == User && k.Some? && k.value in store
    then Some(GuildEventUtility.CreateEventLink(guildId, store[k.value]))
    else None
  }

  /**
   * The outcome of `PostRotationMessage`: nothing for an empty queue or when
   * no text channel is configured; an exception at a user without id or
   * whose lookup fails; otherwise the message.
   */
  function Announce(s: seq<RotationEntry>, store: map<Guid, u64>, config: Config, guildId: u64,
                    p: Platform, nights: seq<Instant>): (r: Outcome<Option<Message>>)
    ensures s == [] ==> r == Returned(None)
    ensures s != [] && (config.channelId.None? || !p.isTextChannel(config.channelId.value)) ==> r == Returned(None)
    ensures r.Returned? && r.value.Some? ==>
              |r.value.value.slots| == |s| && r.value.value.channelId == config.channelId.value
  {
    if s == [] then Returned(None)
    else if config.channelId.None? || !p.isTextChannel(config.channelId.value) then Returned(None)
    else if exists i :: 0 <= i < |s| && BadUser(s[i], p.userLookupFails) then Threw
    else Returned(Some(Message(config.channelId.value, Slots(s, nights), HeadLink(s, store, guildId))))
  }

  /**
   * `PostRotationMessage`, with `nights` the instants the game-night
   * enumerator produces.
   */
  method PostRotationMessage(db: Database, guildId: u64, rotation: seq<RotationEntry>,
                             p: Platform, nights: seq<Instant>)
    returns (r: Outcome<Option<Message>>)
    ensures r == Announce(rotation, db.trackedEvents, db.config, guildId, p, nights)
  {
    if |rotation| == 0 {
      return Returned(None);
    }
    var config := db.config;
    if config.channelId.None? || !p.isTextChannel(config.channelId.value) {
      return Returned(None);
    }
    var slots := AnnouncementSlots(rotation, nights, p.userLookupFails);
    if slots.Threw? {
      return Threw;
    }
    var link := HeadLink(rotation, db.trackedEvents, guildId);
    return Returned(Some(Message(config.channelId.value, slots.value, link)));
  }
}
