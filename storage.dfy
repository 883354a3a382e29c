/**
 * The per-guild record store and the platform calls the rotation code makes,
 * reduced to what the rotation logic observes of them.
 */
module Storage {
  import opened Common
  import opened Rotation
  import opened Recurrence

  /**
   * A guild's document store: the persisted rotation records in storage
   * order, the tracked-event records keyed by their `Key`, the ids of
   * platform events already announced, and the schedule singleton.
   */
  class Database {
    var rotationEntries: seq<RotationEntry>
    var trackedEvents: map<Guid, u64>
    var handledEvents: seq<u64>
    var config: Config

    constructor (rotationEntries: seq<RotationEntry>, trackedEvents: map<Guid, u64>,
                 handledEvents: seq<u64>, config: Config)
      ensures this.rotationEntries == rotationEntries && this.trackedEvents == trackedEvents
      ensures this.handledEvents == handledEvents && this.config == config
    {
      this.rotationEntries := rotationEntries;
      this.trackedEvents := trackedEvents;
      this.handledEvents := handledEvents;
      this.config := config;
    }
  }

  /**
   * How the platform answers during one handler run: whether fetching a user
   * throws, the id of the event `CreateEventAsync` makes (`None`: it throws),
   * whether fetching or deleting a given platform event throws, and whether a
   * channel id names a text channel of the guild.
   */
  datatype Platform = Platform(
    userLookupFails: u64 -> bool,
    createdEventId: Option<u64>,
    deleteFails: u64 -> bool,
    isTextChannel: u64 -> bool)

  /** What a rotation routine leaves behind: its outcome, the queue, and the tracked-event store. */
  datatype Effect<T> = Effect(result: Outcome<T>, rotation: seq<RotationEntry>, store: map<Guid, u64>)

  /** Whether some tracked-event record points at the platform event `eventId`. */
  predicate Tracks(store: map<Guid, u64>, eventId: u64)
  {
    exists k :: k in store && store[k] == eventId
  }
}
