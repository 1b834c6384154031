/** Values shared by the modules of the project: identifiers, instants and the event records
    that travel from the Kafka handler to the two event tables. */
module Events {

  datatype Option<+T> = None | Some(value: T)

  /** A UUID is 16 octets; the database compares UUIDs as big-endian numbers. */
  const UUID_LIMIT: nat := 0x1_0000_0000_0000_0000_0000_0000_0000_0000

  type Uuid = u: int | 0 <= u < UUID_LIMIT witness 0

  /** Nanoseconds since 0000-01-01T00:00:00Z in the proleptic Gregorian calendar. */
  type Instant = nat

  const SECOND: nat := 1_000_000_000
  const MINUTE: nat := 60 * SECOND
  const HOUR: nat := 60 * MINUTE

  /** The in-memory model handed to a pipeline. Empty metadata stands for "no metadata". */
  datatype EventModel = EventModel(
    id: Uuid, eventType: string, plant: Uuid, source: string,
    data: string, metadata: string, createdAt: Instant)

  /** A stored row: metadata is NULL when the model has none. */
  datatype EventRow = EventRow(
    id: Uuid, eventType: string, plant: Uuid, source: string,
    data: string, metadata: Option<string>, createdAt: Instant)

  function ToRow(m: EventModel): EventRow {
    EventRow(m.id, m.eventType, m.plant, m.source, m.data,
             if m.metadata == "" then None else Some(m.metadata), m.createdAt)
  }

  /** The columns other than the id hold what the model holds, and nothing stands where it has no metadata. */
  predicate HoldsColumns(r: EventRow, m: EventModel) {
    && r.eventType == m.eventType && r.plant == m.plant && r.source == m.source
    && r.data == m.data && r.createdAt == m.createdAt
    && (r.metadata == None <==> m.metadata == "") && (r.metadata.Some? ==> r.metadata.value == m.metadata)
  }

  function ToRows(models: seq<EventModel>): (rows: seq<EventRow>)
    ensures |rows| == |models|
    ensures forall i :: 0 <= i < |models| ==> rows[i] == ToRow(models[i])
  {
    seq(|models|, i requires 0 <= i < |models| => ToRow(models[i]))
  }
}
