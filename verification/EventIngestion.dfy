/** From a delivered message to its rows: event identity and what redelivery does to the two tables
    (internal/domain/services/event_ingestion_service.go). */
module EventIngestion {
  import opened Events
  import opened Digits
  import opened EventStore
  import opened BatchWorker
  import opened DualEventWriter

  /** The fields of a message that processing looks at; None stands for a field that is absent or not
      a string. */
  datatype Message = Message(
    payload: string, isEmpty: bool, idText: Option<string>, plantText: Option<string>,
    eventType: Option<string>, plantName: Option<string>, valid: bool)

  datatype Failure = Permanent(reason: string) | Transient(reason: string)

  /** The hash that names a payload; SHA-256 and the version 5 UUID over it are taken as one function. */
  type Hash = string -> Uuid

  /** A valid explicit id, or else the name of the payload. */
  function EventId(hash: Hash, m: Message): Uuid {
    if m.idText.Some? && ParseUuid(m.idText.value).Some? then ParseUuid(m.idText.value).value
    else hash(m.payload)
  }

  function OrElse(o: Option<string>, default: string): string {
    if o.Some? then o.value else default
  }

  /** The event of one delivery; both tables get the same id and the same reading of the clock. */
  function BuildEvent(hash: Hash, m: Message, plant: Uuid, now: Instant): EventModel {
    EventModel(EventId(hash, m), OrElse(m.eventType, "unknown"), plant, OrElse(m.plantName, "kafka-intake"),
               m.payload, "", now)
  }

  /** What the databases answer while one message is processed. */
  datatype Answers = Answers(
    existsQueryOk: bool, plantExists: bool, opOk: bool, anOk: bool,
    opId: Uuid, anId: Uuid)   // the ids the database would generate for the two inserts

  /** The plant the message names, or why the message is refused before anything is stored. */
  datatype Checked = Accepted(plant: Uuid) | Refused(why: Failure)

  function Check(m: Message, db: Answers): Checked {
    if m.isEmpty then Refused(Permanent("empty event data"))
    else if m.plantText.None? then Refused(Permanent("missing plant_source_id field"))
    else if ParseUuid(m.plantText.value).None? then Refused(Permanent("invalid plant_source_id format"))
    else if !db.existsQueryOk then Refused(Transient("database error checking plant existence"))
    else if !db.plantExists then
      Refused(Transient("plant_source_id=" + UuidText(ParseUuid(m.plantText.value).value) + " does not exist"))
    else if !m.valid then Refused(Permanent("event data validation failed"))
    else Accepted(ParseUuid(m.plantText.value).value)
  }

  // ---- What processing means, said without reading texts ----

  /** The text names some UUID. */
  ghost predicate Readable(text: Option<string>) {
    text.Some? && exists u: Uuid :: Spells(text.value, u)
  }

  /** The event a message stands for: the UUID its id spells in whatever way, or else its payload's name; its
      own type, plant and plant name, with the defaults; the payload as data; the reading of the clock. */
  ghost predicate Represents(hash: Hash, m: Message, now: Instant, e: EventModel) {
    && (forall u: Uuid :: m.idText.Some? && Spells(m.idText.value, u) ==> e.id == u)
    && (!Readable(m.idText) ==> e.id == hash(m.payload))
    && (m.plantText.Some? && Spells(m.plantText.value, e.plant))
    && (m.eventType.Some? ==> e.eventType == m.eventType.value) && (m.eventType.None? ==> e.eventType == "unknown")
    && (m.plantName.Some? ==> e.source == m.plantName.value) && (m.plantName.None? ==> e.source == "kafka-intake")
    && e.data == m.payload && e.metadata == "" && e.createdAt == now
  }

  lemma ReadableParses(text: string)
    ensures ParseUuid(text).Some? <==> Readable(Some(text))
    ensures ParseUuid(text).Some? ==> Spells(text, ParseUuid(text).value)
  {
    forall u: Uuid ensures ParseUuid(text) == Some(u) <==> Spells(text, u) {
      ParsesExactlySpellings(text, u);
    }
    if ParseUuid(text).Some? {
      assert Spells(text, ParseUuid(text).value);
    }
  }

  lemma ReadableId(hash: Hash, m: Message)
    ensures forall u: Uuid :: m.idText.Some? && Spells(m.idText.value, u) ==> EventId(hash, m) == u
    ensures !Readable(m.idText) ==> EventId(hash, m) == hash(m.payload)
  {
    if m.idText.Some? {
      ReadableParses(m.idText.value);
      forall u: Uuid | Spells(m.idText.value, u) ensures EventId(hash, m) == u {
        ParsesExactlySpellings(m.idText.value, u);
      }
    }
  }

  /** Which message is stored, and why any other is refused. */
  lemma CheckedInOrder(m: Message, db: Answers)
    ensures Check(m, db).Accepted? <==>
            !m.isEmpty && Readable(m.plantText) && db.existsQueryOk && db.plantExists && m.valid
    ensures Check(m, db).Accepted? ==> Spells(m.plantText.value, Check(m, db).plant)
    ensures Check(m, db).Refused? ==> RefusedFor(m, db, Check(m, db).why)
  {
    if m.plantText.Some? {
      ReadableParses(m.plantText.value);
    }
  }

  /** The first thing that is wrong with a message. */
  ghost predicate RefusedFor(m: Message, db: Answers, why: Failure) {
    && (m.isEmpty ==> why == Permanent("empty event data"))
    && (!m.isEmpty && m.plantText.None? ==> why == Permanent("missing plant_source_id field"))
    && (!m.isEmpty && m.plantText.Some? && !Readable(m.plantText) ==>
          why == Permanent("invalid plant_source_id format"))
    && (!m.isEmpty && Readable(m.plantText) ==>
          && (!db.existsQueryOk ==> why == Transient("database error checking plant existence"))
          && (db.existsQueryOk && !db.plantExists ==>
                exists u: Uuid :: Spells(m.plantText.value, u) &&
                  why == Transient("plant_source_id=" + UuidText(u) + " does not exist"))
          && (db.existsQueryOk && db.plantExists && !m.valid ==> why == Permanent("event data validation failed")))
  }

  lemma BuiltRepresents(hash: Hash, m: Message, plant: Uuid, now: Instant)
    requires m.plantText.Some? && Spells(m.plantText.value, plant)
    ensures Represents(hash, m, now, BuildEvent(hash, m, plant, now))
  {
    ReadableId(hash, m);
  }

  /** The message and the database's answers let an event be stored. */
  ghost predicate Storable(m: Message, db: Answers) {
    !m.isEmpty && Readable(m.plantText) && db.existsQueryOk && db.plantExists && m.valid
  }

  class Service {
    const hash: Hash
    const useAsyncWrite: bool
    const writer: Writer   // the asynchronous path
    const op: Store        // the synchronous path
    const an: Store

    constructor (hash: Hash, useAsyncWrite: bool, writer: Writer, op: Store, an: Store)
      ensures this.hash == hash && this.useAsyncWrite == useAsyncWrite
      ensures this.writer == writer && this.op == op && this.an == an
    {
      this.hash, this.useAsyncWrite, this.writer, this.op, this.an := hash, useAsyncWrite, writer, op, an;
    }

    ghost predicate Valid()
      reads writer.op, writer.an
    {
      op.pipeline == Operational && an.pipeline == Analytical && op != an && writer.op != writer.an &&
      |writer.op.buffer| <= PIPELINE_BUFFER_SIZE && |writer.an.buffer| <= PIPELINE_BUFFER_SIZE
    }

    /** Neither queue nor table has changed. */
    twostate predicate NoTrace()
      reads writer.op, writer.an, op, an
    {
      writer.op.buffer == old(writer.op.buffer) && writer.an.buffer == old(writer.an.buffer) &&
      op.table == old(op.table) && an.table == old(an.table)
    }

    /** Both queues took or dropped the event, each on its own, and the tables are as they were. */
    twostate predicate Queued(e: EventModel)
      reads writer.op, writer.an, op, an
    {
      writer.op.buffer == (if |old(writer.op.buffer)| < 1000 then old(writer.op.buffer) + [e]
                           else old(writer.op.buffer)) &&
      writer.an.buffer == (if |old(writer.an.buffer)| < 1000 then old(writer.an.buffer) + [e]
                           else old(writer.an.buffer)) &&
      op.table == old(op.table) && an.table == old(an.table)
    }

    /** The operational row and then the analytical one were inserted, as far as the database let them. */
    twostate predicate Saved(e: EventModel, db: Answers)
      reads writer.op, writer.an, op, an
    {
      writer.op.buffer == old(writer.op.buffer) && writer.an.buffer == old(writer.an.buffer) &&
      op.table == (if db.opOk then InsertIgnore(Operational, old(op.table), CreatedRow(e, db.opId))
                   else old(op.table)) &&
      an.table == (if db.opOk && db.anOk then InsertIgnore(Analytical, old(an.table), CreatedRow(e, db.anId))
                   else old(an.table)) &&
      (db.opOk ==> ById(if e.id == NIL_ID then db.opId else e.id) in op.table) &&
      (db.opOk && db.anOk ==> ByTimeAndId(e.createdAt, if e.id == NIL_ID then db.anId else e.id) in an.table) &&
      GrownBy(Operational, old(op.table), op.table, [e]) && GrownBy(Analytical, old(an.table), an.table, [e])
    }

    /** None is success. A refused message leaves no trace. In asynchronous mode the only failure is a
        stopping writer, and success says nothing about a full channel: each queue takes or drops the event.
        In synchronous mode a failure may leave the operational row behind for the retry to meet. */
    method ProcessEvent(m: Message, db: Answers, now: Instant) returns (failure: Option<Failure>)
      requires Valid()
      modifies writer`spilled, writer.op, writer.an, op`table, an`table
      ensures Valid() && writer.spilled == old(writer.spilled)
      ensures !Storable(m, db) ==> failure.Some? && RefusedFor(m, db, failure.value) && NoTrace()
      ensures Storable(m, db) && useAsyncWrite && writer.stopping ==>
                failure == Some(Transient("async save failed")) && NoTrace()
      ensures Storable(m, db) && useAsyncWrite && !writer.stopping ==>
                failure == None && exists e :: Represents(hash, m, now, e) && Queued(e)
      ensures Storable(m, db) && !useAsyncWrite ==>
                failure == (if db.opOk && db.anOk then None else Some(Transient("sync save failed"))) &&
                exists e :: Represents(hash, m, now, e) && Saved(e, db)
    {
      CheckedInOrder(m, db);
      match Check(m, db) {
        case Refused(why) => return Some(why);
        case Accepted(plant) =>
          BuiltRepresents(hash, m, plant, now);
          var event := BuildEvent(hash, m, plant, now);
          if useAsyncWrite {
            var ok := writer.SaveEventAsync(event);
            if !ok {
              return Some(Transient("async save failed"));
            }
            assert Queued(event);
          } else {
            var ok := SaveEvent(op, an, event, db.opOk, db.anOk, db.opId, db.anId);
            assert Saved(event, db);
            if !ok {
              return Some(Transient("sync save failed"));
            }
          }
          return None;
      }
    }
  }

  // ---- Redelivery ----

  /** One stored copy of a message: which message, and when it was processed. */
  datatype Copy = Copy(message: Message, plant: Uuid, at: Instant)

  function RowOf(hash: Hash, c: Copy): EventRow {
    ToRow(BuildEvent(hash, c.message, c.plant, c.at))
  }

  function RowsOf(hash: Hash, copies: seq<Copy>): (rows: seq<EventRow>)
    ensures |rows| == |copies| && forall i :: 0 <= i < |copies| ==> rows[i] == RowOf(hash, copies[i])
  {
    seq(|copies|, i requires 0 <= i < |copies| => RowOf(hash, copies[i]))
  }

  lemma KeysOfCopies(hash: Hash, p: Pipeline, copies: seq<Copy>)
    ensures InsertAll(p, map[], RowsOf(hash, copies)).Keys == set c | c in copies :: KeyOf(p, RowOf(hash, c))
  {
    var rows := RowsOf(hash, copies);
    InsertAllKeys(p, map[], rows);
    var keys := set c | c in copies :: KeyOf(p, RowOf(hash, c));
    forall k | k in KeySet(p, rows) ensures k in keys {
      var r :| r in rows && KeyOf(p, r) == k;
      var i :| 0 <= i < |rows| && rows[i] == r;
      assert copies[i] in copies;
    }
    forall c | c in copies ensures KeyOf(p, RowOf(hash, c)) in KeySet(p, rows) {
      var i :| 0 <= i < |copies| && copies[i] == c;
      assert rows[i] in rows;
    }
  }

  /** The operational table has one row per distinct event id among the stored copies, and that row is
      the first stored copy's: later copies, whatever their time or content, change nothing. */
  lemma OneOperationalRowPerEvent(hash: Hash, copies: seq<Copy>, i: nat)
    requires i < |copies|
    requires forall j :: 0 <= j < i ==> EventId(hash, copies[j].message) != EventId(hash, copies[i].message)
    ensures var t := InsertAll(Operational, map[], RowsOf(hash, copies));
            ById(EventId(hash, copies[i].message)) in t &&
            t[ById(EventId(hash, copies[i].message))] == RowOf(hash, copies[i]) &&
            t.Keys == set c | c in copies :: ById(EventId(hash, c.message))
  {
    var rows := RowsOf(hash, copies);
    KeysOfCopies(hash, Operational, copies);
    InsertAllFirstWins(Operational, map[], rows);
    assert FirstOfKey(Operational, rows, i);
  }

  function TimesOf(hash: Hash, copies: seq<Copy>, id: Uuid): set<Instant> {
    set c | c in copies && EventId(hash, c.message) == id :: c.at
  }

  function RowsWithId(t: Table, id: Uuid): set<Key> {
    set k | k in t && k.id == id
  }

  lemma {:induction false} KeysFromTimes(times: set<Instant>, id: Uuid)
    ensures |set t | t in times :: ByTimeAndId(t, id)| == |times|
    decreases |times|
  {
    if times != {} {
      var t :| t in times;
      KeysFromTimes(times - {t}, id);
      assert (set x | x in times :: ByTimeAndId(x, id)) ==
             (set x | x in times - {t} :: ByTimeAndId(x, id)) + {ByTimeAndId(t, id)};
    }
  }

  /** The analytical table has, for each event id, exactly one row per distinct processing time among the
      stored copies. */
  lemma AnalyticalRowsAreTimes(hash: Hash, copies: seq<Copy>, id: Uuid)
    ensures var t := InsertAll(Analytical, map[], RowsOf(hash, copies));
            RowsWithId(t, id) == (set at | at in TimesOf(hash, copies, id) :: ByTimeAndId(at, id)) &&
            |RowsWithId(t, id)| == |TimesOf(hash, copies, id)|
  {
    var t, times := InsertAll(Analytical, map[], RowsOf(hash, copies)), TimesOf(hash, copies, id);
    KeysOfCopies(hash, Analytical, copies);
    forall k ensures k in RowsWithId(t, id) <==> k in set at | at in times :: ByTimeAndId(at, id) {
      if k in RowsWithId(t, id) {
        var c :| c in copies && KeyOf(Analytical, RowOf(hash, c)) == k;
        assert c.at in times;
      }
    }
    assert RowsWithId(t, id) == set at | at in times :: ByTimeAndId(at, id);
    KeysFromTimes(times, id);
  }

  lemma AllAtOnce(copies: seq<Copy>, times: set<Instant>)
    requires copies != [] && times == set c | c in copies :: c.at
    ensures |times| == 1 <==> forall c, d :: c in copies && d in copies ==> c.at == d.at
  {
    assert copies[0] in copies && copies[0].at in times;
    if forall c, d :: c in copies && d in copies ==> c.at == d.at {
      assert times == {copies[0].at};
    } else {
      var c, d :| c in copies && d in copies && c.at != d.at;
      assert |times - {c.at} - {d.at}| == |times| - 2;
    }
  }

  /** Storing copies of one message again is invisible in the operational table for any number of copies;
      in the analytical table it is invisible exactly when all copies were processed at the same time. */
  lemma RedeliveryOfOneMessage(hash: Hash, copies: seq<Copy>, m: Message)
    requires copies != [] && forall c :: c in copies ==> c.message == m
    ensures InsertAll(Operational, map[], RowsOf(hash, copies)).Keys == {ById(EventId(hash, m))}
    ensures |InsertAll(Analytical, map[], RowsOf(hash, copies)).Keys| == 1 <==>
            forall c, d :: c in copies && d in copies ==> c.at == d.at
  {
    var id := EventId(hash, m);
    assert copies[0] in copies;
    KeysOfCopies(hash, Operational, copies);
    KeysOfCopies(hash, Analytical, copies);
    AnalyticalRowsAreTimes(hash, copies, id);
    var t := InsertAll(Analytical, map[], RowsOf(hash, copies));
    assert RowsWithId(t, id) == t.Keys;
    assert TimesOf(hash, copies, id) == set c | c in copies :: c.at;
    AllAtOnce(copies, TimesOf(hash, copies, id));
  }

  /** Messages whose ids spell one UUID, in whatever ways and whatever else they hold, share one operational
      row, which is the first one's; messages without a readable id share a row when their payloads share a
      name. */
  lemma NamedByIdOrPayload(hash: Hash, copies: seq<Copy>)
    requires copies != []
    ensures forall u: Uuid ::
              (forall c :: c in copies ==> c.message.idText.Some? && Spells(c.message.idText.value, u)) ==>
                var t := InsertAll(Operational, map[], RowsOf(hash, copies));
                t.Keys == {ById(u)} && t[ById(u)] == RowOf(hash, copies[0])
    ensures (forall c :: c in copies ==> !Readable(c.message.idText)) ==>
              InsertAll(Operational, map[], RowsOf(hash, copies)).Keys ==
              set c | c in copies :: ById(hash(c.message.payload))
  {
    var keys := InsertAll(Operational, map[], RowsOf(hash, copies)).Keys;
    KeysOfCopies(hash, Operational, copies);
    OneOperationalRowPerEvent(hash, copies, 0);
    forall c | c in copies
      ensures forall u: Uuid :: c.message.idText.Some? && Spells(c.message.idText.value, u) ==>
                EventId(hash, c.message) == u
      ensures !Readable(c.message.idText) ==> EventId(hash, c.message) == hash(c.message.payload)
    {
      ReadableId(hash, c.message);
    }
    assert copies[0] in copies;
    if forall c :: c in copies ==> !Readable(c.message.idText) {
      assert keys == set c | c in copies :: ById(hash(c.message.payload));
    }
  }

  // ---- Redelivery through the ORM ----

  /** The rows of copies inserted by the ORM, each with an id the database would generate. */
  function CreatedRowsOf(hash: Hash, copies: seq<Copy>, ids: seq<Uuid>): (rows: seq<EventRow>)
    requires |ids| == |copies|
    ensures |rows| == |copies|
    ensures forall i :: 0 <= i < |copies| ==>
              rows[i] == CreatedRow(BuildEvent(hash, copies[i].message, copies[i].plant, copies[i].at), ids[i])
  {
    seq(|copies|, i requires 0 <= i < |copies| =>
      CreatedRow(BuildEvent(hash, copies[i].message, copies[i].plant, copies[i].at), ids[i]))
  }

  /** The id a delivery ends up with. */
  function StoredId(eventId: Uuid, generated: Uuid): Uuid {
    if eventId != NIL_ID then eventId else generated
  }

  lemma CreatedRowIds(hash: Hash, copies: seq<Copy>, ids: seq<Uuid>, m: Message)
    requires |ids| == |copies| && forall c :: c in copies ==> c.message == m
    ensures forall i :: 0 <= i < |copies| ==>
              CreatedRowsOf(hash, copies, ids)[i].id == StoredId(EventId(hash, m), ids[i])
  {
    forall i | 0 <= i < |copies|
      ensures CreatedRowsOf(hash, copies, ids)[i].id == StoredId(EventId(hash, m), ids[i])
    {
      assert copies[i] in copies;
    }
  }

  lemma KeysFromIds(rows: seq<EventRow>, eventId: Uuid, ids: seq<Uuid>)
    requires |ids| == |rows| && forall i :: 0 <= i < |rows| ==> rows[i].id == StoredId(eventId, ids[i])
    ensures InsertAll(Operational, map[], rows).Keys == set id | id in ids :: ById(StoredId(eventId, id))
  {
    var keys := KeySet(Operational, rows);
    InsertAllKeys(Operational, map[], rows);
    forall id | id in ids ensures ById(StoredId(eventId, id)) in keys {
      var i :| 0 <= i < |ids| && ids[i] == id;
      assert rows[i] in rows && KeyOf(Operational, rows[i]) == ById(StoredId(eventId, id));
    }
    forall k | k in keys ensures k in set id | id in ids :: ById(StoredId(eventId, id)) {
      var r :| r in rows && KeyOf(Operational, r) == k;
      var i :| 0 <= i < |rows| && rows[i] == r;
      assert ids[i] in ids;
    }
  }

  lemma OneKeyIffOneId(eventId: Uuid, ids: seq<Uuid>, keys: set<Key>)
    requires ids != [] && keys == set id | id in ids :: ById(StoredId(eventId, id))
    ensures |keys| == 1 <==> eventId != NIL_ID || forall id :: id in ids ==> id == ids[0]
  {
    var first := ById(StoredId(eventId, ids[0]));
    assert ids[0] in ids && first in keys;
    if eventId == NIL_ID && exists id :: id in ids && id != ids[0] {
      var id :| id in ids && id != ids[0];
      assert ById(StoredId(eventId, id)) in keys;
      assert |keys - {first} - {ById(id)}| == |keys| - 2;
    } else {
      assert keys == {first};
    }
  }

  /** Deliveries of one message stored by the ORM, one by one or in a fallback batch, share one operational
      row exactly when the event id is not nil or the database happened to generate one id for all. */
  lemma RedeliveryThroughOrm(hash: Hash, copies: seq<Copy>, ids: seq<Uuid>, m: Message)
    requires |ids| == |copies| && copies != [] && forall c :: c in copies ==> c.message == m
    ensures |InsertAll(Operational, map[], CreatedRowsOf(hash, copies, ids)).Keys| == 1 <==>
            EventId(hash, m) != NIL_ID || forall id :: id in ids ==> id == ids[0]
  {
    CreatedRowIds(hash, copies, ids, m);
    KeysFromIds(CreatedRowsOf(hash, copies, ids), EventId(hash, m), ids);
    OneKeyIffOneId(EventId(hash, m), ids, set id | id in ids :: ById(StoredId(EventId(hash, m), id)));
  }

  // ---- Redelivery through the writer, in every run ----

  /** The times of the written copies of an event. */
  function WrittenTimes(p: Line, id: Uuid): set<Instant> {
    set i | i in p.written && i.model.id == id :: i.model.createdAt
  }

  /** The id is one the database has not generated, and if it is nil the ORM never met it. */
  predicate NotGenerated(p: Line, id: Uuid) {
    id !in p.drawn && (id == NIL_ID ==> p.drawn == {})
  }

  lemma AnalyticalLineRows(p: Line, initial: Table, id: Uuid)
    requires p.pipeline == Analytical && TableMatches(p, initial) && NotGenerated(p, id)
    ensures RowsWithId(p.table, id) ==
            RowsWithId(initial, id) + set at | at in WrittenTimes(p, id) :: ByTimeAndId(at, id)
  {
    var copies := set at | at in WrittenTimes(p, id) :: ByTimeAndId(at, id);
    forall k ensures k in RowsWithId(p.table, id) <==> k in RowsWithId(initial, id) + copies {
      if k in RowsWithId(p.table, id) && k !in initial {
        var i :| i in p.written && StoredAs(p.drawn, i, p.table[k]);
        assert i.model.createdAt in WrittenTimes(p, id);
      }
      if k in copies {
        var at :| at in WrittenTimes(p, id) && k == ByTimeAndId(at, id);
        var i :| i in p.written && i.model.id == id && i.model.createdAt == at;
        assert KeyOf(p.pipeline, ToRow(i.model)) == k;
      }
    }
  }

  /** In every run of the writer, whatever is redelivered, dropped or lost, the analytical rows of an event
      are those it had at first and one per distinct time among its written copies; generated ids aside. */
  lemma AnalyticalRowsInRuns(
    opWorkers: int, anWorkers: int, hasCallback: bool, opTable: Table, anTable: Table, run: seq<Step>, id: Uuid)
    requires ValidRun(Init(opWorkers, anWorkers, hasCallback, opTable, anTable), run)
    ensures var s := After(Init(opWorkers, anWorkers, hasCallback, opTable, anTable), run);
            NotGenerated(s.an, id) ==>
              RowsWithId(s.an.table, id) ==
              RowsWithId(anTable, id) + (set at | at in WrittenTimes(s.an, id) :: ByTimeAndId(at, id)) &&
              (anTable == map[] ==> |RowsWithId(s.an.table, id)| == |WrittenTimes(s.an, id)|)
  {
    var s0 := Init(opWorkers, anWorkers, hasCallback, opTable, anTable);
    var s := After(s0, run);
    RunMatches(s0, run, opTable, anTable);
    PipelinesStay(s0, run);
    if NotGenerated(s.an, id) {
      AnalyticalLineRows(s.an, anTable, id);
    }
    KeysFromTimes(WrittenTimes(s.an, id), id);
    assert anTable == map[] ==> RowsWithId(anTable, id) == {};
  }

  /** The operational row of an event against what was there at first and what was written. */
  ghost predicate OperationalRow(p: Line, initial: Table, id: Uuid) {
    && (ById(id) in p.table <==> ById(id) in initial || exists i :: i in p.written && i.model.id == id)
    && (ById(id) in p.table && ById(id) !in initial ==>
          exists i :: i in p.written && i.model.id == id && ToRow(i.model) == p.table[ById(id)])
  }

  lemma OperationalLineRow(p: Line, initial: Table, id: Uuid)
    requires p.pipeline == Operational && TableMatches(p, initial) && NotGenerated(p, id)
    ensures OperationalRow(p, initial, id)
  {
    if ById(id) in p.table && ById(id) !in initial {
      var i :| i in p.written && StoredAs(p.drawn, i, p.table[ById(id)]);
      assert i.model.id == id;
    }
    forall i | i in p.written && i.model.id == id ensures ById(id) in p.table {
      assert KeyOf(p.pipeline, ToRow(i.model)) == ById(id);
    }
  }

  /** In every run of the writer an event has an operational row exactly when it had one at first or a copy
      of it was written; a new row is a written copy's, and however the run goes on, the row stays as it is. */
  lemma OperationalRowInRuns(
    opWorkers: int, anWorkers: int, hasCallback: bool, opTable: Table, anTable: Table, run: seq<Step>, id: Uuid,
    more: seq<Step>)
    requires ValidRun(Init(opWorkers, anWorkers, hasCallback, opTable, anTable), run)
    requires ValidRun(After(Init(opWorkers, anWorkers, hasCallback, opTable, anTable), run), more)
    ensures var s := After(Init(opWorkers, anWorkers, hasCallback, opTable, anTable), run);
            (NotGenerated(s.op, id) ==> OperationalRow(s.op, opTable, id)) && Keeps(s.op.table, After(s, more).op.table)
  {
    var s0 := Init(opWorkers, anWorkers, hasCallback, opTable, anTable);
    var s := After(s0, run);
    RunMatches(s0, run, opTable, anTable);
    PipelinesStay(s0, run);
    if NotGenerated(s.op, id) {
      OperationalLineRow(s.op, opTable, id);
    }
    RowsStay(s, more, opTable, anTable);
  }
}
