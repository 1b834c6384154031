/** The two event tables and the staged COPY that fills them
    (internal/infrastructure/adapters/repositories/dual_event_writer.go). */
module EventStore {
  import opened Events

  datatype Pipeline = Operational | Analytical

  /** Primary keys: operational.events_std is keyed by id, analytical.events_ts by (created_at, id). */
  datatype Key = ById(id: Uuid) | ByTimeAndId(createdAt: Instant, id: Uuid)

  type Table = map<Key, EventRow>

  function KeyOf(p: Pipeline, r: EventRow): Key {
    if p == Operational then ById(r.id) else ByTimeAndId(r.createdAt, r.id)
  }

  /** INSERT of one row with ON CONFLICT (primary key) DO NOTHING. */
  function InsertIgnore(p: Pipeline, t: Table, r: EventRow): Table {
    if KeyOf(p, r) in t then t else t[KeyOf(p, r) := r]
  }

  /** The rows inserted one statement after another. */
  function InsertAll(p: Pipeline, t: Table, rows: seq<EventRow>): Table
    decreases |rows|
  {
    if rows == [] then t else InsertAll(p, InsertIgnore(p, t, rows[0]), rows[1..])
  }

  ghost function KeySet(p: Pipeline, rows: seq<EventRow>): set<Key> {
    set r | r in rows :: KeyOf(p, r)
  }

  /** Row i is the first of the sequence that carries its key. */
  ghost predicate FirstOfKey(p: Pipeline, rows: seq<EventRow>, i: nat)
    requires i < |rows|
  {
    forall j :: 0 <= j < i ==> KeyOf(p, rows[j]) != KeyOf(p, rows[i])
  }

  // ---- What insertion means ----

  /** Exactly the new keys are added. */
  lemma {:induction false} InsertAllKeys(p: Pipeline, t: Table, rows: seq<EventRow>)
    ensures InsertAll(p, t, rows).Keys == t.Keys + KeySet(p, rows)
    decreases |rows|
  {
    if rows == [] {
    } else {
      InsertAllKeys(p, InsertIgnore(p, t, rows[0]), rows[1..]);
      assert rows == [rows[0]] + rows[1..];
      assert KeySet(p, rows) == {KeyOf(p, rows[0])} + KeySet(p, rows[1..]);
    }
  }

  /** Rows already stored are never changed, and a new key gets the first row that carried it. */
  lemma {:induction false} InsertAllFirstWins(p: Pipeline, t: Table, rows: seq<EventRow>)
    ensures forall k :: k in t ==> k in InsertAll(p, t, rows) && InsertAll(p, t, rows)[k] == t[k]
    ensures forall i :: 0 <= i < |rows| && FirstOfKey(p, rows, i) && KeyOf(p, rows[i]) !in t ==>
              KeyOf(p, rows[i]) in InsertAll(p, t, rows) &&
              InsertAll(p, t, rows)[KeyOf(p, rows[i])] == rows[i]
    decreases |rows|
  {
    if rows == [] {
    } else {
      var t1, rest := InsertIgnore(p, t, rows[0]), rows[1..];
      InsertAllFirstWins(p, t1, rest);
      forall i | 0 <= i < |rows| && FirstOfKey(p, rows, i) && KeyOf(p, rows[i]) !in t
        ensures KeyOf(p, rows[i]) in InsertAll(p, t, rows)
        ensures InsertAll(p, t, rows)[KeyOf(p, rows[i])] == rows[i]
      {
        if i > 0 {
          assert rest[i - 1] == rows[i];
          assert KeyOf(p, rows[0]) != KeyOf(p, rows[i]);
          assert FirstOfKey(p, rest, i - 1) by {
            forall j | 0 <= j < i - 1 ensures KeyOf(p, rest[j]) != KeyOf(p, rest[i - 1]) {
              assert rest[j] == rows[j + 1];
            }
          }
        }
      }
    }
  }

  /** A stored row is an old row, or one of the inserted rows under its own key. */
  lemma {:induction false} InsertAllSources(p: Pipeline, t: Table, rows: seq<EventRow>, k: Key)
    requires k in InsertAll(p, t, rows) && k !in t
    ensures InsertAll(p, t, rows)[k] in rows && KeyOf(p, InsertAll(p, t, rows)[k]) == k
    decreases |rows|
  {
    var t1 := InsertIgnore(p, t, rows[0]);
    if k in t1 {
      InsertAllFirstWins(p, t1, rows[1..]);
    } else {
      InsertAllSources(p, t1, rows[1..], k);
    }
  }

  lemma {:induction false} InsertAllConcat(p: Pipeline, t: Table, a: seq<EventRow>, b: seq<EventRow>)
    ensures InsertAll(p, t, a + b) == InsertAll(p, InsertAll(p, t, a), b)
    decreases |a|
  {
    if a == [] {
      assert a + b == b;
    } else {
      assert (a + b)[1..] == a[1..] + b;
      InsertAllConcat(p, InsertIgnore(p, t, a[0]), a[1..], b);
    }
  }

  lemma SameRowsSameKeys(p: Pipeline, a: seq<EventRow>, b: seq<EventRow>)
    requires multiset(a) == multiset(b)
    ensures KeySet(p, a) == KeySet(p, b)
  {
    forall r ensures r in a <==> r in b {
      assert r in multiset(a) <==> r in multiset(b);
    }
  }

  // ---- Batches against single inserts ----

  function Flatten(batches: seq<seq<EventRow>>): seq<EventRow> {
    if batches == [] then [] else batches[0] + Flatten(batches[1..])
  }

  /** INSERT ... SELECT of each batch in turn; scans[i] is the order in which batch i was read back. */
  function InsertBatches(p: Pipeline, t: Table, scans: seq<seq<EventRow>>): Table
    decreases |scans|
  {
    if scans == [] then t else InsertBatches(p, InsertAll(p, t, scans[0]), scans[1..])
  }

  lemma {:induction false} FlattenRows(a: seq<seq<EventRow>>, b: seq<seq<EventRow>>)
    requires |a| == |b|
    requires forall i :: 0 <= i < |a| ==> multiset(a[i]) == multiset(b[i])
    ensures multiset(Flatten(a)) == multiset(Flatten(b))
    decreases |a|
  {
    if a != [] {
      FlattenRows(a[1..], b[1..]);
    }
  }

  lemma {:induction false} InsertBatchesFlat(p: Pipeline, t: Table, scans: seq<seq<EventRow>>)
    ensures InsertBatches(p, t, scans) == InsertAll(p, t, Flatten(scans))
    decreases |scans|
  {
    if scans != [] {
      InsertBatchesFlat(p, InsertAll(p, t, scans[0]), scans[1..]);
      InsertAllConcat(p, t, scans[0], Flatten(scans[1..]));
    }
  }

  /** However a stream of rows is cut into batches, and in whatever order each staged batch is read
      back, the table ends with exactly the keys that one insert per row, in any order, gives. */
  lemma BatchesRefineSingleInserts(
    p: Pipeline, t: Table, batches: seq<seq<EventRow>>, scans: seq<seq<EventRow>>, singles: seq<EventRow>)
    requires |scans| == |batches|
    requires forall i :: 0 <= i < |batches| ==> multiset(scans[i]) == multiset(batches[i])
    requires multiset(singles) == multiset(Flatten(batches))
    ensures InsertBatches(p, t, scans).Keys == InsertAll(p, t, singles).Keys
  {
    InsertBatchesFlat(p, t, scans);
    FlattenRows(scans, batches);
    SameRowsSameKeys(p, Flatten(scans), singles);
    InsertAllKeys(p, t, Flatten(scans));
    InsertAllKeys(p, t, singles);
  }

  /** What a batch adds, when it is staged behind nothing else. */
  lemma CopiedKeys(p: Pipeline, t: Table, staged: seq<EventRow>, rows: seq<EventRow>, scan: seq<EventRow>)
    requires staged == []
    requires multiset(scan) == multiset(staged + rows)
    ensures multiset(scan) == multiset(rows)
    ensures InsertAll(p, t, scan).Keys == t.Keys + KeySet(p, rows)
    ensures rows == [] ==> InsertAll(p, t, scan) == t
  {
    assert staged + rows == rows;
    InsertAllKeys(p, t, scan);
    SameRowsSameKeys(p, scan, rows);
    assert |multiset(scan)| == |scan| && |multiset(rows)| == |rows|;
  }

  // ---- What a model is stored as ----

  /** The zero value of an id. The column has a generated default, which the ORM leaves to the database when
      the id is zero; COPY sends the id as it is. */
  const NIL_ID: Uuid := 0

  /** How a batch reaches the database: ids are the ones the database would generate, one per model. */
  datatype Via = Copied | Created(ids: seq<Uuid>)

  predicate ViaFor(via: Via, n: nat) { via.Created? ==> |via.ids| == n }

  /** The ORM's insert of one model, with the id the database would generate. */
  function CreatedRow(m: EventModel, id: Uuid): EventRow {
    ToRow(if m.id == NIL_ID then m.(id := id) else m)
  }

  function StoredRows(models: seq<EventModel>, via: Via): (rows: seq<EventRow>)
    requires ViaFor(via, |models|)
    ensures |rows| == |models|
    ensures forall i :: 0 <= i < |models| ==>
              rows[i] == if via.Copied? then ToRow(models[i]) else CreatedRow(models[i], via.ids[i])
  {
    seq(|models|, i requires 0 <= i < |models| =>
      if via.Copied? then ToRow(models[i]) else CreatedRow(models[i], via.ids[i]))
  }

  predicate NoNil(models: seq<EventModel>) {
    forall m :: m in models ==> m.id != NIL_ID
  }

  /** Without a nil id both ways store the same rows. */
  lemma StoredAsGiven(models: seq<EventModel>, via: Via)
    requires ViaFor(via, |models|) && (via.Copied? || NoNil(models))
    ensures StoredRows(models, via) == ToRows(models)
  {
    assert forall i :: 0 <= i < |models| ==> models[i] in models;
  }

  /** The ORM's insert has exactly the keys of its models if and only if none of them has the nil id. A
      generated id is never nil. */
  lemma CreatedKeysIffNoNil(p: Pipeline, models: seq<EventModel>, ids: seq<Uuid>)
    requires |ids| == |models| && NIL_ID !in ids
    ensures KeySet(p, StoredRows(models, Created(ids))) == KeySet(p, ToRows(models)) <==> NoNil(models)
  {
    var stored, given := StoredRows(models, Created(ids)), ToRows(models);
    if NoNil(models) {
      StoredAsGiven(models, Created(ids));
    } else {
      var m :| m in models && m.id == NIL_ID;
      var i :| 0 <= i < |models| && models[i] == m;
      assert given[i] in given;
      assert KeyOf(p, given[i]) in KeySet(p, given);
      forall r | r in stored ensures r.id != NIL_ID {
        var j :| 0 <= j < |stored| && stored[j] == r;
        assert ids[j] in ids;
      }
      assert KeyOf(p, given[i]) !in KeySet(p, stored);
    }
  }

  /** The row holds the columns of one of the models, under the model's id unless that is nil. */
  ghost predicate RowOfSome(r: EventRow, models: seq<EventModel>) {
    exists m :: m in models && HoldsColumns(r, m) && (m.id != NIL_ID ==> r.id == m.id)
  }

  lemma StoredRowsHoldModels(models: seq<EventModel>, via: Via)
    requires ViaFor(via, |models|)
    ensures forall r :: r in StoredRows(models, via) ==> RowOfSome(r, models)
  {
    forall r | r in StoredRows(models, via) ensures RowOfSome(r, models) {
      var i :| 0 <= i < |models| && StoredRows(models, via)[i] == r;
      assert models[i] in models && HoldsColumns(r, models[i]);
    }
  }

  /** Old rows stay, and a new one holds one of the models under its own key. */
  ghost predicate GrownBy(p: Pipeline, was: Table, now: Table, models: seq<EventModel>) {
    forall k :: k in was || k in now ==>
      k in now && if k in was then now[k] == was[k] else KeyOf(p, now[k]) == k && RowOfSome(now[k], models)
  }

  lemma InsertedModels(p: Pipeline, t: Table, rows: seq<EventRow>, models: seq<EventModel>)
    requires forall r :: r in rows ==> RowOfSome(r, models)
    ensures GrownBy(p, t, InsertAll(p, t, rows), models)
  {
    var t' := InsertAll(p, t, rows);
    InsertAllFirstWins(p, t, rows);
    forall k | k in t' && k !in t ensures KeyOf(p, t'[k]) == k && RowOfSome(t'[k], models) {
      InsertAllSources(p, t, rows, k);
    }
  }

  /** What a batch leaves when the staging table is read back in the order of scan, or the ORM inserts it. */
  lemma BatchHoldsModels(p: Pipeline, t: Table, models: seq<EventModel>, via: Via, scan: seq<EventRow>)
    requires ViaFor(via, |models|) && multiset(scan) == multiset(ToRows(models))
    ensures GrownBy(p, t, InsertAll(p, t, if via.Copied? then scan else StoredRows(models, via)), models)
  {
    StoredRowsHoldModels(models, via);
    if via.Copied? {
      assert StoredRows(models, via) == ToRows(models);
      forall r | r in scan ensures RowOfSome(r, models) {
        assert r in multiset(scan);
      }
    }
    InsertedModels(p, t, if via.Copied? then scan else StoredRows(models, via), models);
  }

  // ---- The staged COPY ----

  /** The parameter rows of the COPY, in the order of the batch. */
  method BuildRows(models: seq<EventModel>) returns (rows: seq<EventRow>)
    ensures rows == ToRows(models)
  {
    rows := [];
    for i := 0 to |models|
      invariant rows == ToRows(models)[..i]
    {
      rows := rows + [ToRow(models[i])];
    }
  }

  datatype CopyError = CreateTempFailed | CopyFromFailed | InsertFailed | CommitFailed | FallbackFailed

  /** The answers of the database during one call. */
  datatype CopyAnswers = CopyAnswers(
    acquired: bool, begun: bool, created: bool, copied: bool, inserted: bool, committed: bool,
    fallbackOk: bool, generate: nat -> Uuid)
  {
    /** Without a session or a transaction the batch goes through the ORM. */
    function Route(n: nat): (via: Via)
      ensures ViaFor(via, n)
    {
      if acquired && begun then Copied else Created(seq(n, i requires 0 <= i < n => generate(i)))
    }

    /** The first step that failed, or None: without a session or a transaction only the fallback counts. */
    function Verdict(): Option<CopyError> {
      if !acquired || !begun then if fallbackOk then None else Some(FallbackFailed)
      else if !created then Some(CreateTempFailed)
      else if !copied then Some(CopyFromFailed)
      else if !inserted then Some(InsertFailed)
      else if !committed then Some(CommitFailed)
      else None
    }
  }

  /** One pooled database session. Its temporary table survives the transactions that use it. */
  class Connection {
    var inTransaction: bool
    var tempExists: bool
    var tempExistedAtBegin: bool
    var staged: seq<EventRow>
    var pending: seq<EventRow>

    /** A session as the pool hands it out. */
    ghost predicate Idle()
      reads this
    {
      !inTransaction && staged == [] && pending == []
    }

    constructor ()
      ensures Idle() && !tempExists
    {
      inTransaction, tempExists, tempExistedAtBegin, staged, pending := false, false, false, [], [];
    }

    method Begin()
      requires Idle()
      modifies this
      ensures inTransaction && staged == [] && pending == []
      ensures tempExists == tempExistedAtBegin == old(tempExists)
    {
      inTransaction, tempExistedAtBegin := true, tempExists;
    }

    /** CREATE TEMP TABLE IF NOT EXISTS ... ON COMMIT DELETE ROWS. */
    method CreateTemp()
      requires inTransaction
      modifies this`tempExists
      ensures tempExists
    {
      tempExists := true;
    }

    method CopyFrom(rows: seq<EventRow>)
      requires inTransaction && tempExists
      modifies this`staged
      ensures staged == old(staged) + rows
    {
      staged := staged + rows;
    }

    /** INSERT INTO the event table SELECT ... FROM the staging table: the rows become visible at commit.
        scan is the order in which the database reads the staging table. */
    method InsertSelect(scan: seq<EventRow>)
      requires inTransaction && tempExists
      requires multiset(scan) == multiset(staged)
      modifies this`pending
      ensures pending == scan
    {
      pending := scan;
    }

    method Commit(store: Store)
      requires inTransaction && tempExists
      modifies this, store`table
      ensures Idle() && tempExists
      ensures store.table == InsertAll(store.pipeline, old(store.table), old(pending))
    {
      store.table := InsertAll(store.pipeline, store.table, pending);
      inTransaction, staged, pending := false, [], [];
    }

    /** Undoes the staged rows, the pending rows and a table creation of this transaction. */
    method Rollback()
      requires inTransaction
      modifies this
      ensures Idle() && tempExists == old(tempExistedAtBegin)
    {
      inTransaction, tempExists, staged, pending := false, tempExistedAtBegin, [], [];
    }
  }

  /** The committed contents of one event table. */
  class Store {
    const pipeline: Pipeline
    var table: Table

    constructor (pipeline: Pipeline)
      ensures this.pipeline == pipeline && table == map[]
    {
      this.pipeline := pipeline;
      table := map[];
    }

    /** One batch through the staging table, or through a plain multi-row insert when no session or
        no transaction can be had. Whatever happens, the session goes back to the pool with an empty
        staging table, so no later transaction on it can insert a row of this batch. */
    method CopyBatch(conn: Connection, models: seq<EventModel>, db: CopyAnswers, scan: seq<EventRow>)
      returns (err: Option<CopyError>)
      requires conn.Idle()
      requires multiset(scan) == multiset(conn.staged + ToRows(models))
      modifies this`table, conn
      ensures conn.Idle()
      ensures err == None ==>
                table == InsertAll(pipeline, old(table),
                                   if db.Route(|models|).Copied? then scan else StoredRows(models, db.Route(|models|)))
      ensures err == None ==>
                table.Keys == old(table).Keys + KeySet(pipeline, StoredRows(models, db.Route(|models|)))
      ensures err == None && (db.Route(|models|).Copied? || NoNil(models)) ==>
                table.Keys == old(table).Keys + KeySet(pipeline, ToRows(models))
      ensures err == None ==> GrownBy(pipeline, old(table), table, models)
      ensures err != None ==> table == old(table)
      ensures models == [] ==> table == old(table)
      ensures err == if models == [] then None else db.Verdict()
    {
      ghost var via := db.Route(|models|);
      CopiedKeys(pipeline, table, conn.staged, ToRows(models), scan);
      BatchHoldsModels(pipeline, table, models, via, scan);
      if via.Copied? || NoNil(models) {
        StoredAsGiven(models, via);
      }
      if |models| == 0 {
        return None;
      }
      if !db.acquired || !db.begun {
        if !db.fallbackOk {
          return Some(FallbackFailed);
        }
        InsertAllKeys(pipeline, table, StoredRows(models, db.Route(|models|)));
        table := InsertAll(pipeline, table, StoredRows(models, db.Route(|models|)));
        return None;
      }
      conn.Begin();
      if !db.created {
        conn.Rollback();
        return Some(CreateTempFailed);
      }
      conn.CreateTemp();
      var rows := BuildRows(models);
      if !db.copied {
        conn.Rollback();
        return Some(CopyFromFailed);
      }
      conn.CopyFrom(rows);
      if !db.inserted {
        conn.Rollback();
        return Some(InsertFailed);
      }
      conn.InsertSelect(scan);
      if !db.committed {
        conn.Rollback();
        return Some(CommitFailed);
      }
      conn.Commit(this);
      return None;
    }
  }

  /** The synchronous write: two independent single inserts by the ORM, the operational one first, each with
      its own generated id should the event have the nil one. When the second fails the first is not undone. */
  method SaveEvent(op: Store, an: Store, m: EventModel, opOk: bool, anOk: bool, opId: Uuid, anId: Uuid)
    returns (ok: bool)
    requires op.pipeline == Operational && an.pipeline == Analytical
    modifies op`table, an`table
    ensures ok <==> opOk && anOk
    ensures op.table == if opOk then InsertIgnore(Operational, old(op.table), CreatedRow(m, opId)) else old(op.table)
    ensures an.table ==
            if opOk && anOk then InsertIgnore(Analytical, old(an.table), CreatedRow(m, anId)) else old(an.table)
    ensures GrownBy(Operational, old(op.table), op.table, [m]) && GrownBy(Analytical, old(an.table), an.table, [m])
  {
    if !opOk {
      return false;
    }
    op.table := InsertIgnore(Operational, op.table, CreatedRow(m, opId));
    if !anOk {
      return false;
    }
    an.table := InsertIgnore(Analytical, an.table, CreatedRow(m, anId));
    return true;
  }
}
