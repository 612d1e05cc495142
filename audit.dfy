/** Audit retention (packages/core/audit.py): each persisted callback is
    appended as one row of the SQLite table `audit_logs`, whose `id` is an
    AUTOINCREMENT key. The store maps each database path to its table; the
    table is a sequence of rows with the next id to hand out. */
module Audit {
  import opened Results
  import opened Json
  import opened Schema
  import opened CallbackSchema
  import opened Events

  // ---------------------------------------------------------------------
  // The table

  /** One row: the id and the four TEXT NOT NULL columns. The payload is
      the canonical (keys sorted at every level) form of the record that
      `json.dumps(..., sort_keys=True)` renders. */
  datatype Row = Row(id: int, storedAt: Json, jobId: Json, status: Json, payloadJson: Json)

  /** The rows in insertion order, and the id the next insert receives (one
      more than the largest id ever handed out). */
  datatype Table = Table(rows: seq<Row>, nextId: int)

  const EmptyTable := Table([], 1)

  /** What AUTOINCREMENT guarantees: ids strictly increase along the rows
      and stay below the next id. */
  predicate ValidTable(t: Table) {
    && t.nextId >= 1
    && (forall i :: 0 <= i < |t.rows| ==> 1 <= t.rows[i].id < t.nextId)
    && (forall i, j :: 0 <= i < j < |t.rows| ==> t.rows[i].id < t.rows[j].id)
  }

  /** The `INSERT`: one row at the end, with the next id. */
  function AppendRow(t: Table, storedAt: Json, jobId: Json, status: Json, payload: Json): (t': Table)
    requires ValidTable(t)
    ensures ValidTable(t')
    ensures |t'.rows| == |t.rows| + 1 && t'.rows[..|t.rows|] == t.rows
    ensures t'.rows[|t.rows|] == Row(t.nextId, storedAt, jobId, status, payload)
    ensures forall i :: 0 <= i < |t.rows| ==> t.rows[i].id < t'.rows[|t.rows|].id
  {
    Table(t.rows + [Row(t.nextId, storedAt, jobId, status, payload)], t.nextId + 1)
  }

  /** Appending twice keeps both rows, in order, with increasing ids. */
  lemma AppendTwice(t: Table, a: Row, b: Row)
    requires ValidTable(t)
    ensures var t1 := AppendRow(t, a.storedAt, a.jobId, a.status, a.payloadJson);
      var t2 := AppendRow(t1, b.storedAt, b.jobId, b.status, b.payloadJson);
      && |t2.rows| == |t.rows| + 2
      && t2.rows[..|t.rows|] == t.rows
      && t2.rows[|t.rows|].id < t2.rows[|t.rows| + 1].id
  {
    var t1 := AppendRow(t, a.storedAt, a.jobId, a.status, a.payloadJson);
    var t2 := AppendRow(t1, b.storedAt, b.jobId, b.status, b.payloadJson);
    assert t2.rows[..|t.rows|] == t1.rows[..|t1.rows|][..|t.rows|];
  }

  // ---------------------------------------------------------------------
  // The values an insert binds

  /** Why `_write_row` raises. Building the parameter tuple reads the three
      keys first (`KeyError`); `execute` then binds the parameters in order
      (a list or dict is refused, an integer outside SQLite's signed 64 bits
      overflows), and only the insert itself meets the NOT NULL columns. */
  datatype WriteError =
    | MissingKey(key: string)
    | Unsupported(column: string)
    | Overflow(column: string)
    | NullColumn(column: string)

  const MinSqliteInteger := -0x8000_0000_0000_0000
  const MaxSqliteInteger := 0x7FFF_FFFF_FFFF_FFFF

  /** A value sqlite3 can bind as a parameter: a scalar, and an integer
      only within 64 bits. */
  predicate Bindable(v: Json) {
    !v.Arr? && !v.Obj? && (v.Int? ==> MinSqliteInteger <= v.i <= MaxSqliteInteger)
  }

  /** `record[key]`. */
  function Column(record: Fields, key: string): (r: Result<Json, WriteError>)
    ensures r.Ok? <==> Lookup(record, key).Some?
    ensures r.Ok? ==> Lookup(record, key) == Some(r.value)
    ensures r.Err? ==> r.error == MissingKey(key)
  {
    match Lookup(record, key)
    case None => Err(MissingKey(key))
    case Some(v) => Ok(v)
  }

  /** Binding one parameter. */
  function Bind(column: string, v: Json): (r: Result<(), WriteError>)
    ensures r.Ok? <==> Bindable(v)
    ensures r.Err? ==> r.error == Unsupported(column) || r.error == Overflow(column)
  {
    if v.Arr? || v.Obj? then Err(Unsupported(column))
    else if v.Int? && !(MinSqliteInteger <= v.i <= MaxSqliteInteger) then Err(Overflow(column))
    else Ok(())
  }

  /** What the insert needs of one column: the key, a bindable value, and
      not `None`. */
  predicate Storable(record: Fields, key: string) {
    Lookup(record, key).Some? && Bindable(Lookup(record, key).value) && !Lookup(record, key).value.Null?
  }

  /** The three column values `record["stored_at"]`, `record["job_id"]`,
      `record["status"]`, through the three stages of the insert. */
  function RowValues(record: Fields): (r: Result<(Json, Json, Json), WriteError>)
    ensures r.Ok? <==> Storable(record, "stored_at") && Storable(record, "job_id") && Storable(record, "status")
    ensures r.Ok? ==> Lookup(record, "stored_at") == Some(r.value.0)
    ensures r.Ok? ==> Lookup(record, "job_id") == Some(r.value.1)
    ensures r.Ok? ==> Lookup(record, "status") == Some(r.value.2)
    ensures Lookup(record, "stored_at").None? ==> r == Err(MissingKey("stored_at"))
    ensures (Lookup(record, "stored_at").None? || Lookup(record, "job_id").None? || Lookup(record, "status").None?)
            <==> r.Err? && r.error.MissingKey?
    ensures r.Err? && r.error.NullColumn? ==>
      && Bindable(Lookup(record, "stored_at").value)
      && Bindable(Lookup(record, "job_id").value)
      && Bindable(Lookup(record, "status").value)
  {
    var storedAt :- Column(record, "stored_at");
    var jobId :- Column(record, "job_id");
    var status :- Column(record, "status");
    var _ :- Bind("stored_at", storedAt);
    var _ :- Bind("job_id", jobId);
    var _ :- Bind("status", status);
    if storedAt.Null? then Err(NullColumn("stored_at"))
    else if jobId.Null? then Err(NullColumn("job_id"))
    else if status.Null? then Err(NullColumn("status"))
    else Ok((storedAt, jobId, status))
  }

  /** `payload_json`: the whole record, keys sorted. */
  function Payload(record: Fields): Json {
    SortKeys(Obj(record))
  }

  /** The payload is in canonical form: keys sorted at every level. */
  lemma PayloadSorted(record: Fields)
    ensures KeysSorted(Payload(record))
  {
    SortKeysSorted(Obj(record));
  }

  /** Records equal in Python's sense, whatever the insertion order of
      their keys at any depth, are stored as the same payload. */
  lemma PayloadDeterministic(a: Fields, b: Fields)
    requires PyEq(Obj(a), Obj(b))
    ensures Payload(a) == Payload(b)
  {
    PyEqSameText(Obj(a), Obj(b));
  }

  /** A nested dict written in another order changes nothing: the records
      `{"o": {"x": 1, "y": 2}}` and `{"o": {"y": 2, "x": 1}}` give one
      payload. */
  lemma NestedOrderIgnored()
    ensures Payload([("o", Obj([("x", Int(1)), ("y", Int(2))]))])
         == Payload([("o", Obj([("y", Int(2)), ("x", Int(1))]))])
  {
    var inner1: Fields := [("x", Int(1)), ("y", Int(2))];
    var inner2: Fields := [("y", Int(2)), ("x", Int(1))];
    SwappedPairEqual();
    assert Keys([("o", Obj(inner1))]) == ["o"] && Keys([("o", Obj(inner2))]) == ["o"];
    assert PyEq(Obj([("o", Obj(inner1))]), Obj([("o", Obj(inner2))]));
    PayloadDeterministic([("o", Obj(inner1))], [("o", Obj(inner2))]);
  }

  /** `{"x": 1, "y": 2} == {"y": 2, "x": 1}` in Python. */
  lemma SwappedPairEqual()
    ensures PyEq(Obj([("x", Int(1)), ("y", Int(2))]), Obj([("y", Int(2)), ("x", Int(1))]))
  {
    var inner1: Fields := [("x", Int(1)), ("y", Int(2))];
    var inner2: Fields := [("y", Int(2)), ("x", Int(1))];
    assert Keys(inner1) == ["x", "y"] && Keys(inner2) == ["y", "x"];
    assert Lookup(inner2, "x") == Some(Int(1)) && Lookup(inner2, "y") == Some(Int(2));
  }

  // ---------------------------------------------------------------------
  // The record of a callback

  /** `{"stored_at": now.isoformat(), **callback.model_dump(mode="json")}`:
      `stored_at` first, then the callback's fields in declaration order. */
  function AuditRecord(callback: JobCallback, now: string): (record: Fields)
    ensures Keys(record) == ["stored_at"] + JobCallbackFieldNames
  {
    var d := DumpJobCallback(callback);
    assert Keys([("stored_at", Str(now))] + d) == ["stored_at"] + Keys(d);
    [("stored_at", Str(now))] + d
  }

  lemma AuditRecordNamesDistinct()
    ensures Distinct(["stored_at"] + JobCallbackFieldNames)
  {
    JobCallbackFieldNamesDistinct();
    StoredAtNotCallbackField();
    DistinctCons("stored_at", JobCallbackFieldNames);
  }

  lemma StoredAtNotCallbackField()
    ensures "stored_at" !in JobCallbackFieldNames
  {
  }

  /** The record is a real dict: no key is repeated, so `stored_at` does
      not clash with a callback field. */
  lemma AuditRecordKeys(callback: JobCallback, now: string)
    ensures UniqueKeys(AuditRecord(callback, now))
  {
    AuditRecordNamesDistinct();
  }

  /** The stored payload holds the whole record: sorting its keys, at
      every depth, drops and changes nothing, provided the callback's own
      dicts (`outputs` and each entry's `details`) repeat no key, as real
      Python dicts never do. */
  lemma PayloadKeepsRecord(callback: JobCallback, now: string)
    requires DeepUnique(Obj(callback.outputs))
    requires forall i :: 0 <= i < |callback.audit| ==> DeepUnique(Obj(callback.audit[i].details))
    ensures PyEq(Payload(AuditRecord(callback, now)), Obj(AuditRecord(callback, now)))
  {
    var record := AuditRecord(callback, now);
    AuditRecordKeys(callback, now);
    CallbackDumpDeepUnique(callback);
    assert record[1..] == DumpJobCallback(callback);
    forall i | 0 <= i < |record| ensures DeepUnique(record[i].1) {
      if i > 0 {
        assert record[i] == DumpJobCallback(callback)[i - 1];
      }
    }
    SortKeysKeeps(Obj(record));
  }

  /** Every value of a callback's dump is free of repeated keys when its
      `outputs` and `details` dicts are. */
  lemma CallbackDumpDeepUnique(callback: JobCallback)
    requires DeepUnique(Obj(callback.outputs))
    requires forall i :: 0 <= i < |callback.audit| ==> DeepUnique(Obj(callback.audit[i].details))
    ensures forall i :: 0 <= i < |DumpJobCallback(callback)| ==> DeepUnique(DumpJobCallback(callback)[i].1)
  {
    var entries := DumpAuditList(callback.audit);
    forall i | 0 <= i < |entries| ensures DeepUnique(entries[i]) {
      EntryDumpDeepUnique(callback.audit[i]);
    }
    assert DeepUnique(Arr(entries));
    var vs := [Str(callback.jobId), Str(CallbackStatusText(callback.status)), Obj(callback.outputs),
               StrOrNull(callback.errorCode), StrOrNull(callback.errorMessage), Arr(entries),
               StrOrNull(callback.startedAt), StrOrNull(callback.completedAt), StrOrNull(callback.executionId)];
    assert forall i :: 0 <= i < |vs| ==> DeepUnique(vs[i]);
    assert DumpJobCallback(callback) == Zip(JobCallbackFieldNames, vs);
  }

  lemma EntryDumpDeepUnique(e: AuditEntry)
    requires DeepUnique(Obj(e.details))
    ensures DeepUnique(DumpAuditEntry(e))
  {
    var vs := [Str(e.timestamp), Str(e.action), Str(e.nodeName), Obj(e.details), Int(e.durationMs)];
    AuditEntryFieldNamesDistinct();
    assert DumpAuditEntry(e) == Obj(Zip(AuditEntryFieldNames, vs));
    assert forall i :: 0 <= i < |vs| ==> DeepUnique(vs[i]);
  }

  /** The record is the callback's fields plus `stored_at`: every callback
      field keeps its dumped value, and `stored_at` holds the time. */
  lemma AuditRecordFields(callback: JobCallback, now: string)
    ensures Lookup(AuditRecord(callback, now), "stored_at") == Some(Str(now))
    ensures forall k :: k != "stored_at" ==> Lookup(AuditRecord(callback, now), k) == Lookup(DumpJobCallback(callback), k)
  {
    var record := AuditRecord(callback, now);
    var d := DumpJobCallback(callback);
    JobCallbackKeysDeclared(callback);
    AuditRecordNamesDistinct();
    assert (["stored_at"] + JobCallbackFieldNames)[1..] == JobCallbackFieldNames;
    assert record[1..] == d;
    LookupAbsent(d, "stored_at");
  }

  /** Nothing of the callback is lost: without `stored_at` the record is
      the callback's dump, which validates back to the callback itself. */
  lemma AuditRecordKeepsCallback(callback: JobCallback, now: string, fmt: Formats)
    requires ValidCallback(callback, fmt)
    ensures ParseJobCallback(AuditRecord(callback, now)[1..], fmt) == Ok(callback)
  {
    assert AuditRecord(callback, now)[1..] == DumpJobCallback(callback);
    JobCallbackRoundTrip(callback, fmt);
  }

  /** The record of a callback always binds: `stored_at`, `job_id` and
      `status` are strings, the two last copied from the callback. */
  lemma AuditRecordColumns(callback: JobCallback, now: string)
    ensures RowValues(AuditRecord(callback, now))
         == Ok((Str(now), Str(callback.jobId), Str(CallbackStatusText(callback.status))))
  {
    AuditRecordFields(callback, now);
    JobCallbackLookups(callback);
  }

  /** `Path(db_path or settings.audit_db_path)`: `db_path` is a `Path` or
      `None`, and a `Path` is always true (even `Path("")`), so the given
      path whenever there is one. */
  function TargetPath(dbPath: Option<string>, defaultPath: string): (p: string)
    ensures dbPath.Some? ==> p == dbPath.value
    ensures dbPath.None? ==> p == defaultPath
  {
    if dbPath.Some? then dbPath.value else defaultPath
  }

  /** `settings.audit_db_path` as configured by default. */
  const DefaultAuditDbPath := "data/audit.db"

  /** Without a path and with the default settings, the audit goes to
      `data/audit.db`; a given path is used even when it is empty. */
  lemma DefaultTarget(path: string)
    ensures TargetPath(None, DefaultAuditDbPath) == "data/audit.db"
    ensures TargetPath(Some(path), DefaultAuditDbPath) == path
  {
  }

  function PersistedEvent(callback: JobCallback): LogEvent {
    LogEvent(Info, "audit persisted", Some(callback.jobId), None, None,
             Some(CallbackStatusText(callback.status)), None)
  }

  // ---------------------------------------------------------------------
  // The store

  /** The table of a database file; a file not yet written holds none, and
      `_ensure_schema` would create it empty. */
  function TableAt(files: map<string, Table>, path: string): Table {
    if path in files then files[path] else EmptyTable
  }

  /** Writing a path twice leaves only the second value. */
  lemma UpdateTwice(files: map<string, Table>, path: string, first: Table, second: Table)
    ensures files[path := first][path := second] == files[path := second]
  {
  }

  class AuditStore {
    /** The `audit_logs` table of every database file that has one. */
    var files: map<string, Table>

    ghost predicate Valid()
      reads this
    {
      forall p :: p in files ==> ValidTable(files[p])
    }

    constructor()
      ensures Valid() && files == map[]
    {
      files := map[];
    }

    /** `_ensure_schema`: `CREATE TABLE IF NOT EXISTS`, so an existing table
        is left exactly as it was. */
    method EnsureSchema(path: string)
      requires Valid()
      modifies this
      ensures Valid()
      ensures path in files && files[path] == TableAt(old(files), path)
      ensures path in old(files) ==> files == old(files)
      ensures files == old(files)[path := TableAt(old(files), path)]
    {
      if path !in files {
        files := files[path := EmptyTable];
      }
    }

    /** `_write_row(path, record)`: create the table if needed (that part is
        committed even when the insert fails), then insert one row or raise. */
    method WriteRow(path: string, record: Fields) returns (r: Result<int, WriteError>)
      requires Valid()
      modifies this
      ensures Valid()
      ensures r.Ok? <==> RowValues(record).Ok?
      ensures RowValues(record).Err? ==> r == Err(RowValues(record).error)
      ensures var t := TableAt(old(files), path);
        files == old(files)[path := if r.Ok? then
          AppendRow(t, RowValues(record).value.0, RowValues(record).value.1, RowValues(record).value.2, Payload(record))
        else t]
      ensures r.Ok? ==> r.value == TableAt(old(files), path).nextId
    {
      EnsureSchema(path);
      var values := RowValues(record);
      if values.Err? {
        return Err(values.error);
      }
      var t := files[path];
      var t' := AppendRow(t, values.value.0, values.value.1, values.value.2, Payload(record));
      UpdateTwice(old(files), path, t, t');
      files := files[path := t'];
      r := Ok(t.nextId);
    }

    /** `persist_audit(callback, db_path)`: append exactly one row for the
        callback to the chosen file, leave every other file and every
        earlier row alone, log it, and return the path written to. */
    method PersistAudit(callback: JobCallback, dbPath: Option<string>, defaultPath: string, now: string)
        returns (target: string, events: seq<LogEvent>)
      requires Valid()
      modifies this
      ensures Valid()
      ensures target == TargetPath(dbPath, defaultPath)
      ensures var t := TableAt(old(files), target);
        files == old(files)[target := AppendRow(t, Str(now), Str(callback.jobId),
                                                Str(CallbackStatusText(callback.status)),
                                                Payload(AuditRecord(callback, now)))]
      ensures events == [PersistedEvent(callback)]
    {
      target := TargetPath(dbPath, defaultPath);
      var record := AuditRecord(callback, now);
      AuditRecordColumns(callback, now);
      var r := WriteRow(target, record);
      events := [PersistedEvent(callback)];
    }
  }
}
