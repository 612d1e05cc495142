/** The callback payloads n8n posts back: `CallbackStatus`, the per-node
    `AuditEntry` and the `JobCallback` that carries a list of them
    (packages/core/schemas/callback.py).

    As for the job payloads, each schema is a datatype, a `Valid` predicate,
    a parser in pydantic's role and the `model_dump(mode="json")` form. The
    audit list is parsed entry by entry, in order, and the callback is valid
    only when every entry is. */
module CallbackSchema {
  import opened Results
  import opened Json
  import opened Schema

  // ---------------------------------------------------------------------
  // CallbackStatus

  datatype CallbackStatus = Success | Failed

  /** The `StrEnum` value of each member. */
  function CallbackStatusText(s: CallbackStatus): string {
    match s
    case Success => "success"
    case Failed => "failed"
  }

  /** `CallbackStatus(t)`: only "success" and "failed" name a member. */
  function ParseCallbackStatus(t: string): Option<CallbackStatus> {
    if t == "success" then Some(Success)
    else if t == "failed" then Some(Failed)
    else None
  }

  lemma CallbackStatusTextNames(t: string, s: CallbackStatus)
    ensures ParseCallbackStatus(t) == Some(s) <==> CallbackStatusText(s) == t
  {
  }

  /** `status: CallbackStatus`: required, one of the two values. */
  function RequiredCallbackStatus(fs: Fields, key: string): (r: Result<CallbackStatus, SchemaError>)
    ensures r.Ok? ==> Lookup(fs, key) == Some(Str(CallbackStatusText(r.value)))
    ensures forall s :: Lookup(fs, key) == Some(Str(CallbackStatusText(s))) ==> r == Ok(s)
  {
    match Lookup(fs, key)
    case None => Err(Missing(key))
    case Some(v) =>
      if !v.Str? then Err(WrongType(key))
      else
        assert forall s :: ParseCallbackStatus(v.s) == Some(s) <==> CallbackStatusText(s) == v.s by {
          forall s { CallbackStatusTextNames(v.s, s); }
        }
        match ParseCallbackStatus(v.s)
        case None => Err(OutOfRange(key))
        case Some(s) => Ok(s)
  }

  // ---------------------------------------------------------------------
  // AuditEntry

  datatype AuditEntry = AuditEntry(
    timestamp: string,
    action: string,
    nodeName: string,
    details: Fields,
    durationMs: int)

  const DefaultDurationMs := 0
  const MinDurationMs := 0

  const AuditEntryFieldNames: seq<string> :=
    ["timestamp", "action", "node_name", "details", "duration_ms"]

  const AuditEntryFields: set<string> := set k | k in AuditEntryFieldNames

  /** The field constraints of `AuditEntry`. */
  predicate ValidAuditEntry(e: AuditEntry, fmt: Formats) {
    fmt.isDatetime(e.timestamp) && e.durationMs >= MinDurationMs
  }

  /** Validating one element of the `audit` list as an `AuditEntry`: what
      it accepts is a valid entry built from an object with no undeclared
      key. */
  function ParseAuditEntry(v: Json, fmt: Formats): (r: Result<AuditEntry, SchemaError>)
    ensures !v.Obj? ==> r == Err(NotAnObject)
    ensures r.Ok? ==> ValidAuditEntry(r.value, fmt)
    ensures r.Ok? ==> v.Obj? && forall i :: 0 <= i < |v.fields| ==> v.fields[i].0 in AuditEntryFields
  {
    if !v.Obj? then Err(NotAnObject)
    else
      var raw := v.fields;
      var timestamp :- RequiredDatetime(raw, "timestamp", fmt);
      var action :- RequiredStr(raw, "action", 0);
      var nodeName :- RequiredStr(raw, "node_name", 0);
      var details :- DictOrEmpty(raw, "details");
      var durationMs :- BoundedInt(raw, "duration_ms", DefaultDurationMs, MinDurationMs, None);
      var _ :- ForbidExtra(raw, AuditEntryFields);
      Ok(AuditEntry(timestamp, action, nodeName, details, durationMs))
  }

  /** `entry.model_dump(mode="json")`: an object of every field in
      declaration order. */
  function DumpAuditEntry(e: AuditEntry): (d: Json)
    ensures d.Obj? && Keys(d.fields) == AuditEntryFieldNames
  {
    ZipKeys(AuditEntryFieldNames,
            [Str(e.timestamp), Str(e.action), Str(e.nodeName), Obj(e.details), Int(e.durationMs)]);
    Obj(Zip(AuditEntryFieldNames,
            [Str(e.timestamp), Str(e.action), Str(e.nodeName), Obj(e.details), Int(e.durationMs)]))
  }

  /** A negative `duration_ms` is rejected. */
  lemma AuditEntryRejectsNegativeDuration(v: Json, fmt: Formats)
    requires v.Obj? && Lookup(v.fields, "duration_ms").Some?
    requires Lookup(v.fields, "duration_ms").value.Int? && Lookup(v.fields, "duration_ms").value.i < 0
    ensures ParseAuditEntry(v, fmt).Err?
  {
  }

  lemma AuditEntryForbidsExtra(v: Json, fmt: Formats, k: string)
    requires v.Obj? && k in Keys(v.fields) && k !in AuditEntryFields
    ensures ParseAuditEntry(v, fmt).Err?
  {
    var i :| 0 <= i < |Keys(v.fields)| && Keys(v.fields)[i] == k;
    assert v.fields[i].0 !in AuditEntryFields;
    assert ForbidExtra(v.fields, AuditEntryFields).Err?;
  }

  /** An entry given only `timestamp`, `action` and `node_name` gets empty
      `details` and a `duration_ms` of 0. */
  lemma AuditEntryDefaults(timestamp: string, action: string, nodeName: string, fmt: Formats)
    requires fmt.isDatetime(timestamp)
    ensures ParseAuditEntry(Obj(Zip(["timestamp", "action", "node_name"], [Str(timestamp), Str(action), Str(nodeName)])), fmt)
         == Ok(AuditEntry(timestamp, action, nodeName, [], DefaultDurationMs))
  {
    var raw := Zip(["timestamp", "action", "node_name"], [Str(timestamp), Str(action), Str(nodeName)]);
    MinimalEntryReads(timestamp, action, nodeName, fmt);
    assert RequiredDatetime(raw, "timestamp", fmt) == Ok(timestamp);
    assert ForbidExtra(raw, AuditEntryFields) == Ok(());
  }

  /** Each field reader on the minimal entry: the three given strings, and
      the defaults for the two absent fields. */
  lemma MinimalEntryReads(timestamp: string, action: string, nodeName: string, fmt: Formats)
    ensures var raw := Zip(["timestamp", "action", "node_name"], [Str(timestamp), Str(action), Str(nodeName)]);
      && (RequiredDatetime(raw, "timestamp", fmt).Ok? <==> fmt.isDatetime(timestamp))
      && (RequiredDatetime(raw, "timestamp", fmt).Ok? ==> RequiredDatetime(raw, "timestamp", fmt).value == timestamp)
      && RequiredStr(raw, "action", 0) == Ok(action)
      && RequiredStr(raw, "node_name", 0) == Ok(nodeName)
      && DictOrEmpty(raw, "details") == Ok([])
      && BoundedInt(raw, "duration_ms", DefaultDurationMs, MinDurationMs, None) == Ok(DefaultDurationMs)
      && (forall i :: 0 <= i < |raw| ==> raw[i].0 in AuditEntryFields)
  {
    var ks, vs := ["timestamp", "action", "node_name"], [Str(timestamp), Str(action), Str(nodeName)];
    var raw := Zip(ks, vs);
    assert Distinct(ks) by { PairwiseDistinct(ks); }
    LookupZip(ks, vs, 0);
    LookupZip(ks, vs, 1);
    LookupZip(ks, vs, 2);
    ZipKeys(ks, vs);
    LookupAbsent(raw, "details");
    LookupAbsent(raw, "duration_ms");
    assert forall i :: 0 <= i < |raw| ==> raw[i].0 in AuditEntryFields;
  }

  lemma AuditEntryFieldNamesDistinct()
    ensures Distinct(AuditEntryFieldNames)
  {
    PairwiseDistinct(AuditEntryFieldNames);
  }

  lemma AuditEntryLookups(e: AuditEntry)
    ensures DumpAuditEntry(e).Obj?
    ensures Lookup(DumpAuditEntry(e).fields, "timestamp") == Some(Str(e.timestamp))
    ensures Lookup(DumpAuditEntry(e).fields, "action") == Some(Str(e.action))
    ensures Lookup(DumpAuditEntry(e).fields, "node_name") == Some(Str(e.nodeName))
    ensures Lookup(DumpAuditEntry(e).fields, "details") == Some(Obj(e.details))
    ensures Lookup(DumpAuditEntry(e).fields, "duration_ms") == Some(Int(e.durationMs))
  {
    var ks := AuditEntryFieldNames;
    var vs := [Str(e.timestamp), Str(e.action), Str(e.nodeName), Obj(e.details), Int(e.durationMs)];
    AuditEntryFieldNamesDistinct();
    LookupZip(ks, vs, 0);
    LookupZip(ks, vs, 1);
    LookupZip(ks, vs, 2);
    LookupZip(ks, vs, 3);
    LookupZip(ks, vs, 4);
  }

  /** Each field reader finds, in the dump of an entry, the value that
      entry holds. */
  lemma AuditEntryDumpReads(e: AuditEntry, fmt: Formats)
    ensures var d := DumpAuditEntry(e).fields;
      && (RequiredDatetime(d, "timestamp", fmt).Ok? <==> fmt.isDatetime(e.timestamp))
      && (RequiredDatetime(d, "timestamp", fmt).Ok? ==> RequiredDatetime(d, "timestamp", fmt).value == e.timestamp)
      && RequiredStr(d, "action", 0) == Ok(e.action)
      && RequiredStr(d, "node_name", 0) == Ok(e.nodeName)
      && DictOrEmpty(d, "details") == Ok(e.details)
      && (BoundedInt(d, "duration_ms", DefaultDurationMs, MinDurationMs, None).Ok? <==> e.durationMs >= MinDurationMs)
      && (BoundedInt(d, "duration_ms", DefaultDurationMs, MinDurationMs, None).Ok? ==>
          BoundedInt(d, "duration_ms", DefaultDurationMs, MinDurationMs, None).value == e.durationMs)
  {
    AuditEntryLookups(e);
  }

  lemma AuditEntryKeysDeclared(e: AuditEntry)
    ensures ForbidExtra(DumpAuditEntry(e).fields, AuditEntryFields) == Ok(())
  {
    var d := DumpAuditEntry(e).fields;
    forall i | 0 <= i < |d| ensures d[i].0 in AuditEntryFields {
      assert d[i].0 == Keys(d)[i] == AuditEntryFieldNames[i];
    }
  }

  /** The dump of an entry parses back to the same entry exactly when the
      entry is valid. */
  lemma AuditEntryRoundTrip(e: AuditEntry, fmt: Formats)
    ensures ParseAuditEntry(DumpAuditEntry(e), fmt).Ok? <==> ValidAuditEntry(e, fmt)
    ensures ParseAuditEntry(DumpAuditEntry(e), fmt).Ok? ==> ParseAuditEntry(DumpAuditEntry(e), fmt).value == e
  {
    AuditEntryDumpReads(e, fmt);
    AuditEntryKeysDeclared(e);
  }

  // ---------------------------------------------------------------------
  // The audit list

  /** `list[AuditEntry]`: every element must parse; the entries keep the
      order of the elements they came from. */
  function ParseAuditList(items: seq<Json>, fmt: Formats): (r: Result<seq<AuditEntry>, SchemaError>)
    ensures r.Ok? <==> forall i :: 0 <= i < |items| ==> ParseAuditEntry(items[i], fmt).Ok?
    ensures r.Ok? ==> |r.value| == |items|
    ensures r.Ok? ==> forall i :: 0 <= i < |items| ==> ParseAuditEntry(items[i], fmt) == Ok(r.value[i])
    decreases |items|
  {
    if items == [] then Ok([])
    else
      var e :- ParseAuditEntry(items[0], fmt);
      var rest :- ParseAuditList(items[1..], fmt);
      assert forall i :: 1 <= i < |items| ==> items[i] == items[1..][i - 1];
      Ok([e] + rest)
  }

  /** The JSON form of an audit list: each entry's dump, in order. */
  function DumpAuditList(es: seq<AuditEntry>): (items: seq<Json>)
    ensures |items| == |es|
    ensures forall i :: 0 <= i < |es| ==> items[i] == DumpAuditEntry(es[i])
  {
    seq(|es|, i requires 0 <= i < |es| => DumpAuditEntry(es[i]))
  }

  /** `audit: list[AuditEntry] = Field(default_factory=list)`. */
  function AuditListOrEmpty(fs: Fields, key: string, fmt: Formats): (r: Result<seq<AuditEntry>, SchemaError>)
    ensures Lookup(fs, key).None? ==> r == Ok([])
    ensures Lookup(fs, key).Some? ==>
      (r.Ok? <==> Lookup(fs, key).value.Arr? && ParseAuditList(Lookup(fs, key).value.items, fmt).Ok?)
    ensures Lookup(fs, key).Some? && r.Ok? ==> r == ParseAuditList(Lookup(fs, key).value.items, fmt)
  {
    match Lookup(fs, key)
    case None => Ok([])
    case Some(v) => if v.Arr? then ParseAuditList(v.items, fmt) else Err(WrongType(key))
  }

  /** A list of entries survives dump-then-parse, in the same order,
      exactly when every entry is valid. */
  lemma AuditListRoundTrip(es: seq<AuditEntry>, fmt: Formats)
    ensures ParseAuditList(DumpAuditList(es), fmt).Ok? <==> forall i :: 0 <= i < |es| ==> ValidAuditEntry(es[i], fmt)
    ensures ParseAuditList(DumpAuditList(es), fmt).Ok? ==> ParseAuditList(DumpAuditList(es), fmt).value == es
  {
    var items := DumpAuditList(es);
    forall i | 0 <= i < |es|
      ensures ParseAuditEntry(items[i], fmt).Ok? <==> ValidAuditEntry(es[i], fmt)
      ensures ParseAuditEntry(items[i], fmt).Ok? ==> ParseAuditEntry(items[i], fmt).value == es[i]
    {
      AuditEntryRoundTrip(es[i], fmt);
    }
  }

  // ---------------------------------------------------------------------
  // JobCallback

  datatype JobCallback = JobCallback(
    jobId: string,
    status: CallbackStatus,
    outputs: Fields,
    errorCode: Option<string>,
    errorMessage: Option<string>,
    audit: seq<AuditEntry>,
    startedAt: Option<string>,
    completedAt: Option<string>,
    executionId: Option<string>)

  const JobCallbackFieldNames: seq<string> :=
    ["job_id", "status", "outputs", "error_code", "error_message", "audit",
     "started_at", "completed_at", "execution_id"]

  const JobCallbackFields: set<string> := set k | k in JobCallbackFieldNames

  /** The field constraints of `JobCallback`: every audit entry is valid and
      the timestamps are datetimes. */
  predicate ValidCallback(c: JobCallback, fmt: Formats) {
    && (forall i :: 0 <= i < |c.audit| ==> ValidAuditEntry(c.audit[i], fmt))
    && (c.startedAt.Some? ==> fmt.isDatetime(c.startedAt.value))
    && (c.completedAt.Some? ==> fmt.isDatetime(c.completedAt.value))
  }

  /** Validating a raw JSON object as a `JobCallback`: what it accepts is
      valid and uses no undeclared key. */
  function ParseJobCallback(raw: Fields, fmt: Formats): (r: Result<JobCallback, SchemaError>)
    ensures r.Ok? ==> ValidCallback(r.value, fmt)
    ensures r.Ok? ==> forall i :: 0 <= i < |raw| ==> raw[i].0 in JobCallbackFields
  {
    var jobId :- RequiredStr(raw, "job_id", 0);
    var status :- RequiredCallbackStatus(raw, "status");
    var outputs :- DictOrEmpty(raw, "outputs");
    var errorCode :- OptionalStr(raw, "error_code");
    var errorMessage :- OptionalStr(raw, "error_message");
    var audit :- AuditListOrEmpty(raw, "audit", fmt);
    var startedAt :- OptionalDatetime(raw, "started_at", fmt);
    var completedAt :- OptionalDatetime(raw, "completed_at", fmt);
    var executionId :- OptionalStr(raw, "execution_id");
    var _ :- ForbidExtra(raw, JobCallbackFields);
    Ok(JobCallback(jobId, status, outputs, errorCode, errorMessage, audit, startedAt, completedAt, executionId))
  }

  /** `JobCallback.model_validate_json`, after the body has been decoded:
      the top-level value must be an object. */
  function ParseCallbackDocument(doc: Json, fmt: Formats): (r: Result<JobCallback, SchemaError>)
    ensures !doc.Obj? ==> r == Err(NotAnObject)
    ensures doc.Obj? ==> r == ParseJobCallback(doc.fields, fmt)
  {
    if doc.Obj? then ParseJobCallback(doc.fields, fmt) else Err(NotAnObject)
  }

  /** `callback.model_dump(mode="json")`: every field in declaration order,
      absent optionals as `null`. */
  function DumpJobCallback(c: JobCallback): (d: Fields)
    ensures Keys(d) == JobCallbackFieldNames
  {
    ZipKeys(JobCallbackFieldNames,
            [Str(c.jobId), Str(CallbackStatusText(c.status)), Obj(c.outputs),
             StrOrNull(c.errorCode), StrOrNull(c.errorMessage), Arr(DumpAuditList(c.audit)),
             StrOrNull(c.startedAt), StrOrNull(c.completedAt), StrOrNull(c.executionId)]);
    Zip(JobCallbackFieldNames,
        [Str(c.jobId), Str(CallbackStatusText(c.status)), Obj(c.outputs),
         StrOrNull(c.errorCode), StrOrNull(c.errorMessage), Arr(DumpAuditList(c.audit)),
         StrOrNull(c.startedAt), StrOrNull(c.completedAt), StrOrNull(c.executionId)])
  }

  /** The audit entries of a parsed callback are the elements of the given
      `audit` array, parsed one by one and kept in the same order. */
  lemma CallbackAuditInOrder(raw: Fields, fmt: Formats)
    requires ParseJobCallback(raw, fmt).Ok? && Lookup(raw, "audit").Some?
    ensures Lookup(raw, "audit").value.Arr?
    ensures var items := Lookup(raw, "audit").value.items;
      var audit := ParseJobCallback(raw, fmt).value.audit;
      && |audit| == |items|
      && forall i :: 0 <= i < |items| ==> ParseAuditEntry(items[i], fmt) == Ok(audit[i])
  {
    CallbackAuditField(raw, fmt);
  }

  /** The `audit` field of a parsed callback is what the field reader
      returned for it. */
  lemma CallbackAuditField(raw: Fields, fmt: Formats)
    requires ParseJobCallback(raw, fmt).Ok?
    ensures AuditListOrEmpty(raw, "audit", fmt) == Ok(ParseJobCallback(raw, fmt).value.audit)
  {
  }

  /** One invalid entry anywhere in the `audit` array rejects the callback. */
  lemma CallbackRejectsInvalidEntry(raw: Fields, fmt: Formats, k: nat)
    requires Lookup(raw, "audit").Some? && Lookup(raw, "audit").value.Arr?
    requires k < |Lookup(raw, "audit").value.items|
    requires ParseAuditEntry(Lookup(raw, "audit").value.items[k], fmt).Err?
    ensures ParseJobCallback(raw, fmt).Err?
  {
  }

  lemma JobCallbackForbidsExtra(raw: Fields, fmt: Formats, k: string)
    requires k in Keys(raw) && k !in JobCallbackFields
    ensures ParseJobCallback(raw, fmt).Err?
  {
    var i :| 0 <= i < |Keys(raw)| && Keys(raw)[i] == k;
    assert raw[i].0 !in JobCallbackFields;
    assert ForbidExtra(raw, JobCallbackFields).Err?;
  }

  /** A payload holding only `job_id` and `status` gets empty `outputs`, an
      empty `audit` list and every optional field absent. */
  lemma JobCallbackDefaults(jobId: string, status: CallbackStatus, fmt: Formats)
    ensures ParseJobCallback(Zip(["job_id", "status"], [Str(jobId), Str(CallbackStatusText(status))]), fmt)
         == Ok(JobCallback(jobId, status, [], None, None, [], None, None, None))
  {
    var ks, vs := ["job_id", "status"], [Str(jobId), Str(CallbackStatusText(status))];
    var raw := Zip(ks, vs);
    LookupZip(ks, vs, 0);
    LookupZip(ks, vs, 1);
    ZipKeys(ks, vs);
    LookupAbsent(raw, "outputs");
    LookupAbsent(raw, "error_code");
    LookupAbsent(raw, "error_message");
    LookupAbsent(raw, "audit");
    LookupAbsent(raw, "started_at");
    LookupAbsent(raw, "completed_at");
    LookupAbsent(raw, "execution_id");
    assert forall i :: 0 <= i < |raw| ==> raw[i].0 in JobCallbackFields;
    assert RequiredStr(raw, "job_id", 0) == Ok(jobId);
    assert RequiredCallbackStatus(raw, "status") == Ok(status);
    assert DictOrEmpty(raw, "outputs") == Ok([]);
    assert AuditListOrEmpty(raw, "audit", fmt) == Ok([]);
    assert ForbidExtra(raw, JobCallbackFields) == Ok(());
  }

  lemma JobCallbackFieldNamesDistinct()
    ensures Distinct(JobCallbackFieldNames)
  {
    var ks := JobCallbackFieldNames;
    var tags := [6 * 256 + 'j' as int, 6 * 256 + 's' as int, 7 * 256 + 'o' as int, 10 * 256 + 'e' as int,
                 13 * 256 + 'e' as int, 5 * 256 + 'a' as int, 10 * 256 + 's' as int, 12 * 256 + 'c' as int,
                 12 * 256 + 'e' as int];
    assert forall i :: 0 <= i < |ks| ==> NameTag(ks[i]) == tags[i];
    TagsDistinct(ks);
  }

  lemma JobCallbackLookups(c: JobCallback)
    ensures Lookup(DumpJobCallback(c), "job_id") == Some(Str(c.jobId))
    ensures Lookup(DumpJobCallback(c), "status") == Some(Str(CallbackStatusText(c.status)))
    ensures Lookup(DumpJobCallback(c), "outputs") == Some(Obj(c.outputs))
    ensures Lookup(DumpJobCallback(c), "error_code") == Some(StrOrNull(c.errorCode))
    ensures Lookup(DumpJobCallback(c), "error_message") == Some(StrOrNull(c.errorMessage))
    ensures Lookup(DumpJobCallback(c), "audit") == Some(Arr(DumpAuditList(c.audit)))
    ensures Lookup(DumpJobCallback(c), "started_at") == Some(StrOrNull(c.startedAt))
    ensures Lookup(DumpJobCallback(c), "completed_at") == Some(StrOrNull(c.completedAt))
    ensures Lookup(DumpJobCallback(c), "execution_id") == Some(StrOrNull(c.executionId))
  {
    var ks := JobCallbackFieldNames;
    var vs := [Str(c.jobId), Str(CallbackStatusText(c.status)), Obj(c.outputs),
               StrOrNull(c.errorCode), StrOrNull(c.errorMessage), Arr(DumpAuditList(c.audit)),
               StrOrNull(c.startedAt), StrOrNull(c.completedAt), StrOrNull(c.executionId)];
    JobCallbackFieldNamesDistinct();
    LookupZip(ks, vs, 0);
    LookupZip(ks, vs, 1);
    LookupZip(ks, vs, 2);
    LookupZip(ks, vs, 3);
    LookupZip(ks, vs, 4);
    LookupZip(ks, vs, 5);
    LookupZip(ks, vs, 6);
    LookupZip(ks, vs, 7);
    LookupZip(ks, vs, 8);
  }

  lemma JobCallbackKeysDeclared(c: JobCallback)
    ensures forall i :: 0 <= i < |DumpJobCallback(c)| ==> DumpJobCallback(c)[i].0 in JobCallbackFields
  {
    var d := DumpJobCallback(c);
    forall i | 0 <= i < |d| ensures d[i].0 in JobCallbackFields {
      assert d[i].0 == Keys(d)[i] == JobCallbackFieldNames[i];
    }
  }

  /** Each field reader finds, in the dump of a callback, the value that
      callback holds. */
  lemma JobCallbackDumpReads(c: JobCallback, fmt: Formats)
    ensures var d := DumpJobCallback(c);
      && RequiredStr(d, "job_id", 0) == Ok(c.jobId)
      && RequiredCallbackStatus(d, "status") == Ok(c.status)
      && DictOrEmpty(d, "outputs") == Ok(c.outputs)
      && OptionalStr(d, "error_code") == Ok(c.errorCode)
      && OptionalStr(d, "error_message") == Ok(c.errorMessage)
      && OptionalStr(d, "execution_id") == Ok(c.executionId)
  {
    JobCallbackLookups(c);
  }

  lemma JobCallbackDumpRest(c: JobCallback, fmt: Formats)
    ensures var d := DumpJobCallback(c);
      && AuditListOrEmpty(d, "audit", fmt) == ParseAuditList(DumpAuditList(c.audit), fmt)
      && ForbidExtra(d, JobCallbackFields) == Ok(())
  {
    JobCallbackLookups(c);
    JobCallbackKeysDeclared(c);
  }

  lemma JobCallbackDumpDatetimes(c: JobCallback, fmt: Formats)
    ensures var d := DumpJobCallback(c);
      && (OptionalDatetime(d, "started_at", fmt).Ok? <==> (c.startedAt.Some? ==> fmt.isDatetime(c.startedAt.value)))
      && (OptionalDatetime(d, "started_at", fmt).Ok? ==> OptionalDatetime(d, "started_at", fmt).value == c.startedAt)
      && (OptionalDatetime(d, "completed_at", fmt).Ok? <==> (c.completedAt.Some? ==> fmt.isDatetime(c.completedAt.value)))
      && (OptionalDatetime(d, "completed_at", fmt).Ok? ==> OptionalDatetime(d, "completed_at", fmt).value == c.completedAt)
  {
    JobCallbackLookups(c);
  }

  /** The dump of a callback is accepted exactly when the callback is
      valid, and then parses back to the same callback, audit entries in
      the same order. */
  lemma JobCallbackRoundTrip(c: JobCallback, fmt: Formats)
    ensures ParseJobCallback(DumpJobCallback(c), fmt).Ok? <==> ValidCallback(c, fmt)
    ensures ParseJobCallback(DumpJobCallback(c), fmt).Ok? ==> ParseJobCallback(DumpJobCallback(c), fmt).value == c
  {
    JobCallbackDumpReads(c, fmt);
    JobCallbackDumpRest(c, fmt);
    JobCallbackDumpDatetimes(c, fmt);
    AuditListRoundTrip(c.audit, fmt);
  }
}
