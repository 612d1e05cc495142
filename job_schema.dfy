/** The job payloads: `JobStatus`, the inbound `JobRequest` and the
    synchronous `JobResponse` (packages/core/schemas/job.py).

    Each schema is a datatype, a `Valid` predicate stating its field
    constraints, a parser that plays pydantic's role (reject unknown keys,
    check types and bounds, fill in defaults) and the `model_dump(mode="json")`
    form. The lemmas tie the three together: whatever the parser accepts is
    valid, and every valid value survives dump-then-parse unchanged. */
module JobSchema {
  import opened Results
  import opened Json
  import opened Schema

  // ---------------------------------------------------------------------
  // JobStatus

  datatype JobStatus = Pending | Running | Success | Failed | Cancelled

  /** The `StrEnum` value of each member. */
  function StatusText(s: JobStatus): string {
    match s
    case Pending => "pending"
    case Running => "running"
    case Success => "success"
    case Failed => "failed"
    case Cancelled => "cancelled"
  }

  /** `JobStatus(t)`: the member whose value is `t`, if there is one. */
  function ParseStatus(t: string): Option<JobStatus> {
    if t == "pending" then Some(Pending)
    else if t == "running" then Some(Running)
    else if t == "success" then Some(Success)
    else if t == "failed" then Some(Failed)
    else if t == "cancelled" then Some(Cancelled)
    else None
  }

  /** The enum is closed: a text names a status exactly when it is that
      status's value, and no two statuses share a value. */
  lemma StatusTextNames(t: string, s: JobStatus)
    ensures ParseStatus(t) == Some(s) <==> StatusText(s) == t
  {
  }

  lemma StatusTextInjective(s: JobStatus, s': JobStatus)
    ensures StatusText(s) == StatusText(s') ==> s == s'
  {
  }

  // ---------------------------------------------------------------------
  // JobRequest

  datatype JobRequest = JobRequest(
    jobId: string,
    clientId: string,
    workflowKey: string,
    inputs: Fields,
    callbackUrl: string,
    priority: int,
    timeoutSeconds: int,
    metadata: Fields)

  const DefaultPriority := 5
  const MinPriority := 1
  const MaxPriority := 10
  const DefaultTimeoutSeconds := 300
  const MinTimeoutSeconds := 1

  /** The declared fields, in declaration order. */
  const JobRequestFieldNames: seq<string> :=
    ["job_id", "client_id", "workflow_key", "inputs", "callback_url",
     "priority", "timeout_seconds", "metadata"]

  const JobRequestFields: set<string> := set k | k in JobRequestFieldNames

  /** The field constraints of `JobRequest`. */
  predicate ValidRequest(r: JobRequest, fmt: Formats) {
    && |r.jobId| >= 1
    && |r.clientId| >= 1
    && |r.workflowKey| >= 1
    && fmt.isHttpUrl(r.callbackUrl)
    && MinPriority <= r.priority <= MaxPriority
    && r.timeoutSeconds >= MinTimeoutSeconds
  }

  /** Validating a raw JSON object as a `JobRequest`: what it accepts is
      valid and uses no undeclared key. */
  function ParseJobRequest(raw: Fields, fmt: Formats): (r: Result<JobRequest, SchemaError>)
    ensures r.Ok? ==> ValidRequest(r.value, fmt)
    ensures r.Ok? ==> forall i :: 0 <= i < |raw| ==> raw[i].0 in JobRequestFields
  {
    var jobId :- RequiredStr(raw, "job_id", 1);
    var clientId :- RequiredStr(raw, "client_id", 1);
    var workflowKey :- RequiredStr(raw, "workflow_key", 1);
    var inputs :- RequiredDict(raw, "inputs");
    var callbackUrl :- RequiredUrl(raw, "callback_url", fmt);
    var priority :- BoundedInt(raw, "priority", DefaultPriority, MinPriority, Some(MaxPriority));
    var timeoutSeconds :- BoundedInt(raw, "timeout_seconds", DefaultTimeoutSeconds, MinTimeoutSeconds, None);
    var metadata :- DictOrEmpty(raw, "metadata");
    var _ :- ForbidExtra(raw, JobRequestFields);
    Ok(JobRequest(jobId, clientId, workflowKey, inputs, callbackUrl, priority, timeoutSeconds, metadata))
  }

  /** `request.model_dump(mode="json")`: every field, in declaration order. */
  function DumpJobRequest(r: JobRequest): (d: Fields)
    ensures Keys(d) == JobRequestFieldNames
  {
    var vs := [Str(r.jobId), Str(r.clientId), Str(r.workflowKey), Obj(r.inputs), Str(r.callbackUrl),
               Int(r.priority), Int(r.timeoutSeconds), Obj(r.metadata)];
    ZipKeys(JobRequestFieldNames, vs);
    Zip(JobRequestFieldNames, vs)
  }

  /** The parser takes every given field from the payload unchanged. */
  lemma ParseJobRequestTakesGiven(raw: Fields, fmt: Formats)
    requires ParseJobRequest(raw, fmt).Ok?
    ensures var r := ParseJobRequest(raw, fmt).value;
      && Lookup(raw, "job_id") == Some(Str(r.jobId))
      && Lookup(raw, "client_id") == Some(Str(r.clientId))
      && Lookup(raw, "workflow_key") == Some(Str(r.workflowKey))
      && Lookup(raw, "inputs") == Some(Obj(r.inputs))
      && Lookup(raw, "callback_url") == Some(Str(r.callbackUrl))
      && (Lookup(raw, "priority").Some? ==> Lookup(raw, "priority") == Some(Int(r.priority)))
      && (Lookup(raw, "timeout_seconds").Some? ==> Lookup(raw, "timeout_seconds") == Some(Int(r.timeoutSeconds)))
      && (Lookup(raw, "metadata").Some? ==> Lookup(raw, "metadata") == Some(Obj(r.metadata)))
  {
  }

  /** Omitted optional fields take their defaults: priority 5, a timeout of
      300 seconds and empty metadata. */
  lemma ParseJobRequestDefaults(raw: Fields, fmt: Formats)
    requires ParseJobRequest(raw, fmt).Ok?
    ensures var r := ParseJobRequest(raw, fmt).value;
      && (Lookup(raw, "priority").None? ==> r.priority == DefaultPriority)
      && (Lookup(raw, "timeout_seconds").None? ==> r.timeoutSeconds == DefaultTimeoutSeconds)
      && (Lookup(raw, "metadata").None? ==> r.metadata == [])
  {
  }

  /** The payload the schema tests build: the five required fields and
      nothing else. */
  function MinimalRequest(jobId: string, clientId: string, workflowKey: string,
                          inputs: Fields, url: string): (raw: Fields)
    ensures Keys(raw) == ["job_id", "client_id", "workflow_key", "inputs", "callback_url"]
  {
    var ks := ["job_id", "client_id", "workflow_key", "inputs", "callback_url"];
    var vs := [Str(jobId), Str(clientId), Str(workflowKey), Obj(inputs), Str(url)];
    ZipKeys(ks, vs);
    Zip(ks, vs)
  }

  /** A payload giving only the five required fields is accepted exactly
      when those five are valid, and then takes priority 5, a timeout of
      300 seconds and empty metadata. */
  lemma JobRequestDefaultsAccepted(jobId: string, clientId: string, workflowKey: string,
                                   inputs: Fields, url: string, fmt: Formats)
    ensures var raw := MinimalRequest(jobId, clientId, workflowKey, inputs, url);
      && (ParseJobRequest(raw, fmt).Ok? <==>
            |jobId| >= 1 && |clientId| >= 1 && |workflowKey| >= 1 && fmt.isHttpUrl(url))
      && (ParseJobRequest(raw, fmt).Ok? ==>
            ParseJobRequest(raw, fmt).value
              == JobRequest(jobId, clientId, workflowKey, inputs, url, DefaultPriority, DefaultTimeoutSeconds, []))
  {
    MinimalRequestGiven(jobId, clientId, workflowKey, inputs, url);
    MinimalRequestOmits(jobId, clientId, workflowKey, inputs, url);
  }

  lemma MinimalRequestGiven(jobId: string, clientId: string, workflowKey: string,
                            inputs: Fields, url: string)
    ensures var raw := MinimalRequest(jobId, clientId, workflowKey, inputs, url);
      && Lookup(raw, "job_id") == Some(Str(jobId))
      && Lookup(raw, "client_id") == Some(Str(clientId))
      && Lookup(raw, "workflow_key") == Some(Str(workflowKey))
      && Lookup(raw, "inputs") == Some(Obj(inputs))
      && Lookup(raw, "callback_url") == Some(Str(url))
  {
    var ks := ["job_id", "client_id", "workflow_key", "inputs", "callback_url"];
    var vs := [Str(jobId), Str(clientId), Str(workflowKey), Obj(inputs), Str(url)];
    MinimalRequestNamesDistinct();
    LookupZip(ks, vs, 0);
    LookupZip(ks, vs, 1);
    LookupZip(ks, vs, 2);
    LookupZip(ks, vs, 3);
    LookupZip(ks, vs, 4);
  }

  lemma MinimalRequestOmits(jobId: string, clientId: string, workflowKey: string,
                            inputs: Fields, url: string)
    ensures var raw := MinimalRequest(jobId, clientId, workflowKey, inputs, url);
      && Lookup(raw, "priority").None?
      && Lookup(raw, "timeout_seconds").None?
      && Lookup(raw, "metadata").None?
      && forall i :: 0 <= i < |raw| ==> raw[i].0 in JobRequestFields
  {
    var raw := MinimalRequest(jobId, clientId, workflowKey, inputs, url);
    LookupAbsent(raw, "priority");
    LookupAbsent(raw, "timeout_seconds");
    LookupAbsent(raw, "metadata");
    forall i | 0 <= i < |raw| ensures raw[i].0 in JobRequestFields {
      assert raw[i].0 == Keys(raw)[i];
    }
  }

  lemma MinimalRequestNamesDistinct()
    ensures Distinct(["job_id", "client_id", "workflow_key", "inputs", "callback_url"])
  {
    var ks := ["job_id", "client_id", "workflow_key", "inputs", "callback_url"];
    var tags := [6 * 256 + 'j' as int, 9 * 256 + 'c' as int, 12 * 256 + 'w' as int,
                 6 * 256 + 'i' as int, 12 * 256 + 'c' as int];
    assert forall i :: 0 <= i < |ks| ==> NameTag(ks[i]) == tags[i];
    TagsDistinct(ks);
  }

  /** A key outside the declared set makes the payload invalid, whatever
      else it holds. */
  lemma JobRequestForbidsExtra(raw: Fields, fmt: Formats, k: string)
    requires k in Keys(raw) && k !in JobRequestFields
    ensures ParseJobRequest(raw, fmt).Err?
  {
    var i :| 0 <= i < |Keys(raw)| && Keys(raw)[i] == k;
    assert raw[i].0 !in JobRequestFields;
    assert ForbidExtra(raw, JobRequestFields).Err?;
  }

  lemma JobRequestFieldNamesDistinct()
    ensures Distinct(JobRequestFieldNames)
  {
    var ks := JobRequestFieldNames;
    var tags := [6 * 256 + 'j' as int, 9 * 256 + 'c' as int, 12 * 256 + 'w' as int, 6 * 256 + 'i' as int,
                 12 * 256 + 'c' as int, 8 * 256 + 'p' as int, 15 * 256 + 't' as int, 8 * 256 + 'm' as int];
    assert forall i :: 0 <= i < |ks| ==> NameTag(ks[i]) == tags[i];
    TagsDistinct(ks);
  }

  lemma JobRequestLookups(r: JobRequest)
    ensures Lookup(DumpJobRequest(r), "job_id") == Some(Str(r.jobId))
    ensures Lookup(DumpJobRequest(r), "client_id") == Some(Str(r.clientId))
    ensures Lookup(DumpJobRequest(r), "workflow_key") == Some(Str(r.workflowKey))
    ensures Lookup(DumpJobRequest(r), "inputs") == Some(Obj(r.inputs))
    ensures Lookup(DumpJobRequest(r), "callback_url") == Some(Str(r.callbackUrl))
    ensures Lookup(DumpJobRequest(r), "priority") == Some(Int(r.priority))
    ensures Lookup(DumpJobRequest(r), "timeout_seconds") == Some(Int(r.timeoutSeconds))
    ensures Lookup(DumpJobRequest(r), "metadata") == Some(Obj(r.metadata))
  {
    var vs := [Str(r.jobId), Str(r.clientId), Str(r.workflowKey), Obj(r.inputs), Str(r.callbackUrl),
               Int(r.priority), Int(r.timeoutSeconds), Obj(r.metadata)];
    var ks := JobRequestFieldNames;
    JobRequestFieldNamesDistinct();
    LookupZip(ks, vs, 0);
    LookupZip(ks, vs, 1);
    LookupZip(ks, vs, 2);
    LookupZip(ks, vs, 3);
    LookupZip(ks, vs, 4);
    LookupZip(ks, vs, 5);
    LookupZip(ks, vs, 6);
    LookupZip(ks, vs, 7);
  }

  /** The string fields read back from the dump of a request: each is
      accepted exactly when it is non-empty (the URL: well formed), and
      then reads as the request's value. */
  lemma JobRequestDumpReadsText(r: JobRequest, fmt: Formats)
    ensures var d := DumpJobRequest(r);
      && (RequiredStr(d, "job_id", 1).Ok? <==> |r.jobId| >= 1)
      && (RequiredStr(d, "job_id", 1).Ok? ==> RequiredStr(d, "job_id", 1).value == r.jobId)
      && (RequiredStr(d, "client_id", 1).Ok? <==> |r.clientId| >= 1)
      && (RequiredStr(d, "client_id", 1).Ok? ==> RequiredStr(d, "client_id", 1).value == r.clientId)
      && (RequiredStr(d, "workflow_key", 1).Ok? <==> |r.workflowKey| >= 1)
      && (RequiredStr(d, "workflow_key", 1).Ok? ==> RequiredStr(d, "workflow_key", 1).value == r.workflowKey)
      && (RequiredUrl(d, "callback_url", fmt).Ok? <==> fmt.isHttpUrl(r.callbackUrl))
      && (RequiredUrl(d, "callback_url", fmt).Ok? ==> RequiredUrl(d, "callback_url", fmt).value == r.callbackUrl)
  {
    JobRequestLookups(r);
  }

  /** The other fields read back from the dump of a request: the dicts
      unchanged, and the integers accepted exactly within their bounds. */
  lemma JobRequestDumpReadsRest(r: JobRequest)
    ensures var d := DumpJobRequest(r);
      && RequiredDict(d, "inputs") == Ok(r.inputs)
      && (BoundedInt(d, "priority", DefaultPriority, MinPriority, Some(MaxPriority)).Ok? <==>
          MinPriority <= r.priority <= MaxPriority)
      && (BoundedInt(d, "priority", DefaultPriority, MinPriority, Some(MaxPriority)).Ok? ==>
          BoundedInt(d, "priority", DefaultPriority, MinPriority, Some(MaxPriority)).value == r.priority)
      && (BoundedInt(d, "timeout_seconds", DefaultTimeoutSeconds, MinTimeoutSeconds, None).Ok? <==>
          r.timeoutSeconds >= MinTimeoutSeconds)
      && (BoundedInt(d, "timeout_seconds", DefaultTimeoutSeconds, MinTimeoutSeconds, None).Ok? ==>
          BoundedInt(d, "timeout_seconds", DefaultTimeoutSeconds, MinTimeoutSeconds, None).value == r.timeoutSeconds)
      && DictOrEmpty(d, "metadata") == Ok(r.metadata)
  {
    JobRequestLookups(r);
  }

  lemma JobRequestKeysDeclared(r: JobRequest)
    ensures ForbidExtra(DumpJobRequest(r), JobRequestFields) == Ok(())
  {
    var d := DumpJobRequest(r);
    forall i | 0 <= i < |d| ensures d[i].0 in JobRequestFields {
      assert d[i].0 == Keys(d)[i] == JobRequestFieldNames[i];
    }
  }

  /** The dump of a request is accepted exactly when the request satisfies
      the field constraints, and then parses back to the same request: no
      field is dropped or altered by serialisation. */
  lemma JobRequestRoundTrip(r: JobRequest, fmt: Formats)
    ensures ParseJobRequest(DumpJobRequest(r), fmt).Ok? <==> ValidRequest(r, fmt)
    ensures ParseJobRequest(DumpJobRequest(r), fmt).Ok? ==> ParseJobRequest(DumpJobRequest(r), fmt).value == r
  {
    JobRequestDumpReadsText(r, fmt);
    JobRequestDumpReadsRest(r);
    JobRequestKeysDeclared(r);
  }

  /** The literal cases of the schema tests: with the other fields fixed,
      priorities 0 and 11 and a timeout of 0 are rejected, priorities 1 and
      10 are accepted and kept, and an empty `job_id` is rejected. */
  lemma JobRequestBoundaryCases(r: JobRequest, fmt: Formats)
    requires ValidRequest(r, fmt)
    ensures ParseJobRequest(DumpJobRequest(r.(priority := 0)), fmt).Err?
    ensures ParseJobRequest(DumpJobRequest(r.(priority := 11)), fmt).Err?
    ensures ParseJobRequest(DumpJobRequest(r.(priority := 1)), fmt) == Ok(r.(priority := 1))
    ensures ParseJobRequest(DumpJobRequest(r.(priority := 10)), fmt) == Ok(r.(priority := 10))
    ensures ParseJobRequest(DumpJobRequest(r.(timeoutSeconds := 0)), fmt).Err?
    ensures ParseJobRequest(DumpJobRequest(r.(jobId := "")), fmt).Err?
  {
    JobRequestRoundTrip(r.(priority := 0), fmt);
    JobRequestRoundTrip(r.(priority := 11), fmt);
    JobRequestRoundTrip(r.(priority := 1), fmt);
    JobRequestRoundTrip(r.(priority := 10), fmt);
    JobRequestRoundTrip(r.(timeoutSeconds := 0), fmt);
    JobRequestRoundTrip(r.(jobId := ""), fmt);
  }

  // ---------------------------------------------------------------------
  // JobResponse

  datatype JobResponse = JobResponse(
    jobId: string,
    status: JobStatus,
    message: Option<string>,
    acceptedAt: Option<string>,
    estimatedCompletion: Option<string>)

  const JobResponseFieldNames: seq<string> :=
    ["job_id", "status", "message", "accepted_at", "estimated_completion"]

  const JobResponseFields: set<string> := set k | k in JobResponseFieldNames

  /** The field constraints of `JobResponse`: its timestamps are datetimes. */
  predicate ValidResponse(r: JobResponse, fmt: Formats) {
    && (r.acceptedAt.Some? ==> fmt.isDatetime(r.acceptedAt.value))
    && (r.estimatedCompletion.Some? ==> fmt.isDatetime(r.estimatedCompletion.value))
  }

  /** `status: JobStatus`: required, one of the five values. */
  function RequiredJobStatus(fs: Fields, key: string): (r: Result<JobStatus, SchemaError>)
    ensures r.Ok? ==> Lookup(fs, key) == Some(Str(StatusText(r.value)))
    ensures forall s :: Lookup(fs, key) == Some(Str(StatusText(s))) ==> r == Ok(s)
  {
    match Lookup(fs, key)
    case None => Err(Missing(key))
    case Some(v) =>
      if !v.Str? then Err(WrongType(key))
      else
        assert forall s :: ParseStatus(v.s) == Some(s) <==> StatusText(s) == v.s by {
          forall s { StatusTextNames(v.s, s); }
        }
        match ParseStatus(v.s)
        case None => Err(OutOfRange(key))
        case Some(s) => Ok(s)
  }

  /** Validating a raw JSON object as a `JobResponse`: what it accepts is
      valid and uses no undeclared key. */
  function ParseJobResponse(raw: Fields, fmt: Formats): (r: Result<JobResponse, SchemaError>)
    ensures r.Ok? ==> ValidResponse(r.value, fmt)
    ensures r.Ok? ==> forall i :: 0 <= i < |raw| ==> raw[i].0 in JobResponseFields
  {
    var jobId :- RequiredStr(raw, "job_id", 0);
    var status :- RequiredJobStatus(raw, "status");
    var message :- OptionalStr(raw, "message");
    var acceptedAt :- OptionalDatetime(raw, "accepted_at", fmt);
    var estimatedCompletion :- OptionalDatetime(raw, "estimated_completion", fmt);
    var _ :- ForbidExtra(raw, JobResponseFields);
    Ok(JobResponse(jobId, status, message, acceptedAt, estimatedCompletion))
  }

  /** `response.model_dump(mode="json")`, the body FastAPI sends. */
  function DumpJobResponse(r: JobResponse): (d: Fields)
    ensures Keys(d) == JobResponseFieldNames
  {
    ZipKeys(JobResponseFieldNames,
            [Str(r.jobId), Str(StatusText(r.status)), StrOrNull(r.message),
             StrOrNull(r.acceptedAt), StrOrNull(r.estimatedCompletion)]);
    Zip(JobResponseFieldNames,
        [Str(r.jobId), Str(StatusText(r.status)), StrOrNull(r.message),
         StrOrNull(r.acceptedAt), StrOrNull(r.estimatedCompletion)])
  }

  /** A key outside the declared set makes the payload invalid. */
  lemma JobResponseForbidsExtra(raw: Fields, fmt: Formats, k: string)
    requires k in Keys(raw) && k !in JobResponseFields
    ensures ParseJobResponse(raw, fmt).Err?
  {
    var i :| 0 <= i < |Keys(raw)| && Keys(raw)[i] == k;
    assert raw[i].0 !in JobResponseFields;
    assert ForbidExtra(raw, JobResponseFields).Err?;
  }

  /** `message`, `accepted_at` and `estimated_completion` default to None:
      a payload holding only `job_id` and `status` gives a response with
      those two fields and nothing else. */
  lemma JobResponseDefaults(jobId: string, status: JobStatus, fmt: Formats)
    ensures ParseJobResponse(Zip(["job_id", "status"], [Str(jobId), Str(StatusText(status))]), fmt)
         == Ok(JobResponse(jobId, status, None, None, None))
  {
    var ks, vs := ["job_id", "status"], [Str(jobId), Str(StatusText(status))];
    var raw := Zip(ks, vs);
    LookupZip(ks, vs, 0);
    LookupZip(ks, vs, 1);
    ZipKeys(ks, vs);
    LookupAbsent(raw, "message");
    LookupAbsent(raw, "accepted_at");
    LookupAbsent(raw, "estimated_completion");
    assert forall i :: 0 <= i < |raw| ==> raw[i].0 in JobResponseFields;
  }

  lemma JobResponseFieldNamesDistinct()
    ensures Distinct(JobResponseFieldNames)
  {
    PairwiseDistinct(JobResponseFieldNames);
  }

  lemma JobResponseLookups(r: JobResponse)
    ensures Lookup(DumpJobResponse(r), "job_id") == Some(Str(r.jobId))
    ensures Lookup(DumpJobResponse(r), "status") == Some(Str(StatusText(r.status)))
    ensures Lookup(DumpJobResponse(r), "message") == Some(StrOrNull(r.message))
    ensures Lookup(DumpJobResponse(r), "accepted_at") == Some(StrOrNull(r.acceptedAt))
    ensures Lookup(DumpJobResponse(r), "estimated_completion") == Some(StrOrNull(r.estimatedCompletion))
  {
    var ks := JobResponseFieldNames;
    var vs := [Str(r.jobId), Str(StatusText(r.status)), StrOrNull(r.message),
               StrOrNull(r.acceptedAt), StrOrNull(r.estimatedCompletion)];
    JobResponseFieldNamesDistinct();
    LookupZip(ks, vs, 0);
    LookupZip(ks, vs, 1);
    LookupZip(ks, vs, 2);
    LookupZip(ks, vs, 3);
    LookupZip(ks, vs, 4);
  }

  /** Each field reader finds, in the dump of a response, the value that
      response holds. */
  lemma JobResponseDumpReads(r: JobResponse, fmt: Formats)
    ensures var d := DumpJobResponse(r);
      && RequiredStr(d, "job_id", 0) == Ok(r.jobId)
      && RequiredJobStatus(d, "status") == Ok(r.status)
      && OptionalStr(d, "message") == Ok(r.message)
      && (OptionalDatetime(d, "accepted_at", fmt).Ok? <==> (r.acceptedAt.Some? ==> fmt.isDatetime(r.acceptedAt.value)))
      && (OptionalDatetime(d, "accepted_at", fmt).Ok? ==> OptionalDatetime(d, "accepted_at", fmt).value == r.acceptedAt)
      && (OptionalDatetime(d, "estimated_completion", fmt).Ok? <==>
          (r.estimatedCompletion.Some? ==> fmt.isDatetime(r.estimatedCompletion.value)))
      && (OptionalDatetime(d, "estimated_completion", fmt).Ok? ==>
          OptionalDatetime(d, "estimated_completion", fmt).value == r.estimatedCompletion)
  {
    JobResponseLookups(r);
  }

  lemma JobResponseKeysDeclared(r: JobResponse)
    ensures ForbidExtra(DumpJobResponse(r), JobResponseFields) == Ok(())
  {
    var d := DumpJobResponse(r);
    forall i | 0 <= i < |d| ensures d[i].0 in JobResponseFields {
      assert d[i].0 == Keys(d)[i] == JobResponseFieldNames[i];
    }
  }

  /** Every response with datetime timestamps survives dump-then-parse. */
  lemma JobResponseRoundTrip(r: JobResponse, fmt: Formats)
    ensures ParseJobResponse(DumpJobResponse(r), fmt).Ok? <==> ValidResponse(r, fmt)
    ensures ParseJobResponse(DumpJobResponse(r), fmt).Ok? ==> ParseJobResponse(DumpJobResponse(r), fmt).value == r
  {
    JobResponseDumpReads(r, fmt);
    JobResponseKeysDeclared(r);
  }
}
