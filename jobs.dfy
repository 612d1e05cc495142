/** The job route (apps/api/routes/v1/jobs.py): `create_job` admits a
    request for a known workflow with a pending acknowledgement and queues
    exactly one dispatch; `dispatch_to_n8n` posts the request to the n8n
    webhook of its workflow and turns every failure into a log event. */
module Jobs {
  import opened Results
  import opened Json
  import opened Schema
  import opened JobSchema
  import opened Registry
  import opened Events

  // ---------------------------------------------------------------------
  // Admission

  const UnknownWorkflow := HttpError(StatusBadRequest, "Unknown workflow_key")

  /** The decision of `create_job` once the registry has answered `known`
      for the request's workflow; `now` is the time of acceptance. */
  function Admit(request: JobRequest, known: bool, now: string): (r: Result<JobResponse, HttpError>)
    ensures !known <==> r.Err?
    ensures r.Err? ==> r.error == UnknownWorkflow
    ensures r.Ok? ==> r.value.jobId == request.jobId && r.value.status == Pending
    ensures r.Ok? ==> r.value.message == Some("accepted") && r.value.acceptedAt == Some(now)
    ensures r.Ok? ==> r.value.estimatedCompletion == None
  {
    if !known then Err(UnknownWorkflow)
    else Ok(JobResponse(request.jobId, Pending, Some("accepted"), Some(now), None))
  }

  /** The acknowledgement is a valid `JobResponse`, and the body the client
      receives reads back as that same response: the request's `job_id`,
      status "pending", message "accepted" and the acceptance time. */
  lemma AdmittedResponseOnTheWire(request: JobRequest, now: string, fmt: Formats)
    requires fmt.isDatetime(now)
    ensures Admit(request, true, now).Ok?
    ensures ValidResponse(Admit(request, true, now).value, fmt)
    ensures ParseJobResponse(DumpJobResponse(Admit(request, true, now).value), fmt)
         == Ok(JobResponse(request.jobId, Pending, Some("accepted"), Some(now), None))
    ensures Lookup(DumpJobResponse(Admit(request, true, now).value), "status") == Some(Str("pending"))
  {
    var resp := Admit(request, true, now).value;
    JobResponseRoundTrip(resp, fmt);
    JobResponseLookups(resp);
  }

  /** The "job accepted" event `create_job` logs. */
  function AcceptedEvent(request: JobRequest): LogEvent {
    LogEvent(Info, "job accepted", Some(request.jobId), Some(request.clientId),
             Some(request.workflowKey), Some(StatusText(Pending)), None)
  }

  /** FastAPI's `BackgroundTasks`: the dispatches queued during a request,
      run after the response is sent. */
  class BackgroundTasks {
    var queued: seq<JobRequest>

    constructor()
      ensures queued == []
    {
      queued := [];
    }

    /** `background_tasks.add_task(dispatch_to_n8n, request)`. */
    method AddTask(request: JobRequest)
      modifies this
      ensures queued == old(queued) + [request]
    {
      queued := queued + [request];
    }
  }

  /** `create_job`: ask the registry, then either reject with 400 and queue
      nothing, or answer 202 with a pending acknowledgement, queue exactly
      one dispatch of this very request and log its acceptance. A registry
      that cannot be loaded makes `workflow_exists` raise: 500, nothing
      queued. `file` and `decode` stand for the registry file on disk and
      `json.loads`; `now` for `datetime.now(timezone.utc)`. */
  method CreateJob(request: JobRequest, registry: RegistryCache, tasks: BackgroundTasks,
                   file: Option<string>, decode: string -> Option<Json>, now: string)
      returns (r: Result<JobResponse, HttpError>, events: seq<LogEvent>)
    requires registry.Valid()
    modifies registry, tasks
    ensures registry.Valid()
    ensures old(registry.cached).None? && LoadRegistry(file, decode).Err? ==>
      r == Err(InternalError) && tasks.queued == old(tasks.queued) && events == []
    ensures registry.cached.Some? ==>
      var known := AnyKey(registry.cached.value.workflows, request.workflowKey);
      && r == Admit(request, known, now)
      && (known ==> tasks.queued == old(tasks.queued) + [request] && events == [AcceptedEvent(request)])
      && (!known ==> tasks.queued == old(tasks.queued) && events == [])
    ensures old(registry.cached).Some? ==> registry.cached == old(registry.cached)
    ensures old(registry.cached).None? && LoadRegistry(file, decode).Ok? ==>
      registry.cached == Some(LoadRegistry(file, decode).value)
  {
    var exists_ := registry.WorkflowExists(request.workflowKey, file, decode);
    if exists_.Err? {
      return Err(InternalError), [];
    }
    r := Admit(request, exists_.value, now);
    if r.Err? {
      return r, [];
    }
    tasks.AddTask(request);
    events := [AcceptedEvent(request)];
  }

  // ---------------------------------------------------------------------
  // The webhook URL

  /** `s.rstrip('/')`. */
  function StripTrailingSlashes(s: string): (r: string)
    ensures r <= s
    ensures r == [] || r[|r| - 1] != '/'
    ensures forall i :: |r| <= i < |s| ==> s[i] == '/'
    decreases |s|
  {
    if |s| > 0 && s[|s| - 1] == '/' then StripTrailingSlashes(s[..|s| - 1]) else s
  }

  /** The three facts above pin the result down: any prefix of `s` that
      does not end in '/' and is followed only by '/' is the stripped
      string. */
  lemma StripTrailingSlashesUnique(s: string, t: string)
    requires t <= s
    requires t == [] || t[|t| - 1] != '/'
    requires forall i :: |t| <= i < |s| ==> s[i] == '/'
    ensures t == StripTrailingSlashes(s)
  {
  }

  lemma StripTrailingSlashesIdempotent(s: string)
    ensures StripTrailingSlashes(StripTrailingSlashes(s)) == StripTrailingSlashes(s)
  {
    var r := StripTrailingSlashes(s);
    StripTrailingSlashesUnique(r, r);
  }

  /** A trailing '/' on the base changes nothing. */
  lemma StripTrailingSlashesExtra(s: string)
    ensures StripTrailingSlashes(s + "/") == StripTrailingSlashes(s)
  {
    var r := StripTrailingSlashes(s);
    forall i | |r| <= i < |s + "/"| ensures (s + "/")[i] == '/' {
      if i < |s| {
        assert (s + "/")[i] == s[i];
      }
    }
    assert r <= s + "/" by {
      assert forall i :: 0 <= i < |r| ==> (s + "/")[i] == s[i];
    }
    StripTrailingSlashesUnique(s + "/", r);
  }

  /** `f"{base.rstrip('/')}/{workflow_key}"`. */
  function WebhookUrl(base: string, workflowKey: string): (url: string)
    ensures |url| == |StripTrailingSlashes(base)| + 1 + |workflowKey|
    ensures url[..|StripTrailingSlashes(base)|] == StripTrailingSlashes(base) <= base
    ensures url[|url| - |workflowKey| - 1..] == "/" + workflowKey
  {
    StripTrailingSlashes(base) + "/" + workflowKey
  }

  /** `base` and `base + "/"` name the same webhook, so the configured base
      URL may be written either way. */
  lemma WebhookUrlIgnoresTrailingSlash(base: string, workflowKey: string)
    ensures WebhookUrl(base + "/", workflowKey) == WebhookUrl(base, workflowKey)
  {
    StripTrailingSlashesExtra(base);
  }

  /** The default base URL `http://127.0.0.1:5678/webhook` and the workflow
      `example_workflow` give `http://127.0.0.1:5678/webhook/example_workflow`. */
  lemma DefaultWebhookUrl()
    ensures WebhookUrl(DefaultWebhookBase, "example_workflow") == "http://127.0.0.1:5678/webhook/example_workflow"
  {
  }

  const DefaultWebhookBase := "http://127.0.0.1:5678/webhook"

  // ---------------------------------------------------------------------
  // Dispatch

  /** How `client.post` ended: with a response of any status (httpx does
      not raise for 4xx or 5xx), or with an exception (connection refused,
      the 10 s timeout, ...). */
  datatype PostOutcome = Responded(statusCode: int) | Raised

  /** A POST as it leaves the service: the URL and the JSON body. */
  datatype Post = Post(url: string, body: Fields)

  /** What one run of `dispatch_to_n8n` did: the POST put on the wire, if
      any, and the log events. It has no error case: a background task
      that raises would only be logged by the server, and this one never
      does. */
  datatype DispatchRun = DispatchRun(sent: Option<Post>, events: seq<LogEvent>)

  /** The two events of the `except` branch. */
  function FailureEvents(request: JobRequest): seq<LogEvent> {
    [LogEvent(Error, "n8n dispatch failed", Some(request.jobId), Some(request.clientId),
              Some(request.workflowKey), Some(StatusText(Pending)), None),
     LogEvent(Debug, "dispatch exception", None, None, None, None, None)]
  }

  /** `dispatch_to_n8n` with the body serialised as JSON
      (`request.model_dump(mode="json")`): the request goes to the webhook
      of its workflow, and only an exception is logged. */
  function Dispatch(request: JobRequest, base: string, outcome: PostOutcome): (run: DispatchRun)
    ensures run.sent == Some(Post(WebhookUrl(base, request.workflowKey), DumpJobRequest(request)))
    ensures run.events == (if outcome.Raised? then FailureEvents(request) else [])
  {
    var post := Post(WebhookUrl(base, request.workflowKey), DumpJobRequest(request));
    match outcome
    case Raised => DispatchRun(Some(post), FailureEvents(request))
    case Responded(_) => DispatchRun(Some(post), [])
  }

  /** n8n receives the whole request: the body it is sent validates as a
      `JobRequest` equal to the one admitted, at the URL ending in
      "/" + workflow_key. */
  lemma DispatchSendsWholeRequest(request: JobRequest, base: string, outcome: PostOutcome, fmt: Formats)
    requires ValidRequest(request, fmt)
    ensures var post := Dispatch(request, base, outcome).sent.value;
      && ParseJobRequest(post.body, fmt) == Ok(request)
      && post.url[|post.url| - |request.workflowKey| - 1..] == "/" + request.workflowKey
  {
    JobRequestRoundTrip(request, fmt);
  }

  /** Every failure ends as the "n8n dispatch failed" error event and
      nothing else; a response of any status, 4xx and 5xx included, leaves
      no trace. */
  lemma DispatchSwallowsFailures(request: JobRequest, base: string, outcome: PostOutcome)
    ensures var events := Dispatch(request, base, outcome).events;
      && (outcome.Raised? <==> exists e :: e in events && e.level == Error)
      && (outcome.Raised? ==> events[0].message == "n8n dispatch failed" && events[0].jobId == Some(request.jobId))
  {
    var events := Dispatch(request, base, outcome).events;
    if outcome.Raised? {
      assert events[0] in events;
    }
  }

  // ---------------------------------------------------------------------
  // Dispatch as written

  /** A value of `request.model_dump()` in its default Python mode: plain
      JSON, or the `HttpUrl` object pydantic keeps for `callback_url`. */
  datatype PyValue = Plain(j: Json) | UrlObject(url: string)

  /** `request.model_dump()` as the source calls it: the same keys and
      values as the JSON-mode dump, except that `callback_url` stays a URL
      object. */
  function PythonDumpJobRequest(r: JobRequest): (d: seq<(string, PyValue)>)
    ensures |d| == |DumpJobRequest(r)|
    ensures forall i :: 0 <= i < |d| ==> d[i].0 == DumpJobRequest(r)[i].0
    ensures forall i :: 0 <= i < |d| && d[i].0 != "callback_url" ==> d[i].1 == Plain(DumpJobRequest(r)[i].1)
    ensures forall i :: 0 <= i < |d| && d[i].0 == "callback_url" ==> d[i].1 == UrlObject(r.callbackUrl)
  {
    [("job_id", Plain(Str(r.jobId))), ("client_id", Plain(Str(r.clientId))),
     ("workflow_key", Plain(Str(r.workflowKey))), ("inputs", Plain(Obj(r.inputs))),
     ("callback_url", UrlObject(r.callbackUrl)), ("priority", Plain(Int(r.priority))),
     ("timeout_seconds", Plain(Int(r.timeoutSeconds))), ("metadata", Plain(Obj(r.metadata)))]
  }

  /** httpx's `json=` encoding (the standard `json.dumps`): it has no
      encoder for an `HttpUrl` object and raises `TypeError`. */
  function EncodeJson(d: seq<(string, PyValue)>): (r: Option<Fields>)
    ensures r.None? <==> exists i :: 0 <= i < |d| && d[i].1.UrlObject?
    ensures r.Some? ==> |r.value| == |d| && forall i :: 0 <= i < |d| ==> r.value[i] == (d[i].0, d[i].1.j)
  {
    if d == [] then Some([])
    else if d[0].1.UrlObject? then None
    else
      assert forall i :: 1 <= i < |d| ==> d[i] == d[1..][i - 1];
      match EncodeJson(d[1..])
      case None => None
      case Some(rest) => Some([(d[0].0, d[0].1.j)] + rest)
  }

  /** `dispatch_to_n8n` exactly as written: the body is encoded inside the
      `try`, so the encoding error is caught like a network error. */
  function DispatchAsWritten(request: JobRequest, base: string, outcome: PostOutcome): (run: DispatchRun)
    ensures run.sent.None? ==> run.events == FailureEvents(request)
    ensures run.sent.Some? ==> run.sent.value.url == WebhookUrl(base, request.workflowKey)
    ensures run.sent.Some? ==> run.events == Dispatch(request, base, outcome).events
  {
    match EncodeJson(PythonDumpJobRequest(request))
    case None => DispatchRun(None, FailureEvents(request))
    case Some(body) => Dispatch(request, base, outcome).(sent := Some(Post(WebhookUrl(base, request.workflowKey), body)))
  }

  /** As written, no request ever reaches n8n: whatever the network would
      have done, nothing is sent and "n8n dispatch failed" is logged. The
      corrected `Dispatch` sends every request, and logs only when the
      network raises. */
  lemma DispatchAsWrittenNeverSends(request: JobRequest, base: string, outcome: PostOutcome)
    ensures DispatchAsWritten(request, base, outcome).sent == None
    ensures DispatchAsWritten(request, base, outcome).events == FailureEvents(request)
    ensures Dispatch(request, base, outcome).sent.Some?
    ensures outcome.Responded? ==> Dispatch(request, base, outcome).events == []
  {
    var d := PythonDumpJobRequest(request);
    assert d[4].1.UrlObject?;
  }
}
