# flowbiz-infra-n8n: job admission, dispatch, callbacks and audit in Dafny

This project models the service that sits in front of an n8n workflow
engine:

- a client posts a `JobRequest` to `/v1/jobs`. If the registry
  (`workflows/registry.json`, read once and cached) knows the request's
  `workflow_key`, the service answers 202 with a pending `JobResponse`.
  It then queues exactly one background dispatch, which posts the
  request to `<webhook base>/<workflow_key>`. Every dispatch failure is
  logged and swallowed. An unknown workflow is a 400.
- n8n reports back to `/v1/callbacks/n8n`. When a signing secret is
  configured, the raw body must carry an `x-callback-signature` header
  equal to the lowercase hex HMAC-SHA-256 of the body. The body is then
  validated as a `JobCallback` and acknowledged with `{"status": "ok"}`.
- `persist_audit` appends one row per callback to the SQLite table
  `audit_logs`. The row holds the callback's fields plus a `stored_at`
  timestamp, serialised with sorted keys.

Modules, one file each:

- `results.dfy` (`Results`): `Option` and `Result`.
- `json.dfy` (`Json`): JSON values and Python dicts. A dict is a list of
  key-value pairs read last-wins. It also holds the recursive key
  sorting that `json.dumps(sort_keys=True)` performs.
- `schema.dfy` (`Schema`): the field readers pydantic's declarations
  amount to: required, optional, defaulted, bounded and forbidden
  fields.
- `job_schema.dfy` (`JobSchema`): `JobStatus`, `JobRequest`,
  `JobResponse`.
- `callback_schema.dfy` (`CallbackSchema`): `CallbackStatus`,
  `AuditEntry`, `JobCallback`.
- `events.dfy` (`Events`): HTTP errors and structured log events.
- `registry.dfy` (`Registry`): registry loading, the `lru_cache` slot (a
  class) and `workflow_exists`.
- `jobs.dfy` (`Jobs`): `create_job` (a method over the registry cache and
  the background task queue), the webhook URL, and dispatch.
- `callbacks.dfy` (`Callbacks`): hex encoding, `_verify_signature` and
  `receive_callback`.
- `audit.dfy` (`Audit`): the audit record, the append-only table, and
  the store (a class mapping database paths to tables).

Parsing is modelled as a function from the decoded JSON dict to a
`Result`, and serialisation (`model_dump(mode="json")`) as a function
back. The job and callback schemas (`JobRequest`, `JobResponse`,
`AuditEntry`, `JobCallback`) each have a round-trip lemma, and one lemma
per field constraint and default. The registry schemas
(`WorkflowMetadata`, `WorkflowRegistry`) are only read, never dumped, so
their parsers are specified in both directions instead. The environment appears as parameters:

- `fmt` is the URL and datetime syntax pydantic checks.
- `mac` is HMAC-SHA-256.
- `decode` is a JSON decoder: `json.loads` for the registry file, and
  the decoding step inside `model_validate_json` for a callback body.
- `file` is the registry file's text, if the file exists.
- `now` is the current time.
- `outcome` is the result of the outbound POST.

## Model

| member | source | states |
|---|---|---|
| JobSchema.StatusTextNames | packages/core/schemas/job.py:10-17 | a status text parses back to exactly the status it names, and only the five texts pending, running, success, failed, cancelled parse |
| JobSchema.StatusTextInjective | packages/core/schemas/job.py:10-17 | distinct statuses have distinct string forms |
| Schema.RequiredStr | packages/core/schemas/job.py:23-25 | a required string is accepted exactly when present as a string of at least the minimum length, and is returned unchanged |
| Schema.BoundedInt | packages/core/schemas/job.py:28-29 | an absent int takes the default; a present one is accepted exactly when it is an int within the bounds, and is kept unchanged |
| Schema.DictOrEmpty | packages/core/schemas/job.py:30 | an absent dict becomes the empty dict; a present one must be an object and is kept |
| Schema.RequiredDict | packages/core/schemas/job.py:26 | a required dict is accepted exactly when present as an object |
| Schema.RequiredUrl | packages/core/schemas/job.py:27 | a URL field is accepted exactly when present as a string satisfying the URL syntax |
| Schema.OptionalStr | packages/core/schemas/job.py:40 | absent or null reads as None, a string as itself, anything else is an error |
| Schema.OptionalDatetime | packages/core/schemas/job.py:41-42 | absent or null reads as None; otherwise it must be a datetime string |
| Schema.RequiredDatetime | packages/core/schemas/callback.py:20 | a required datetime is accepted exactly when present as a datetime string |
| Schema.ForbidExtra | packages/core/schemas/job.py:32 | passes exactly when every key is declared; a rejection names a key of the payload that is not declared |
| JobSchema.ParseJobRequest | packages/core/schemas/job.py:20-32 | every accepted request has non-empty ids, priority in 1..10, timeout at least 1 and a well-formed URL, and its payload had only declared keys |
| JobSchema.DumpJobRequest | packages/core/schemas/job.py:23-30 | the dump has exactly the eight fields, in declaration order |
| JobSchema.ParseJobRequestTakesGiven | packages/core/schemas/job.py:23-30 | an accepted request carries the values the payload gave |
| JobSchema.ParseJobRequestDefaults | packages/core/schemas/job.py:28-30 | an omitted priority, timeout or metadata becomes 5, 300 and the empty dict |
| JobSchema.JobRequestDefaultsAccepted | packages/core/schemas/job.py:23-30 | a payload giving only the five required fields is accepted exactly when those are valid, and then has priority 5, timeout 300 and empty metadata |
| JobSchema.JobRequestForbidsExtra | packages/core/schemas/job.py:32 | a payload with a key outside the eight declared ones is rejected |
| JobSchema.JobRequestRoundTrip | packages/core/schemas/job.py:20-32 | the dump of a request validates exactly when the request is valid, and then back to the same request |
| JobSchema.JobRequestBoundaryCases | packages/core/schemas/job.py:23-29 | an empty job_id and priorities 0 and 11 are rejected, priorities 1 and 10 are accepted and kept, timeout 0 is rejected |
| JobSchema.RequiredJobStatus | packages/core/schemas/job.py:39 | the status field is accepted exactly when it holds one of the five status texts, and reads as that status |
| JobSchema.ParseJobResponse | packages/core/schemas/job.py:35-44 | every accepted response has well-formed datetimes, and its payload had only declared keys |
| JobSchema.DumpJobResponse | packages/core/schemas/job.py:38-42 | the dump has exactly the five fields, in declaration order |
| JobSchema.JobResponseForbidsExtra | packages/core/schemas/job.py:44 | a response payload with an undeclared key is rejected |
| JobSchema.JobResponseDefaults | packages/core/schemas/job.py:40-42 | with only job_id and status given, message, accepted_at and estimated_completion are absent |
| JobSchema.JobResponseRoundTrip | packages/core/schemas/job.py:35-44 | a valid response dumps to a payload that validates back to it |
| CallbackSchema.CallbackStatusTextNames | packages/core/schemas/callback.py:10-14 | only "success" and "failed" parse, each to the status it names |
| CallbackSchema.RequiredCallbackStatus | packages/core/schemas/callback.py:33 | the status field is accepted exactly when it holds one of the two texts |
| CallbackSchema.ParseAuditEntry | packages/core/schemas/callback.py:17-26 | a non-object is rejected as such; every accepted audit entry came from an object with only declared keys, and has a datetime timestamp and duration_ms at least 0 |
| CallbackSchema.DumpAuditEntry | packages/core/schemas/callback.py:20-24 | the dump is an object with exactly the entry's fields, in declaration order |
| CallbackSchema.AuditEntryRejectsNegativeDuration | packages/core/schemas/callback.py:24 | an entry with a negative duration_ms is rejected |
| CallbackSchema.AuditEntryForbidsExtra | packages/core/schemas/callback.py:26 | an entry with an undeclared key is rejected |
| CallbackSchema.AuditEntryDefaults | packages/core/schemas/callback.py:23-24 | with details and duration_ms omitted, they become the empty dict and 0 |
| CallbackSchema.AuditEntryRoundTrip | packages/core/schemas/callback.py:17-26 | a valid entry dumps to a value that validates back to it |
| CallbackSchema.ParseAuditList | packages/core/schemas/callback.py:37 | the list is accepted exactly when every element is a valid entry, and entry i is element i parsed, so the order is kept |
| CallbackSchema.AuditListOrEmpty | packages/core/schemas/callback.py:37 | an absent audit list is empty; a present one must be an array of valid entries |
| CallbackSchema.AuditListRoundTrip | packages/core/schemas/callback.py:37 | a list of valid entries dumps and validates back to the same list, in order |
| CallbackSchema.ParseCallbackDocument | apps/api/routes/v1/callbacks.py:65 | a document that is not a JSON object is rejected; an object is validated as a callback |
| CallbackSchema.ParseJobCallback | packages/core/schemas/callback.py:29-42 | every accepted callback is valid (all its audit entries are valid, its datetimes are well formed) and its payload had only declared keys |
| CallbackSchema.DumpJobCallback | packages/core/schemas/callback.py:32-40 | the dump has exactly the nine fields, in declaration order |
| CallbackSchema.CallbackAuditInOrder | packages/core/schemas/callback.py:37 | the accepted callback's audit entries are the supplied elements, parsed, in the supplied order |
| CallbackSchema.CallbackRejectsInvalidEntry | packages/core/schemas/callback.py:37 | one invalid audit element makes the whole callback invalid |
| CallbackSchema.JobCallbackForbidsExtra | packages/core/schemas/callback.py:42 | a callback with an undeclared key is rejected |
| CallbackSchema.JobCallbackDefaults | packages/core/schemas/callback.py:34-40 | with only job_id and status given, outputs and audit are empty and the five optional fields are absent |
| CallbackSchema.JobCallbackRoundTrip | packages/core/schemas/callback.py:29-42 | a valid callback dumps to fields that validate back to it |
| Registry.AnyKey | packages/core/registry.py:46-50 | true exactly when some entry's key equals the given key |
| Registry.AnyKeyEmpty | packages/core/registry.py:50 | an empty registry knows no key |
| Registry.AnyKeyKeyOnly | packages/core/registry.py:46-50 | registries whose entries agree on keys answer alike, whatever their names, versions and descriptions |
| Registry.AnyKeyOrderIndependent | packages/core/registry.py:50 | any reordering of the entries gives the same answer |
| Registry.ParseMetadata | packages/core/registry.py:10-16 | an entry is accepted exactly when it is an object whose key, name and version are strings and whose description is absent, null or a string; the entry holds those strings, and its description is None exactly when absent or null |
| Registry.MetadataIgnoresExtra | packages/core/registry.py:10-16 | an undeclared key in an entry changes nothing (pydantic's default is to ignore it) |
| Registry.ParseWorkflowList | packages/core/registry.py:19-22 | the list is accepted exactly when every element is an entry, and the entries keep their order |
| Registry.ParseRegistry | packages/core/registry.py:19-36 | a document is accepted exactly when it is an object with a workflows array whose every element is an entry; a non-object is an error; the accepted entries are the elements, in order |
| Registry.LoadRegistry | packages/core/registry.py:28-36 | a missing file is FileNotFound, undecodable text is a JSON error, otherwise the decoded document is validated |
| Registry.MissingFileIsError | packages/core/registry.py:31-32 | a missing file never yields a registry, not even an empty one |
| Registry.ListedKeys | packages/core/registry.py:50 | a parsed workflow list holds a key exactly when one of the raw array elements carries it as its key |
| Registry.LoadedKeys | packages/core/registry.py:46-50 | after loading, a key is known exactly when some element of the file's workflows array has it as key |
| Registry.RegistryCache.GetRegistry | packages/core/registry.py:39-43 | the first successful load is cached and returned unchanged by every later call without reading the file; a failing load is not cached |
| Registry.RegistryCache.WorkflowExists | packages/core/registry.py:46-50 | the answer is the key search over the cached registry; a failing first load propagates its error |
| Jobs.Admit | apps/api/routes/v1/jobs.py:21-33 | an unknown workflow gives 400 "Unknown workflow_key"; a known one gives a response with the request's job_id, status pending, message "accepted" and accepted_at the acceptance time |
| Jobs.AdmittedResponseOnTheWire | apps/api/routes/v1/jobs.py:27-33 | the acknowledgement is a valid JobResponse and reads back from its JSON body with status "pending" |
| Jobs.BackgroundTasks.AddTask | apps/api/routes/v1/jobs.py:35 | the request is appended to the queue |
| Jobs.CreateJob | apps/api/routes/v1/jobs.py:17-47 | a known workflow queues exactly this one request and logs "job accepted"; an unknown one answers 400 and queues nothing; a registry that cannot be loaded answers 500 and queues nothing; the first successful load fills the cache with the loaded registry, and a filled cache is never changed |
| Jobs.StripTrailingSlashes | apps/api/routes/v1/jobs.py:53 | the result is a prefix of the input that does not end in '/', and only '/' was removed |
| Jobs.StripTrailingSlashesIdempotent | apps/api/routes/v1/jobs.py:53 | stripping twice equals stripping once |
| Jobs.StripTrailingSlashesExtra | apps/api/routes/v1/jobs.py:53 | one more trailing '/' changes nothing |
| Jobs.WebhookUrl | apps/api/routes/v1/jobs.py:53 | the URL is the stripped base, then "/", then the workflow key |
| Jobs.WebhookUrlIgnoresTrailingSlash | apps/api/routes/v1/jobs.py:53 | base and base + "/" give the same URL |
| Jobs.DefaultWebhookUrl | packages/core/config.py:21 | the default base and "example_workflow" give http://127.0.0.1:5678/webhook/example_workflow |
| Jobs.Dispatch | apps/api/routes/v1/jobs.py:50-69 | the serialised request is posted to the workflow's webhook; only an exception is logged, as "n8n dispatch failed" |
| Jobs.DispatchSendsWholeRequest | apps/api/routes/v1/jobs.py:54-58 | the body sent validates back to the admitted request, at a URL ending in "/" + workflow_key |
| Jobs.DispatchSwallowsFailures | apps/api/routes/v1/jobs.py:56-69 | an error event is logged exactly when the post raised, and it carries the job id; nothing is raised |
| Jobs.EncodeJson | apps/api/routes/v1/jobs.py:58 | encoding fails exactly when some value is a URL object; otherwise every pair is kept in order |
| Jobs.PythonDumpJobRequest | apps/api/routes/v1/jobs.py:54 | the Python-mode dump has the JSON-mode dump's keys in order and its values, except that callback_url holds the URL object |
| Jobs.DispatchAsWritten | apps/api/routes/v1/jobs.py:53-69 | when a body is sent, it goes to the workflow's webhook and the run logs what Dispatch logs; when nothing is sent, the run logs the dispatch failure |
| Jobs.DispatchAsWrittenNeverSends | apps/api/routes/v1/jobs.py:54-58 | as written, nothing is ever sent and every dispatch logs "n8n dispatch failed" |
| Callbacks.Hex | apps/api/routes/v1/callbacks.py:21 | the encoding has two characters per byte, all in 0-9 and a-f |
| Callbacks.UnHexHex | apps/api/routes/v1/callbacks.py:21 | hex decoding inverts the encoding |
| Callbacks.HexInjective | apps/api/routes/v1/callbacks.py:21 | different digests have different hex forms |
| Callbacks.ComputeSignature | apps/api/routes/v1/callbacks.py:18-21 | the signature is 64 lowercase hex characters that decode to the HMAC digest of the body |
| Callbacks.VerifySignature | apps/api/routes/v1/callbacks.py:24-53 | no secret: passes, with the "not validated" warning; no header: 401 Missing; otherwise it passes exactly when the header equals the body's signature, and a mismatch is 401 Invalid |
| Callbacks.SignatureBindsBody | apps/api/routes/v1/callbacks.py:44-45 | a header made for another body passes only if both bodies have the same digest |
| Callbacks.ReceiveCallback | apps/api/routes/v1/callbacks.py:56-83 | a failed check is returned as is; otherwise the reply is {"status": "ok"} exactly when the body decodes to a valid callback |
| Callbacks.VerifyBeforeParse | apps/api/routes/v1/callbacks.py:60-65 | when the check fails, the reply is the same whatever the body decodes to |
| Callbacks.BadSignatureBeatsBadPayload | apps/api/routes/v1/callbacks.py:60-65 | with a secret, a missing or wrong signature on an undecodable body is a 401 |
| Callbacks.SignedButInvalidPayload | apps/api/routes/v1/callbacks.py:64-70 | a correctly signed body that is not a valid callback is 422 "Invalid callback payload" |
| Callbacks.SignedCallbackAccepted | apps/api/routes/v1/callbacks.py:72-83 | a correctly signed valid callback is acknowledged with {"status": "ok"} and logs "callback received" |
| Callbacks.UnconfiguredSecretAcceptsAll | apps/api/routes/v1/callbacks.py:27-32 | without a secret any header passes; the reply is ok or 422 and starts with the warning |
| Audit.AppendRow | packages/core/audit.py:36-45 | one row is added at the end with the next id; earlier rows are unchanged; ids stay strictly increasing |
| Audit.AppendTwice | packages/core/audit.py:21 | two appends keep the earlier rows, and the second row's id exceeds the first's |
| Audit.Column | packages/core/audit.py:39-41 | reading a key succeeds exactly when it is present, gives its value, and otherwise fails as a missing key (KeyError) naming it |
| Audit.Bind | packages/core/audit.py:36-44 | a value binds exactly when it is a scalar and, if an integer, within SQLite's signed 64-bit range; otherwise it is unsupported or an overflow |
| Audit.RowValues | packages/core/audit.py:36-44 | the row is built exactly when the three keys are present with bindable non-null values, and then holds the record's values; a missing key is reported before any binding or NOT NULL error, stored_at first; a NOT NULL error only follows three successful bindings |
| Audit.PayloadSorted | packages/core/audit.py:42 | the payload has its keys sorted at every level |
| Audit.PayloadDeterministic | packages/core/audit.py:42 | records equal as Python dicts, at every nesting level and whatever their insertion orders, give the same payload |
| Audit.PayloadKeepsRecord | packages/core/audit.py:42-59 | the stored payload equals the whole record as a Python value, at every depth, when the callback's outputs and details dicts repeat no key |
| Audit.NestedOrderIgnored | packages/core/audit.py:42 | a nested object's insertion order does not change the payload |
| Json.SortByKeyCorrect | packages/core/audit.py:42 | key sorting yields a sorted permutation of the pairs |
| Json.SortKeysSorted | packages/core/audit.py:42 | recursive key sorting leaves every object, at every level, sorted by key |
| Json.SortKeysKeeps | packages/core/audit.py:42 | for a value whose dicts repeat no key, sorting the keys at every depth gives an equal value: the same keys, each holding an equal value, and lists item by item |
| Json.PyEqSameText | packages/core/audit.py:42 | values equal as Python values (dicts compared as mappings, lists pointwise) sort to the same value |
| Audit.AuditRecord | packages/core/audit.py:56-59 | the record's keys are stored_at followed by the callback's nine fields, in that order |
| Audit.AuditRecordKeys | packages/core/audit.py:56-59 | no key of the record is repeated, so stored_at is not overridden by the callback's fields |
| Audit.AuditRecordFields | packages/core/audit.py:56-59 | stored_at holds the time, and every other key holds the callback's dumped value |
| Audit.AuditRecordKeepsCallback | packages/core/audit.py:56-59 | without stored_at, the record validates back to the callback itself |
| Audit.AuditRecordColumns | packages/core/audit.py:56-59 | the record always binds: the time, the callback's job_id and its status text |
| Audit.TargetPath | packages/core/audit.py:53 | a given path is used as is (a Path is always truthy, even Path("")); without one, the configured default |
| Audit.DefaultTarget | packages/core/audit.py:53 | the default target is "data/audit.db", and a given path overrides it |
| Audit.AuditStore.EnsureSchema | packages/core/audit.py:17-29 | an existing table is left unchanged; a missing one is created empty; no other file changes |
| Audit.AuditStore.WriteRow | packages/core/audit.py:32-47 | the row is appended exactly when the three columns bind, with the next id; otherwise the table is only created |
| Audit.AuditStore.PersistAudit | packages/core/audit.py:50-74 | exactly one row is appended to the target file's table, holding the time, job_id, status and sorted payload; other files and earlier rows are unchanged; the returned path is the target |

## Left out

- HTTP framework and wiring. FastAPI routing, request parsing into
  models, `response_model` filtering and status-code plumbing are out;
  error replies are `HttpError` values. `apps/api/main.py` registers the
  health, meta and jobs routers, but not the callbacks router. The
  callback route is therefore unreachable in the deployed app. This is a wiring matter that the model does not
  represent.
- The outbound POST. The httpx client, its 10 s timeout and the network
  are the `PostOutcome` parameter. httpx does not raise for a 4xx or 5xx
  response, so such an answer is not logged as a dispatch failure; only
  an exception is.
- The debug event of a dispatch failure carries the exception object
  (`exc_info`). The model keeps only the event's level and message.
- HMAC-SHA-256 is the uninterpreted `mac` parameter, returning 32 bytes.
  `hmac.compare_digest` is equality: its constant-time behaviour cannot
  be expressed. Its `TypeError` on a non-ASCII header becomes a 500.
- Concurrency: `asyncio.Lock`, `asyncio.to_thread` and when background
  tasks actually run. Dispatch is "queued once" plus a separate
  `Dispatch` function for one run.
- SQLite. Connections, commits, column type affinity, and the
  `AUTOINCREMENT` sequence surviving deleted rows are out; nothing
  deletes rows. Directory creation (`mkdir`) and file I/O are out too.
- Audit.TargetPath: paths are not normalised. `Path("")` is the current
  directory `.`, where SQLite cannot open a database file; the model
  instead stores under the key `""` and returns `""`.
- JSON text. Rendering (`separators`, escaping) and decoding are out.
  Decoding is the `decode` parameter, and `json.dumps(sort_keys=True)`
  is modelled by its key order, `SortKeys`. Floats are not in the JSON
  model. The model does not treat repeated keys specially; `Lookup`
  keeps the last one, as Python's dict does.
- Audit.PayloadDeterministic: Python also counts `True == 1` and
  `1 == 1.0` as equal, but `json.dumps` writes them differently, so
  `PyEq` compares scalars as JSON values. The lemma does not cover
  records that are equal only through such a numeric coincidence.
- Time. `datetime.now` and `isoformat` are the `now` string.
- Pydantic details beyond the declared constraints:
  - lax coercions, such as "5" for an int or true for 1;
  - `HttpUrl` parsing and normalisation. URL and datetime syntax are the
    predicates in `Formats`;
  - reporting every error rather than the first.
- JobSchema.JobRequestRoundTrip: the URL is kept as given. It does not
  model pydantic's URL normalisation, such as adding "/" after a bare
  host, so the round trip is stated for URLs that are already
  normalised. The same holds for datetimes in the other round-trip
  lemmas.
- Registry.RegistryCache.GetRegistry: the file's contents are read at
  the first call, not at import time.
- `receive_callback` validates and logs but never calls `persist_audit`.
  The model follows the code, so a received callback is not stored; the
  audit store is modelled on its own.
- Settings loading and logging configuration. The defaults used appear
  as constants: `DefaultWebhookBase`, `DefaultAuditDbPath`.
- Rate limiting, the cancel/kill-switch flow and the maximum-timeout
  check. `jobs_rate_limit_per_minute` and `jobs_max_timeout_seconds` are
  declared in `packages/core/config.py` but never read by the modelled
  code. `packages/core/logging.py` is not part of this model.

## Findings

| source | as written | input that shows it | evidently intended | confidence | as-written member | corrected member |
|---|---|---|---|---|---|---|
| apps/api/routes/v1/jobs.py:54 | `request.model_dump()` uses Python mode, so `callback_url` stays an `HttpUrl` object. `client.post(..., json=payload)` then raises `TypeError` while encoding the body. This happens inside the `try`, so the error is logged as "n8n dispatch failed". | Any valid `JobRequest`, e.g. the one in tests/test_jobs.py. The tests replace `httpx.AsyncClient` with a stub whose `post` ignores its arguments, so encoding never runs there. | `request.model_dump(mode="json")`, so that the whole request reaches the webhook and only network errors are logged | high; not executed | Jobs.DispatchAsWritten (shown by Jobs.DispatchAsWrittenNeverSends) | Jobs.Dispatch (with Jobs.DispatchSendsWholeRequest) |
