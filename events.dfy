/** What the service hands back to the outside world besides response
    bodies: HTTP errors (FastAPI's `HTTPException`) and structured log
    events (`logger.<level>(message, extra={...})`). */
module Events {
  import opened Results

  /** An error response: its status code and its `detail`. */
  datatype HttpError = HttpError(status: int, detail: string)

  const StatusBadRequest := 400
  const StatusUnauthorized := 401
  const StatusUnprocessable := 422
  const StatusInternalError := 500

  /** An exception no handler catches: FastAPI answers 500. */
  const InternalError := HttpError(StatusInternalError, "Internal Server Error")

  datatype Level = Debug | Info | Warning | Error

  /** One log record: its level, its message and the `extra` fields the
      service attaches (`job_id`, `client_id`, `workflow_key`, `status`, and
      `execution_id` on callback receipt); None stands for a missing or
      `None` value. */
  datatype LogEvent = LogEvent(
    level: Level,
    message: string,
    jobId: Option<string>,
    clientId: Option<string>,
    workflowKey: Option<string>,
    status: Option<string>,
    executionId: Option<string>)
}
