/** The JSON responses the two HTTP entry points send, and their shared last step:
    run the ingest and report its outcome. */
module HttpResponses {
  import opened Results
  import opened Ingest

  /** A status code and the JSON fields of the body; `None` is a field the body does
      not have. */
  datatype Response = Response(status: nat, success: Option<bool>, skipped: Option<bool>,
                               total: Option<nat>, saved: Option<nat>, error: Option<string>,
                               message: Option<string>, schedule: Option<string>,
                               currentTime: Option<string>)

  /** `res.status(status).json({ error })`. */
  function ErrorResponse(status: nat, error: string): Response
  {
    Response(status, None, None, None, None, Some(error), None, None, None)
  }

  /** Where a handler's early returns leave it: a response already sent, or on to the
      ingest run. */
  datatype Decision = Respond(response: Response) | RunIngest

  /** JavaScript truthiness of an optional string: set and not empty. */
  predicate Truthy(s: Option<string>)
  {
    s.Some? && s.value != ""
  }

  /** The `try`/`catch` around `processAndSaveMessages()`: 200 with the counts, or 500
      with the error message. */
  function Finish(outcome: Result<Summary, IngestError>): Response
  {
    match outcome
    case Ok(result) => Response(200, Some(true), None, Some(result.total), Some(result.saved), None, None, None, None)
    case Err(e) => Response(500, Some(false), None, None, None, Some(ErrorMessage(e)), None, None, None)
  }

  /** The response of a handler whose gate decided `decision`, when an ingest run
      would end with `outcome`. */
  function Conclude(decision: Decision, outcome: Result<Summary, IngestError>): Response
  {
    match decision
    case Respond(response) => response
    case RunIngest => Finish(outcome)
  }

  /** Once the ingest runs, the status tells success from failure, a success reports
      the counts of the run, a failure its error message, and neither is 401. */
  lemma FinishReports(outcome: Result<Summary, IngestError>)
    ensures Finish(outcome).status == 200 <==> outcome.Ok?
    ensures Finish(outcome).status == 500 <==> outcome.Err?
    ensures Finish(outcome).success == Some(outcome.Ok?)
    ensures outcome.Ok? ==> Finish(outcome).total == Some(outcome.value.total)
                            && Finish(outcome).saved == Some(outcome.value.saved)
    ensures outcome.Err? ==> Finish(outcome).error == Some(ErrorMessage(outcome.error))
    ensures Finish(outcome).skipped == None
  {
  }
}
