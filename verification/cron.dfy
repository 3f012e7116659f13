/** The `/api/cron` endpoint run by the platform's scheduler: an optional shared
    secret accepted as a bearer token or as a query parameter, a window on the São
    Paulo clock, then the ingest run. */
module Cron {
  import opened Results
  import opened JsStrings
  import opened Window
  import opened Ingest
  import opened HttpResponses

  /** `CRON_SECRET`, `START_HOUR`, `END_HOUR` and `END_MINUTE`. */
  datatype Config = Config(cronSecret: Option<string>, startHour: int, endHour: int, endMinute: int)

  /** The request fields the handler reads: the `authorization` header and
      `query.secret`. */
  datatype Request = Request(authorization: Option<string>, querySecret: Option<string>)

  /** `isWithinSchedule()` for the UTC reading `utcHour:utcMinute`. */
  function IsWithinSchedule(config: Config, utcHour: int, utcMinute: int): bool
  {
    WithinWindow(config.startHour, config.endHour, config.endMinute, LocalHour(utcHour), utcMinute)
  }

  /** The window runs from `startHour:00` to `endHour:endMinute` São Paulo time. */
  lemma WindowInterval(config: Config, utcHour: int, utcMinute: int)
    requires 0 <= utcHour < 24 && 0 <= utcMinute < 60 && 0 <= config.endMinute < 60
    ensures IsWithinSchedule(config, utcHour, utcMinute)
            <==> config.startHour * 60 <= LocalHour(utcHour) * 60 + utcMinute
                 <= config.endHour * 60 + config.endMinute
    ensures 0 <= LocalHour(utcHour) < 24
  {
    LocalHourRange(utcHour);
    WithinWindowInterval(config.startHour, config.endHour, config.endMinute, LocalHour(utcHour), utcMinute);
  }

  /** How a template literal renders an optional string. */
  function TemplateText(s: Option<string>): string
  {
    if s.Some? then s.value else "undefined"
  }

  /** `authHeader === \`Bearer ${CRON_SECRET}\``. */
  predicate IsVercelCron(config: Config, request: Request)
  {
    request.authorization == Some("Bearer " + TemplateText(config.cronSecret))
  }

  /** `req.query.secret === CRON_SECRET`. */
  predicate IsManualWithSecret(config: Config, request: Request)
  {
    request.querySecret == config.cronSecret
  }

  function Schedule(config: Config): string
  {
    IntToDecimal(config.startHour) + ":00 - " + IntToDecimal(config.endHour) + ":"
    + IntToDecimal(config.endMinute)
  }

  /** With the default settings the out-of-window response's `schedule` reads
      `20:00 - 23:59`. */
  lemma DefaultScheduleText(cronSecret: Option<string>)
    ensures Schedule(Config(cronSecret, 20, 23, 59)) == "20:00 - 23:59"
  {
    var config := Config(cronSecret, 20, 23, 59);
    assert IntToDecimal(20) == "20" by { TwoDigitDecimal(20); }
    assert IntToDecimal(23) == "23" by { TwoDigitDecimal(23); }
    assert IntToDecimal(59) == "59" by { TwoDigitDecimal(59); }
    assert Schedule(config) == "20" + ":00 - " + "23" + ":" + "59";
  }

  /** The early returns of `handler`, in order: the secret check, then the window. */
  function Gate(config: Config, request: Request, utcHour: int, utcMinute: int): Decision
  {
    if Truthy(config.cronSecret) && !IsVercelCron(config, request) && !IsManualWithSecret(config, request) then
      Respond(ErrorResponse(401, "Unauthorized"))
    else if !IsWithinSchedule(config, utcHour, utcMinute) then
      Respond(Response(200, Some(true), None, None, None, None,
                       Some("Fora do hor\U{00E1}rio de monitoramento"), Some(Schedule(config)), None))
    else RunIngest
  }

  /** `handler(req, res)` when an ingest run would end with `outcome`. */
  function Handler(config: Config, request: Request, utcHour: int, utcMinute: int,
                   outcome: Result<Summary, IngestError>): Response
  {
    Conclude(Gate(config, request, utcHour, utcMinute), outcome)
  }

  /** Without a secret configured no request is refused. */
  lemma NoSecretNeverUnauthorized(config: Config, request: Request, utcHour: int, utcMinute: int,
                                  outcome: Result<Summary, IngestError>)
    requires !Truthy(config.cronSecret)
    ensures Handler(config, request, utcHour, utcMinute, outcome).status != 401
  {
    FinishReports(outcome);
  }

  /** With a secret configured, a request is refused with 401 exactly when it carries
      neither `Bearer <secret>` as its authorization nor the secret as its query
      parameter, at any time of day and whatever the ingest would do. */
  lemma UnauthorizedIff(config: Config, request: Request, utcHour: int, utcMinute: int,
                        outcome: Result<Summary, IngestError>)
    requires Truthy(config.cronSecret)
    ensures Handler(config, request, utcHour, utcMinute, outcome).status == 401
            <==> && request.authorization != Some("Bearer " + config.cronSecret.value)
                 && request.querySecret != config.cronSecret
  {
    FinishReports(outcome);
  }

  /** The ingest runs exactly when the request passes the secret check and the clock
      is inside the window; an authorized request outside the window gets 200 with
      `success` and no counts. */
  lemma RunsIngestIff(config: Config, request: Request, utcHour: int, utcMinute: int)
    ensures var authorized := !Truthy(config.cronSecret) || IsVercelCron(config, request)
                              || IsManualWithSecret(config, request);
            && (Gate(config, request, utcHour, utcMinute).RunIngest?
                <==> authorized && IsWithinSchedule(config, utcHour, utcMinute))
            && (authorized && !IsWithinSchedule(config, utcHour, utcMinute) ==>
                  var response := Gate(config, request, utcHour, utcMinute).response;
                  response.status == 200 && response.success == Some(true) && response.total == None)
  {
  }
}
