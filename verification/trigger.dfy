/** The `/api/trigger` endpoint called by external cron services: a mandatory shared
    secret, a window on the São Paulo hour that an explicit `force=true` bypasses,
    then the ingest run. */
module Trigger {
  import opened Results
  import opened JsStrings
  import opened Window
  import opened Ingest
  import opened HttpResponses

  /** `CRON_SECRET`, `START_HOUR` and `END_HOUR`. */
  datatype Config = Config(cronSecret: Option<string>, startHour: int, endHour: int)

  /** The request fields the handler reads: `query.secret`, the `x-cron-secret` header
      and `query.force`. */
  datatype Request = Request(querySecret: Option<string>, headerSecret: Option<string>, force: Option<string>)

  /** `isWithinSchedule()` for the UTC reading `utcHour:utcMinute`; the end hour is
      always taken to its minute 59. */
  function IsWithinSchedule(config: Config, utcHour: int, utcMinute: int): bool
  {
    WithinWindow(config.startHour, config.endHour, 59, LocalHour(utcHour), utcMinute)
  }

  /** The minute never excludes a reading: the window is a range of local hours. */
  lemma WindowIgnoresMinute(config: Config, utcHour: int, utcMinute: int)
    requires 0 <= utcHour < 24 && 0 <= utcMinute < 60
    ensures IsWithinSchedule(config, utcHour, utcMinute)
            <==> config.startHour <= LocalHour(utcHour) <= config.endHour
    ensures 0 <= LocalHour(utcHour) < 24
  {
    LocalHourRange(utcHour);
    WholeEndHour(config.startHour, config.endHour, LocalHour(utcHour), utcMinute);
  }

  /** `req.query.secret || req.headers["x-cron-secret"]`. */
  function ProvidedSecret(request: Request): Option<string>
  {
    if Truthy(request.querySecret) then request.querySecret else request.headerSecret
  }

  function Schedule(config: Config): string
  {
    IntToDecimal(config.startHour) + ":00 - " + IntToDecimal(config.endHour) + ":59"
  }

  function CurrentTime(utcHour: int, utcMinute: nat): string
  {
    IntToDecimal(LocalHour(utcHour)) + ":" + PadStart2(NatToDecimal(utcMinute))
  }

  /** The `currentTime` of a skipped response reads as the local hour in digits, a
      `:`, and the minute in two digits. */
  lemma CurrentTimeReads(utcHour: int, utcMinute: nat)
    requires 0 <= utcHour < 24 && utcMinute < 60
    ensures var t := CurrentTime(utcHour, utcMinute);
            var n := |t| - 3;
            && n >= 1 && t[n] == ':'
            && IsNumeral(t[..n], LocalHour(utcHour))
            && |t[n + 1..]| == 2 && IsNumeral(t[n + 1..], utcMinute)
  {
    var hour := LocalHour(utcHour);
    var h, m := IntToDecimal(hour), PadStart2(NatToDecimal(utcMinute));
    assert IsNumeral(h, hour) by {
      LocalHourRange(utcHour);
      NonNegativeDecimal(hour);
    }
    assert |m| == 2 && IsNumeral(m, utcMinute) by {
      TwoDigits(utcMinute);
    }
    ClockParts(h, m, hour, utcMinute);
  }

  /** `h:m` with a two-character `m` cuts back into `h` and `m`. */
  lemma ClockParts(h: string, m: string, hour: int, minute: int)
    requires IsNumeral(h, hour) && |m| == 2 && IsNumeral(m, minute)
    ensures var t := h + ":" + m;
            var n := |t| - 3;
            && n >= 1 && t[n] == ':'
            && IsNumeral(t[..n], hour)
            && |t[n + 1..]| == 2 && IsNumeral(t[n + 1..], minute)
  {
    var t := h + ":" + m;
    assert t[..|h|] == h;
    assert t[|h| + 1..] == m;
  }

  /** With the default hours the skipped response's `schedule` reads `20:00 - 23:59`. */
  lemma DefaultScheduleText(cronSecret: Option<string>)
    ensures Schedule(Config(cronSecret, 20, 23)) == "20:00 - 23:59"
  {
    var config := Config(cronSecret, 20, 23);
    assert IntToDecimal(20) == "20" by { TwoDigitDecimal(20); }
    assert IntToDecimal(23) == "23" by { TwoDigitDecimal(23); }
    assert Schedule(config) == "20" + ":00 - " + "23" + ":59";
  }

  /** The early returns of `handler`, in order: no secret configured, wrong secret,
      outside the window without `force=true`. */
  function Gate(config: Config, request: Request, utcHour: int, utcMinute: nat): Decision
  {
    if !Truthy(config.cronSecret) then Respond(ErrorResponse(500, "CRON_SECRET not configured"))
    else if ProvidedSecret(request) != config.cronSecret then Respond(ErrorResponse(401, "Unauthorized"))
    else if request.force != Some("true") && !IsWithinSchedule(config, utcHour, utcMinute) then
      Respond(Response(200, Some(true), Some(true), None, None, None,
                       Some("Fora do hor\U{00E1}rio de monitoramento"), Some(Schedule(config)),
                       Some(CurrentTime(utcHour, utcMinute))))
    else RunIngest
  }

  /** `handler(req, res)` when an ingest run would end with `outcome`. */
  function Handler(config: Config, request: Request, utcHour: int, utcMinute: nat,
                   outcome: Result<Summary, IngestError>): Response
  {
    Conclude(Gate(config, request, utcHour, utcMinute), outcome)
  }

  /** Without a configured secret every request gets 500 and nothing runs. */
  lemma NoSecretFails(config: Config, request: Request, utcHour: int, utcMinute: nat,
                      outcome: Result<Summary, IngestError>)
    requires !Truthy(config.cronSecret)
    ensures Gate(config, request, utcHour, utcMinute).Respond?
    ensures Handler(config, request, utcHour, utcMinute, outcome)
            == ErrorResponse(500, "CRON_SECRET not configured")
  {
  }

  /** A request is refused with 401 exactly when a secret is configured and the secret
      it provides is a different one. */
  lemma UnauthorizedIff(config: Config, request: Request, utcHour: int, utcMinute: nat,
                        outcome: Result<Summary, IngestError>)
    ensures Handler(config, request, utcHour, utcMinute, outcome).status == 401
            <==> Truthy(config.cronSecret) && ProvidedSecret(request) != config.cronSecret
  {
    FinishReports(outcome);
  }

  /** The ingest runs exactly when the right secret is provided and either `force` is
      `"true"` or the local hour lies in the window. */
  lemma RunsIngestIff(config: Config, request: Request, utcHour: int, utcMinute: nat)
    requires 0 <= utcHour < 24 && utcMinute < 60
    ensures Gate(config, request, utcHour, utcMinute).RunIngest?
            <==> && Truthy(config.cronSecret) && ProvidedSecret(request) == config.cronSecret
                 && (request.force == Some("true")
                     || config.startHour <= LocalHour(utcHour) <= config.endHour)
  {
    WindowIgnoresMinute(config, utcHour, utcMinute);
  }

  /** An authorized request outside the window and without `force=true` gets 200 with
      `success` and `skipped`, whatever the ingest would have done; no other request is
      marked skipped. */
  lemma SkippedIff(config: Config, request: Request, utcHour: int, utcMinute: nat,
                   outcome: Result<Summary, IngestError>)
    ensures var response := Handler(config, request, utcHour, utcMinute, outcome);
            && (response.skipped == Some(true)
                <==> && Truthy(config.cronSecret) && ProvidedSecret(request) == config.cronSecret
                     && request.force != Some("true") && !IsWithinSchedule(config, utcHour, utcMinute))
            && (response.skipped == Some(true) ==> response.status == 200 && response.success == Some(true))
  {
    FinishReports(outcome);
  }
}
