/** The long-running poller: a schedule window read from the local clock, and the
    `startPolling` / `stopPolling` / `pollDiscord` state machine over the running
    flag, the interval handle and the statistics. Clock readings, the interval handle
    and the outcome of each ingest run are parameters. */
module Scheduler {
  import opened Results
  import opened JsStrings
  import opened Window
  import opened Timestamps
  import opened Pages
  import opened Ingest

  /** `POLLING_INTERVAL`, `START_HOUR`, `END_HOUR` and `END_MINUTE` once parsed. */
  datatype Config = Config(pollingInterval: int, startHour: int, endHour: int, endMinute: int)

  /** The values used when the environment sets none. */
  const DefaultConfig := Config(5000, 20, 23, 59)

  /** `stats`; `lastUpdate` is the time of the last successful poll, if any. */
  datatype Stats = Stats(totalMessages: nat, savedMessages: nat, lastUpdate: Option<nat>, errors: nat)

  const ZeroStats := Stats(0, 0, None, 0)

  /** `isWithinSchedule()` for the local clock reading `hour:minute`. */
  function IsWithinSchedule(config: Config, hour: int, minute: int): bool
  {
    WithinWindow(config.startHour, config.endHour, config.endMinute, hour, minute)
  }

  /** With the default settings the poller runs from 20:00 to 23:59. */
  lemma DefaultSchedule(hour: int, minute: int)
    requires 0 <= hour < 24 && 0 <= minute < 60
    ensures IsWithinSchedule(DefaultConfig, hour, minute) <==> 20 <= hour
  {
    WholeEndHour(20, 23, hour, minute);
  }

  /** `errorMessage.includes("401") || errorMessage.includes("Token")`. */
  predicate StopsPolling(message: string)
  {
    Contains(message, "401") || Contains(message, "Token")
  }

  /** A missing token stops the poller. */
  lemma MissingTokenStopsPolling()
    ensures StopsPolling(ErrorMessage(FetchFailed(MissingToken)))
  {
    var rest := " de autentica\U{00E7}\U{00E3}o n\U{00E3}o configurado no Supabase";
    ContainsMiddle("", "Token", rest);
    assert "" + ("Token" + rest) == "Token" + rest;
  }

  /** An HTTP 401 from Discord stops the poller, whatever its status text and body. */
  lemma UnauthorizedStopsPolling(statusText: string, body: string)
    ensures StopsPolling(ErrorMessage(FetchFailed(ApiError(401, statusText, body))))
  {
    var prefix, rest := "Erro na API do Discord: ", " " + statusText + " - " + body;
    assert NatToDecimal(401) == "401" by {
      assert NatToDecimal(4) == "4";
      assert NatToDecimal(40) == NatToDecimal(4) + [DigitChar(0)];
    }
    ContainsMiddle(prefix, "401", rest);
  }

  lemma NotContainsFirst(s: string, sub: string)
    requires sub != [] && sub[0] !in s
    ensures !Contains(s, sub)
  {
    forall i: nat | i <= |s| ensures !OccursAt(s, sub, i) {
    }
  }

  /** A malformed timestamp (a TypeError reading `split` or `padStart`) never stops
      the poller: its message holds neither "401" nor "Token". */
  lemma TypeErrorsKeepPolling(reading: string)
    requires ThrownReading(reading)
    ensures !StopsPolling(ErrorMessage(ParseFailed(reading)))
  {
    var message := ErrorMessage(ParseFailed(reading));
    assert '4' !in "Cannot read properties" && 'T' !in "Cannot read properties";
    assert '4' !in " of undefined (reading '" && 'T' !in " of undefined (reading '";
    assert '4' !in reading && 'T' !in reading;
    assert '4' !in "')" && 'T' !in "')";
    NotContainsFirst(message, "401");
    NotContainsFirst(message, "Token");
  }

  /** No parsing failure of an ingest run ever stops the poller. */
  lemma ParseErrorsKeepPolling(hasTodayLogs: bool, lastMessageId: string,
                               fetch: (nat, Option<string>) -> Result<seq<Message>, FetchError>,
                               overBudget: nat -> bool, save: seq<Record> -> nat)
    ensures var r := IngestRun(hasTodayLogs, lastMessageId, fetch, overBudget, save);
            r.Err? && r.error.ParseFailed? ==> !StopsPolling(ErrorMessage(r.error))
  {
    var r := IngestRun(hasTodayLogs, lastMessageId, fetch, overBudget, save);
    IngestRunParseReading(hasTodayLogs, lastMessageId, fetch, overBudget, save);
    if r.Err? && r.error.ParseFailed? {
      TypeErrorsKeepPolling(r.error.reading);
    }
  }

  /** A run whose request, within the cap and the time budget, finds no token or
      gets an HTTP 401 fails with that error, and the error stops the poller. */
  lemma RejectedFetchStopsPolling(hasTodayLogs: bool, lastMessageId: string,
                                  fetch: (nat, Option<string>) -> Result<seq<Message>, FetchError>,
                                  overBudget: nat -> bool, save: seq<Record> -> nat,
                                  pages: seq<seq<Message>>, e: FetchError)
    requires e.MissingToken? || e.status == 401
    requires FailsAfter(fetch, overBudget, StartCursor(hasTodayLogs, lastMessageId),
                        PageCap(hasTodayLogs), 0, pages, e)
    ensures var r := IngestRun(hasTodayLogs, lastMessageId, fetch, overBudget, save);
            r == Err(FetchFailed(e)) && StopsPolling(ErrorMessage(r.error))
  {
    IngestRunFetchFailed(hasTodayLogs, lastMessageId, fetch, overBudget, save, e);
    match e
    case MissingToken => MissingTokenStopsPolling();
    case ApiError(_, statusText, body) => UnauthorizedStopsPolling(statusText, body);
  }

  /** The module-level state of the poller. */
  class Poller {
    const config: Config
    var isRunning: bool
    /** `pollingInterval`: the handle `setInterval` returned, or `null`. */
    var pollingInterval: Option<nat>
    var stats: Stats

    /** The state when the module is loaded. */
    constructor(config: Config)
      ensures this.config == config
      ensures !isRunning && pollingInterval == None && stats == ZeroStats
    {
      this.config := config;
      isRunning := false;
      pollingInterval := None;
      stats := ZeroStats;
    }

    /** The poller runs exactly when an interval is set. `StopPolling`,
        `RecordOutcome` and `PollDiscord` keep this; `StartPolling` breaks it when the
        immediate poll finds the clock outside the window, since the interval is set
        after that poll has stopped the poller. The next tick stops it again and
        clears the interval. */
    predicate Valid()
      reads this
    {
      isRunning <==> pollingInterval.Some?
    }

    /** `stopPolling()`: clear the interval and the running flag; the statistics stay. */
    method StopPolling()
      modifies this
      ensures !isRunning && pollingInterval == None
      ensures stats == old(stats)
      ensures Valid()
    {
      if pollingInterval.Some? {
        pollingInterval := None;
      }
      isRunning := false;
    }

    /** The `try`/`catch` of `pollDiscord()`, once the ingest run ended with `outcome`
        at time `now`: a success adds to the counters and stamps `lastUpdate`; a
        failure counts one error and stops the poller exactly when its message looks
        like an authentication problem. */
    method RecordOutcome(outcome: Result<Summary, IngestError>, now: nat)
      modifies this
      ensures outcome.Ok? ==>
                && stats == old(stats).(totalMessages := old(stats.totalMessages) + outcome.value.total,
                                        savedMessages := old(stats.savedMessages) + outcome.value.saved,
                                        lastUpdate := Some(now))
                && isRunning == old(isRunning) && pollingInterval == old(pollingInterval)
      ensures outcome.Err? ==> stats == old(stats).(errors := old(stats.errors) + 1)
      ensures outcome.Err? && StopsPolling(ErrorMessage(outcome.error)) ==>
                !isRunning && pollingInterval == None
      ensures outcome.Err? && !StopsPolling(ErrorMessage(outcome.error)) ==>
                isRunning == old(isRunning) && pollingInterval == old(pollingInterval)
      ensures old(Valid()) ==> Valid()
    {
      match outcome
      case Ok(result) =>
        stats := stats.(totalMessages := stats.totalMessages + result.total,
                        savedMessages := stats.savedMessages + result.saved,
                        lastUpdate := Some(now));
      case Err(error) =>
        stats := stats.(errors := stats.errors + 1);
        var errorMessage := ErrorMessage(error);
        if Contains(errorMessage, "401") || Contains(errorMessage, "Token") {
          StopPolling();
        }
    }

    /** `pollDiscord()` run by the interval at local time `hour:minute`: outside the
        window it stops the poller and leaves the statistics alone; inside it records
        the outcome of the ingest run. */
    method PollDiscord(hour: int, minute: int, outcome: Result<Summary, IngestError>, now: nat)
      modifies this
      ensures !IsWithinSchedule(config, hour, minute) ==>
                !isRunning && pollingInterval == None && stats == old(stats)
      ensures IsWithinSchedule(config, hour, minute) && outcome.Ok? ==>
                && stats.totalMessages == old(stats.totalMessages) + outcome.value.total
                && stats.savedMessages == old(stats.savedMessages) + outcome.value.saved
                && stats.errors == old(stats.errors)
                && stats.lastUpdate == Some(now)
                && isRunning == old(isRunning) && pollingInterval == old(pollingInterval)
      ensures IsWithinSchedule(config, hour, minute) && outcome.Err? ==>
                && stats == old(stats).(errors := old(stats.errors) + 1)
                && (StopsPolling(ErrorMessage(outcome.error)) ==> !isRunning && pollingInterval == None)
                && (!StopsPolling(ErrorMessage(outcome.error)) ==>
                      isRunning == old(isRunning) && pollingInterval == old(pollingInterval))
      ensures old(Valid()) ==> Valid()
    {
      if !IsWithinSchedule(config, hour, minute) {
        StopPolling();
        return;
      }
      RecordOutcome(outcome, now);
    }

    /** `startPolling()` at local time `hour:minute`. Already running, or outside the
        window, it changes nothing. Otherwise it sets the running flag, resets the
        statistics, starts the immediate poll, whose window check reads the clock again
        (`pollHour:pollMinute`) and stops the poller when that reading is outside the
        window, and then stores the interval handle `handle`. The immediate poll's
        ingest outcome arrives later and is recorded by `RecordOutcome`. */
    method StartPolling(hour: int, minute: int, pollHour: int, pollMinute: int, handle: nat)
      modifies this
      ensures old(isRunning) || !IsWithinSchedule(config, hour, minute) ==>
                isRunning == old(isRunning) && pollingInterval == old(pollingInterval)
                && stats == old(stats)
      ensures !old(isRunning) && IsWithinSchedule(config, hour, minute) ==>
                && stats == ZeroStats
                && pollingInterval == Some(handle)
                && (isRunning <==> IsWithinSchedule(config, pollHour, pollMinute))
      ensures old(Valid()) && (old(isRunning) || !IsWithinSchedule(config, hour, minute)) ==> Valid()
      ensures !old(isRunning) && IsWithinSchedule(config, hour, minute) ==>
                (Valid() <==> IsWithinSchedule(config, pollHour, pollMinute))
    {
      if isRunning {
        return;
      }
      if !IsWithinSchedule(config, hour, minute) {
        return;
      }
      isRunning := true;
      stats := ZeroStats;
      if !IsWithinSchedule(config, pollHour, pollMinute) {
        StopPolling();
      }
      pollingInterval := Some(handle);
    }
  }
}
