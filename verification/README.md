# Discord log ingest worker — a Dafny model

The worker copies "log" messages from one Discord channel into a Postgres table.
Each message may hold several lines. A line is kept when it carries a timestamp
written between backticks as `` `DD/MM/YYYY HH:MM:SS` ``. That timestamp is
rewritten as `YYYY-MM-DD HH:MM:SS`.

A run does the following:

- It picks a cursor: the raw id of the last stored message, but only when logs from
  today's session already exist.
- It fetches up to 10 pages of 100 messages after that cursor (1 page on the first
  run of a session). It stops early on a short or empty page, or when its time budget
  is spent.
- It turns every message into records.
- It saves the records in batches of 500, and returns `{ total, saved }`.

Three drivers run it:

- a long-running poller, which starts and stops on a daily window of the local clock;
- the `/api/trigger` HTTP endpoint, which needs a secret, checks the window on
  UTC−3 and can be forced;
- the `/api/cron` HTTP endpoint, where the secret is optional and may come as a
  bearer token.

The model has these modules:

- `Results`: `Option` and `Result`.
- `JsStrings`: the JavaScript string operations the code relies on, over `seq<char>`:
  - `split` with a one-character separator, and `split(/\r?\n/)`;
  - the `\s` / `trim()` whitespace set;
  - `padStart(2, "0")` and `includes`;
  - number-to-text.
- `Timestamps`: `extractTimestampFromContent`. It holds a scanner for the regular
  expression, the `split`/`padStart` conversion, and its three outcomes: no match, a
  timestamp, or the `TypeError` the conversion throws.
- `Pages`: `processMessagesPage`. This is the specification function `PageRecords`
  and the method `ProcessMessagesPage`. Its loop body is `PushMessageRecords`, and
  the `forEach` over a composite message's lines is `PushLineRecords`.
- `Ingest`: `fetchDiscordMessages`' errors, and `processAndSaveMessages`, which is
  the specification function `IngestRun` and the methods `FetchPages`, `SaveInBatches` and
  `ProcessAndSaveMessages`. The Discord API, the store and the clock are function
  parameters:
  - `fetch(request number, after)` returns a page or an error;
  - `overBudget(pages fetched so far)` stands for `Date.now() - startTime > 25000`;
  - `save(batch)` is the number of rows the store reports for a batch.
- `Window`: the hour/minute comparison chain the three `isWithinSchedule`s share,
  and the UTC−3 local hour.
- `Scheduler`: the poller's module state as the class `Poller`, with
  `startPolling`, `stopPolling` and `pollDiscord` as methods. Clock readings, the
  interval handle and each poll's ingest outcome are parameters. `Poller.Valid`
  (running exactly when an interval is set) is kept by every method except one
  path of `StartPolling`: when its immediate poll finds the clock outside the
  window, the poller is stopped before the interval is stored, so it is left not
  running with an interval set until the next tick's `stopPolling` clears it.
- `HttpResponses`, `Trigger`, `Cron`: the two HTTP handlers. Each is modelled as a
  gate, which holds its ordered early returns, followed by the shared report of the
  ingest outcome.

Three behaviours of the code are easy to miss. The model keeps each of them as the code has it:

- **Whitespace between date and time.** The regular expression accepts any run of
  `\s` between the date and the time, but the conversion splits on a single `" "`.
  The conversion succeeds exactly when the run holds one space; other whitespace in
  the run stays glued to the year and the hour. A run without a space throws a
  `TypeError` reading `split`, and a run with two or more spaces throws one reading
  `padStart`. The error is not caught: it aborts `processMessagesPage` and the whole
  run (`ExtractTimestampSpec`, `LineRecordsErr`, `PageRecordsErr`).
- **Messages with one non-blank line.** The timestamp is taken from the message's
  whole `content`, blank lines included, and the record keeps that whole content.
- **Runs with no pages fetched.** When nothing is fetched the run reports
  `{0, 0}` before any parsing.

## Model

| member | source | states |
|---|---|---|
| JsStrings.IsWhitespace | src/discord.ts:10 | no contract of its own: the characters `\s` matches and `trim()` strips; see `Timestamps.WsRun` and `JsStrings.NonBlankOne` |
| JsStrings.IsBlank | src/discord.ts:101 | no contract of its own: `trim()` leaves nothing; see `JsStrings.NonBlank` and `JsStrings.NonBlankOne` |
| JsStrings.IsDigit | src/discord.ts:10 | no contract of its own: the characters `\d` matches; see `Timestamps.MatchShape` and `JsStrings.DecimalRoundTrip` |
| JsStrings.Split | src/discord.ts:16-18 | `split` with a one-character separator always yields at least one part |
| JsStrings.SplitJoin | src/discord.ts:16-18 | no part holds the separator, and joining the parts with it gives back the text |
| JsStrings.SplitPrefix | src/discord.ts:16-18 | text free of the separator ahead of the rest is glued onto the first part |
| JsStrings.SplitNoSeparator | src/discord.ts:16-18 | text without the separator splits into itself alone |
| JsStrings.SplitAtSeparator | src/discord.ts:16-18 | `a + sep + b` splits into `a` followed by the parts of `b` |
| JsStrings.SplitThree | src/discord.ts:17-18 | three separator-free pieces joined by the separator split back into those three |
| JsStrings.SplitLines | src/discord.ts:101 | `split(/\r?\n/)` yields at least one line, and no line holds a `\n` |
| JsStrings.SplitLinesNoBreak | src/discord.ts:101 | a text without `\n` is one line, itself |
| JsStrings.SplitLinesPrefix | src/discord.ts:101 | text without `\n` ahead of the rest is glued onto the first line, unless it ends a `\r\n` |
| JsStrings.SplitLinesAtLf | src/discord.ts:101 | `a + "\n" + b` splits into `a` followed by the lines of `b` when `a` does not end in `\r` |
| JsStrings.SplitLinesAtCrLf | src/discord.ts:101 | `a + "\r\n" + b` splits into `a` (without the `\r`) followed by the lines of `b` |
| JsStrings.NonBlank | src/discord.ts:101 | the filter keeps every non-blank line and only lines that are non-blank and from the input |
| JsStrings.NonBlankAppend | src/discord.ts:101 | the filter distributes over concatenation, keeping the order |
| JsStrings.NonBlankOne | src/discord.ts:101 | a single line is kept exactly when it is not blank |
| JsStrings.PadStart2 | src/discord.ts:20-23 | the result has at least two characters, ends with the input, and leaves an input of two or more alone; a shorter input is padded to exactly two with leading `0`s |
| JsStrings.DigitChar | src/discord.ts:112 | a digit value renders as a decimal digit |
| JsStrings.NatToDecimal | src/discord.ts:112 | a number renders as a non-empty string of digits; zero renders as `"0"` and no other number starts with `0` |
| JsStrings.IntToDecimal | api/trigger.ts:59-65 | an integer renders as a non-empty text that starts with `-` exactly when it is negative, followed by digits that read back its magnitude |
| JsStrings.TwoDigits | api/trigger.ts:64 | `toString().padStart(2, "0")` of a minute below 100 is two digits that read back the minute |
| JsStrings.DecimalRoundTrip | src/discord.ts:112 | reading the rendered digits back gives the number |
| JsStrings.DecimalInjective | src/discord.ts:112 | different numbers render differently |
| JsStrings.Contains | src/scheduler.ts:59 | no contract of its own: `includes`; see `JsStrings.ContainsMiddle` and `Scheduler.NotContainsFirst` |
| JsStrings.ContainsMiddle | src/scheduler.ts:59 | `includes` finds a text wherever it sits inside another |
| JsStrings.Count | src/discord.ts:16 | the count of a character is zero exactly when it is absent, and at most the length |
| JsStrings.IndexOf | src/discord.ts:16 | the first position of a character: it holds the character and no earlier position does |
| JsStrings.IndexOfSplits | src/discord.ts:16 | the text is cut at that position into before, the character and after, and one occurrence is left behind |
| JsStrings.CountAfterFirst | src/discord.ts:16 | after the first occurrence, one occurrence fewer remains |
| Timestamps.WsRun | src/discord.ts:10 | `\s+` takes the longest whitespace run: every character in it is whitespace, the next is not |
| Timestamps.DigitsAt | src/discord.ts:10 | no contract of its own: `\d{n}` at a position; see `Timestamps.MatchShape` |
| Timestamps.MatchAt | src/discord.ts:10 | no contract of its own; see `Timestamps.FirstMatch` and `Timestamps.MatchShape` |
| Timestamps.TimeStart | src/discord.ts:10 | in a match the time starts after the date and at least one whitespace character, within the text |
| Timestamps.Gap | src/discord.ts:10 | the matched gap between date and time is non-empty whitespace |
| Timestamps.FirstMatch | src/discord.ts:10-11 | `match` finds the leftmost match, or none when there is no match anywhere |
| Timestamps.ConvertToken | src/discord.ts:16-23 | once a token matched, the conversion never gives `null`: a text or a thrown error, and the error reads `split` or `padStart` of undefined |
| Timestamps.DatePieces | src/discord.ts:17 | a matched date plus trailing whitespace is day, month and year joined by `/`, with no other `/` |
| Timestamps.SplitDate | src/discord.ts:17 | splitting that date on `/` gives day, month and year (with the whitespace) |
| Timestamps.TimePieces | src/discord.ts:18 | leading whitespace plus a matched time is hour, minute and second joined by `:` |
| Timestamps.SplitTime | src/discord.ts:18 | splitting that time on `:` gives hour (with the whitespace), minute and second |
| Timestamps.NoSpaceInDate | src/discord.ts:16 | a matched date holds no space |
| Timestamps.NoSpaceInTime | src/discord.ts:16 | a matched time holds no space |
| Timestamps.ConvertWithoutSpace | src/discord.ts:16-18 | a gap without a space makes the conversion throw, reading `split` |
| Timestamps.ConvertOfParts | src/discord.ts:16-23 | once the three splits succeed, the result is year-month-day hour:minute:second |
| Timestamps.SplitTokenAtSpace | src/discord.ts:16 | a token whose gap holds one space splits into date part and time part |
| Timestamps.ConvertWithOneSpace | src/discord.ts:16-23 | a gap with one space converts, other whitespace staying with year and hour |
| Timestamps.ConvertWithManySpaces | src/discord.ts:16-20 | a gap with two spaces or more makes the conversion throw, reading `padStart` |
| Timestamps.ConvertGapWithOneSpace | src/discord.ts:16-23 | the one-space conversion stated for any whitespace gap holding exactly one space |
| Timestamps.WhitespaceHasNoColon | src/discord.ts:10 | `\s` characters are never `:` |
| Timestamps.TwoSpaces | src/discord.ts:16 | a gap with two spaces or more splits around its first two spaces |
| Timestamps.ConvertGapWithManySpaces | src/discord.ts:16-20 | any whitespace gap with two spaces or more makes the conversion throw, reading `padStart` |
| Timestamps.ConvertShape | src/discord.ts:16-23 | the conversion throws for zero or several spaces and converts for exactly one |
| Timestamps.Token | src/discord.ts:13 | the captured group is the date, the gap and the time of the match |
| Timestamps.Canonical | src/discord.ts:22 | no contract of its own: the output template; see `Timestamps.ConvertSingleSpace` and `Timestamps.ExtractTimestampSpec` |
| Timestamps.ConvertSingleSpace | src/discord.ts:16-23 | a date and a time separated by one plain space give the 19-character `YYYY-MM-DD HH:MM:SS` |
| Timestamps.MatchShape | src/discord.ts:10 | a match holds a `DD/MM/YYYY` date and an `HH:MM:SS` time |
| Timestamps.ConvertMatch | src/discord.ts:13-23 | a match converts exactly when its gap holds one space; a single-space gap gives the 19-character canonical text |
| Timestamps.ExtractTimestampSpec | src/discord.ts:9-24 | `null` exactly when nothing matches; otherwise the first match throws exactly when its gap does not hold one space, and a single-space gap gives `YYYY-MM-DD HH:MM:SS` of the matched fields |
| Timestamps.ExtractTimestamp | src/discord.ts:9-24 | no contract of its own; see `Timestamps.ExtractTimestampSpec` |
| Timestamps.ExtractTimestampReading | src/discord.ts:16-23 | a thrown extraction reads `split` or `padStart` of undefined |
| Pages.Then | src/discord.ts:109-113 | pushing records ahead of the rest keeps them first and the rest after, and passes an error through |
| Pages.Combine | src/discord.ts:98-127 | two successes give the first's records followed by the second's; otherwise the first error wins |
| Pages.ThenThen | src/discord.ts:109-113 | pushing `a` then `b` is pushing `a + b` |
| Pages.CompositeId | src/discord.ts:112 | the key is the id, `_`, and the decimal index |
| Pages.CompositeIdInjective | src/discord.ts:112 | two lines of the same message never share a key |
| Pages.ContentLines | src/discord.ts:101 | the kept lines are non-blank, hold no line break, and every non-blank line is kept |
| Pages.Extractions | src/discord.ts:107 | entry `k` is the extraction of line `k` |
| Pages.LineRecord | src/discord.ts:109-113 | no contract of its own: the object pushed for line `k`; see `Pages.LineRecordsShape` |
| Pages.Kept | src/discord.ts:106-115 | the indices of the lines with a timestamp, increasing, each one exactly when that line has a timestamp |
| Pages.LineRecords | src/discord.ts:106-115 | no contract of its own; see `Pages.LineRecordsErr`, `Pages.LineRecordsShape` and `Pages.LineKeysDistinct` |
| Pages.MessageRecords | src/discord.ts:98-127 | no contract of its own; see `Pages.EmptyMessageRecords`, `Pages.SingleLineRecords` and `Pages.MultiLineRecords` |
| Pages.PageRecords | src/discord.ts:95-130 | no contract of its own; see `Pages.PageRecordsAppend`, `Pages.PageRecordsErr` and `Pages.PageRecordsTimestamped` |
| Pages.LineRecordsErr | src/discord.ts:106-115 | the lines of a composite message fail exactly when one line's extraction throws |
| Pages.LineRecordsShape | src/discord.ts:106-115 | otherwise, record `j` is the `j`-th kept line, in order |
| Pages.ShapeWithTimestamp | src/discord.ts:107-114 | a line with a timestamp puts its record ahead of the records of the later lines |
| Pages.LineKeysDistinct | src/discord.ts:106-115 | the records of a composite message have pairwise different keys |
| Pages.EmptyMessageRecords | src/discord.ts:99 | a message with no content or no id gives no record |
| Pages.SingleLineRecords | src/discord.ts:116-124 | a message with at most one non-blank line gives at most one record, with its own id and whole content, exactly when the content has a timestamp |
| Pages.MultiLineRecords | src/discord.ts:101-115 | a message with several lines fails exactly when a line throws; otherwise it gives one record per line with a timestamp, keyed `<id>_<index>` |
| Pages.MessageRecordsTimestamped | src/discord.ts:98-127 | every record carries the timestamp extracted from its own content |
| Pages.PageRecordsTimestamped | src/discord.ts:95-130 | the same for every record of a page |
| Pages.PageRecordsAppend | src/discord.ts:98-127 | the records of `a + b` are those of `a` then those of `b` |
| Pages.PageRecordsErr | src/discord.ts:95-130 | a page fails exactly when one of its messages fails |
| Pages.LineRecordsReading | src/discord.ts:106-115 | the error a composite message's lines throw reads `split` or `padStart` |
| Pages.MessageRecordsReading | src/discord.ts:98-127 | the error a message throws reads `split` or `padStart` |
| Pages.PageRecordsReading | src/discord.ts:95-130 | the error a page throws reads `split` or `padStart` |
| Pages.PageRecordsStep | src/discord.ts:98-127 | the records from message `i` on are message `i`'s then the rest's |
| Pages.PageStep | src/discord.ts:98-127 | one step of the loop over the messages |
| Pages.PushLineRecords | src/discord.ts:106-115 | the `forEach` pushes exactly the records `LineRecords` gives for the lines, or stops with the error a line throws |
| Pages.PushMessageRecords | src/discord.ts:99-125 | one pass of the message loop pushes exactly the records of that message, or stops with its error |
| Pages.ProcessMessagesPage | src/discord.ts:95-130 | the loop over the messages returns exactly `PageRecords`, the error included |
| Ingest.RawId | src/discord.ts:145 | `split("_")[0]` is the longest prefix of the stored id without `_`: it holds no `_` and is the whole id or is followed by `_` |
| Ingest.RawIdOfKey | src/discord.ts:145 | it recovers the message id from a composite key `<id>_<index>` and leaves a plain id alone |
| Ingest.StartCursor | src/discord.ts:141-152 | a cursor exists exactly when today's logs exist and the last id is non-empty, and it is that id's raw part |
| Ingest.PageCap | src/discord.ts:161 | 10 pages when today's logs exist, 1 otherwise |
| Ingest.AfterParam | src/discord.ts:76-79 | `after` is sent exactly when the cursor is a non-empty id |
| Ingest.ErrorMessage | src/discord.ts:69-88 | no contract of its own; see `Scheduler.MissingTokenStopsPolling`, `Scheduler.UnauthorizedStopsPolling` and `Scheduler.TypeErrorsKeepPolling` |
| Ingest.Paginate | src/discord.ts:166-200 | no contract of its own; see `Ingest.PaginateShape`, `Ingest.PaginateRequests`, `Ingest.PaginateWithinBudget`, `Ingest.PaginateStop` and `Ingest.PaginateErrIff` |
| Ingest.PagesThen | src/discord.ts:184 | on success the pages already fetched come first and the later pages after them; a later error passes through |
| Ingest.PaginateShape | src/discord.ts:166-200 | at most `cap` pages, none empty, and all but the last full |
| Ingest.PaginateRequests | src/discord.ts:176-194 | page `k` is what request `k + 1` returned after the last id of page `k - 1` (or after the start cursor) |
| Ingest.RequestsStep | src/discord.ts:187-194 | one step of that request trace |
| Ingest.PaginateStop | src/discord.ts:166-181 | short of the cap and without a short last page, the loop stopped on the time budget or an empty page |
| Ingest.PaginateWithinBudget | src/discord.ts:166-173 | a spent time budget ends the loop successfully with no more pages, and every page of a successful loop was requested while the budget held |
| Ingest.CursorBefore | src/discord.ts:156-192 | no contract of its own: `currentAfterId` before request `k`, the start cursor or the last id of page `k - 1`; see `Ingest.PaginateRequests` |
| Ingest.Answered | src/discord.ts:173-194 | no contract of its own: full pages, each the answer to request `count + k + 1` sent after the previous page's last id; see `Ingest.PaginateRequests` for the successful loop |
| Ingest.FailsAfter | src/discord.ts:166-194 | no contract of its own: the loop reached a request within the cap and the time budget, after full pages each fetched after the previous page's last id, and that request threw `e` |
| Ingest.FailsAfterCons | src/discord.ts:166-194 | a full page fetched within the cap and the budget, followed by a failure after the rest, is a failure after all the pages |
| Ingest.FailsAfterTail | src/discord.ts:166-194 | a failure after a first page and more starts with a full page fetched within the cap and the budget, and is a failure after the rest from the state that page leaves |
| Ingest.PaginateFailsAt | src/discord.ts:166-200 | a request that throws within the cap and the budget, after full pages, makes the whole loop throw that error |
| Ingest.PaginateErrOrigin | src/discord.ts:166-200 | the loop throws only from such a request |
| Ingest.PaginateErrIff | src/discord.ts:166-200 | the loop throws `e` exactly when such a request threw `e` |
| Ingest.Concat | src/discord.ts:184 | no contract of its own: `allMessages.concat`; see `Ingest.ConcatLength` and `Ingest.ConcatAppend` |
| Ingest.ConcatLength | src/discord.ts:184 | the concatenated messages number the sum of the page sizes |
| Ingest.ConcatAppend | src/discord.ts:184 | concatenation distributes over appending pages |
| Ingest.Batches | src/discord.ts:217-219 | no contract of its own; see `Ingest.BatchesPartition` |
| Ingest.BatchesPartition | src/discord.ts:217-223 | the batches concatenate back to the records, each holds 1 to 500, all but the last exactly 500, and there are ⌈n/500⌉ of them |
| Ingest.SavedAtMostRecords | src/discord.ts:214-223 | when each batch saves at most its size, `saved` is at most the number of records |
| Ingest.SavedTotal | src/discord.ts:214-223 | no contract of its own: `savedCount` over the batches; see `Ingest.SaveInBatches` and `Ingest.SavedAtMostRecords` |
| Ingest.IngestRunTotal | src/discord.ts:166-228 | a successful run fetched at most the cap, each page while the time budget held, reports as `total` the messages fetched, and saves nothing when it fetched nothing; a budget spent from the start gives `{0, 0}` |
| Ingest.IngestRun | src/discord.ts:133-233 | no contract of its own; see `Ingest.IngestRunTotal`, `Ingest.IngestRunParseReading` and `Ingest.ProcessAndSaveMessages` |
| Ingest.IngestRunParseReading | src/discord.ts:210 | a run that fails while parsing fails with a `TypeError` reading `split` or `padStart` |
| Ingest.IngestRunFetchFailed | src/discord.ts:133-233 | a run throws the fetch error `e` exactly when a request from the start cursor, within the page cap and the time budget, threw `e` after full pages: a failed fetch is fatal for the run |
| Ingest.PaginateStep | src/discord.ts:173-194 | one iteration of the pagination loop on a full page |
| Ingest.BatchStep | src/discord.ts:218-223 | one iteration of the batch loop |
| Ingest.FetchPages | src/discord.ts:154-200 | the loop fails exactly when `Paginate` does, with its error, and otherwise gathers the messages of its pages |
| Ingest.SaveInBatches | src/discord.ts:214-224 | the loop's count is the sum of what the store reports per batch of 500 |
| Ingest.ProcessAndSaveMessages | src/discord.ts:133-233 | the run returns exactly `IngestRun`, its errors included |
| Window.WithinWindow | src/scheduler.ts:22-33 | no contract of its own; see `Window.WithinWindowInterval` |
| Window.WithinWindowInterval | src/scheduler.ts:22-33 | the comparison chain accepts exactly the minutes from `start:00` to `end:endMinute` |
| Window.WholeEndHour | api/trigger.ts:17-19 | with end minute 59 the window is the hours from `start` to `end` |
| Window.LocalHour | api/trigger.ts:14 | no contract of its own; see `Window.LocalHourRange` |
| Window.LocalHourRange | api/trigger.ts:14 | the UTC−3 hour is in 0..23: three hours back, wrapping past midnight |
| Scheduler.IsWithinSchedule | src/scheduler.ts:22-33 | no contract of its own; see `Scheduler.DefaultSchedule` and `Window.WithinWindowInterval` |
| Scheduler.DefaultSchedule | src/scheduler.ts:7-10 | with the default settings the window is 20:00 to 23:59 |
| Scheduler.StopsPolling | src/scheduler.ts:59 | no contract of its own; see `Scheduler.MissingTokenStopsPolling`, `Scheduler.UnauthorizedStopsPolling` and `Scheduler.TypeErrorsKeepPolling` |
| Scheduler.MissingTokenStopsPolling | src/scheduler.ts:57-62 | a missing token stops the poller |
| Scheduler.UnauthorizedStopsPolling | src/scheduler.ts:57-62 | an HTTP 401 from Discord stops the poller |
| Scheduler.NotContainsFirst | src/scheduler.ts:59 | a text without the first character of another never includes it |
| Scheduler.TypeErrorsKeepPolling | src/scheduler.ts:57-62 | the `TypeError` a malformed timestamp throws (reading `split` or `padStart`) never stops the poller |
| Scheduler.ParseErrorsKeepPolling | src/scheduler.ts:53-62 | no run that fails while parsing stops the poller |
| Scheduler.RejectedFetchStopsPolling | src/scheduler.ts:53-62 | a run whose request finds no token or gets an HTTP 401 fails with that error, and the error stops the poller |
| Scheduler.Poller.constructor | src/scheduler.ts:12-19 | not running, no interval, zero statistics |
| Scheduler.Poller.Valid | src/scheduler.ts:12-19 | no contract of its own: running exactly when an interval is set; kept by `StopPolling`, `RecordOutcome` and `PollDiscord`, and by `StartPolling` exactly as its contract says |
| Scheduler.Poller.StopPolling | src/scheduler.ts:92-106 | clears the interval and the running flag, keeps the statistics |
| Scheduler.Poller.RecordOutcome | src/scheduler.ts:43-63 | a success adds its counts and stamps `lastUpdate`; a failure counts an error and stops exactly on an authentication message |
| Scheduler.Poller.PollDiscord | src/scheduler.ts:36-64 | outside the window it stops with the statistics unchanged, inside it records the outcome |
| Scheduler.Poller.StartPolling | src/scheduler.ts:67-89 | a no-op when running or outside the window; otherwise zeroes the statistics, stores the interval and stays running exactly when the immediate poll is in the window, so `Valid` holds afterwards exactly then |
| HttpResponses.ErrorResponse | api/trigger.ts:40 | no contract of its own: `res.status(status).json({ error })`; see `Trigger.NoSecretFails` and `Trigger.UnauthorizedIff` |
| HttpResponses.Truthy | api/trigger.ts:38-43 | no contract of its own: JavaScript truthiness of an optional string; see `Trigger.NoSecretFails` and `Trigger.UnauthorizedIff` |
| HttpResponses.Finish | api/trigger.ts:69-91 | no contract of its own; see `HttpResponses.FinishReports` |
| HttpResponses.FinishReports | api/trigger.ts:69-91 | 200 with the counts exactly when the run succeeds, 500 with its message when it fails |
| HttpResponses.Conclude | api/trigger.ts:33-91 | no contract of its own: the gate's response, or the ingest outcome's; see `Trigger.UnauthorizedIff`, `Trigger.SkippedIff` and `Cron.NoSecretNeverUnauthorized` |
| Trigger.IsWithinSchedule | api/trigger.ts:11-22 | no contract of its own; see `Trigger.WindowIgnoresMinute` |
| Trigger.WindowIgnoresMinute | api/trigger.ts:11-22 | the trigger's window is the local hours `START_HOUR` to `END_HOUR` |
| Trigger.ProvidedSecret | api/trigger.ts:43 | no contract of its own; see `Trigger.UnauthorizedIff` |
| Trigger.Schedule | api/trigger.ts:65 | no contract of its own; see `Trigger.DefaultScheduleText` |
| Trigger.DefaultScheduleText | api/trigger.ts:65 | with the default hours the `schedule` field reads `20:00 - 23:59` |
| Trigger.CurrentTime | api/trigger.ts:64 | no contract of its own; see `Trigger.CurrentTimeReads` |
| Trigger.CurrentTimeReads | api/trigger.ts:54-64 | `currentTime` is the local hour in digits, `:`, and the minute in exactly two digits, each reading back its value |
| Trigger.Gate | api/trigger.ts:37-67 | no contract of its own; see `Trigger.NoSecretFails`, `Trigger.UnauthorizedIff`, `Trigger.RunsIngestIff` and `Trigger.SkippedIff` |
| Trigger.Handler | api/trigger.ts:33-91 | no contract of its own; see `Trigger.RunsIngestIff`, `Trigger.SkippedIff` and `HttpResponses.FinishReports` |
| Trigger.NoSecretFails | api/trigger.ts:38-41 | without a secret configured every request gets 500 and nothing runs |
| Trigger.UnauthorizedIff | api/trigger.ts:43-48 | 401 exactly when a secret is configured and the provided one differs |
| Trigger.RunsIngestIff | api/trigger.ts:33-70 | the ingest runs exactly when the secret matches and `force` is `"true"` or the hour is in the window |
| Trigger.SkippedIff | api/trigger.ts:51-67 | `skipped` exactly for authorized, unforced requests outside the window, and then with 200 and `success` |
| Cron.IsWithinSchedule | api/cron.ts:12-24 | no contract of its own; see `Cron.WindowInterval` |
| Cron.WindowInterval | api/cron.ts:12-24 | the cron window is `START_HOUR:00` to `END_HOUR:END_MINUTE` on the UTC−3 clock |
| Cron.IsVercelCron | api/cron.ts:30-31 | no contract of its own; see `Cron.UnauthorizedIff` |
| Cron.IsManualWithSecret | api/cron.ts:32 | no contract of its own; see `Cron.UnauthorizedIff` |
| Cron.TemplateText | api/cron.ts:31 | no contract of its own: a template renders an unset value as `undefined`; see `Cron.UnauthorizedIff` |
| Cron.Schedule | api/cron.ts:46 | no contract of its own; see `Cron.DefaultScheduleText` |
| Cron.DefaultScheduleText | api/cron.ts:46 | with the default settings the `schedule` field reads `20:00 - 23:59` |
| Cron.Gate | api/cron.ts:29-51 | no contract of its own; see `Cron.NoSecretNeverUnauthorized`, `Cron.UnauthorizedIff` and `Cron.RunsIngestIff` |
| Cron.Handler | api/cron.ts:26-69 | no contract of its own; see `Cron.RunsIngestIff` and `HttpResponses.FinishReports` |
| Cron.NoSecretNeverUnauthorized | api/cron.ts:34-38 | without a secret configured no request is refused |
| Cron.UnauthorizedIff | api/cron.ts:29-38 | with a secret, 401 exactly when neither the bearer header nor the query secret matches it |
| Cron.RunsIngestIff | api/cron.ts:26-51 | the ingest runs exactly when authorized and in the window; authorized outside it gets 200 without counts |

## Left out

- The HTTP request to Discord, its headers and the JSON decoding (`src/discord.ts:27-53`, `81-91`). `fetch` is a parameter that returns a page or the error `fetchDiscordMessages` throws. Pages are sequences of `Message(id, content)`; the other fields of a Discord message are not read by the core.
- `src/supabase.ts` is not part of this model. The token lookup is folded into `fetch`'s `MissingToken` error. `hasLogsFromTodaySession` and `getLastMessageId` are inputs. A `null` last id is modelled as the empty string, since both are falsy. `saveLogsToSupabase` is the `save` parameter, and the table's contents and the upsert's deduplication are not modelled.
- The clock: `Date.now()` against the 25-second budget is the `overBudget` predicate. `getHours`, `getUTCHours` and `getUTCMinutes` readings are parameters. The 100 ms pause between pages is left out.
- `Trigger.Gate`: the skipped response's `currentTime` uses the same clock reading as the window check, while the handler reads the clock a second time.
- The `duration` and `timestamp` fields of the handlers' responses, and all logging.
- Timers and scheduling: `setInterval`, `node-cron` (`scheduleMonitoring`), the signal handlers, `src/index.ts` and `src/run-once.ts`. Overlapping asynchronous polls are not modelled. The immediate poll started by `Scheduler.Poller.StartPolling` is modelled up to its synchronous window check. Its ingest outcome, like every interval tick's, is applied later by `RecordOutcome`.
- `parseInt` on the environment settings: the settings are integers, and a `NaN` setting is not modelled. A `POLLING_INTERVAL` is carried in the configuration but only matters to the timer.
- `req.query` values that are arrays: query parameters and headers are single optional strings.
- Errors that are not `Error` instances (`"Erro desconhecido"`), and errors the store would throw.
- Characters outside the Basic Multilingual Plane: strings are sequences of code points, not UTF-16 units.
