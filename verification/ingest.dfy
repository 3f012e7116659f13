/** `processAndSaveMessages`: choose the starting cursor, page through the channel
    with `after=<cursor>`, turn every fetched message into records and save them in
    batches of 500. The Discord API, the clock and the store are oracles passed in
    as functions:
      - `fetch(n, after)` is the outcome of the `n`-th page request (counting from 1),
        sent with the `after` parameter `after` (or none);
      - `overBudget(n)` says whether the 25-second budget is spent when the loop
        checks the clock after `n` pages;
      - `save(batch)` is what `saveLogsToSupabase(batch)` returns. */
module Ingest {
  import opened Results
  import opened JsStrings
  import opened Timestamps
  import opened Pages

  const PAGE_SIZE: nat := 100
  const BATCH_SIZE: nat := 500

  /** Why `fetchDiscordMessages` throws: no token in the store, or a non-ok answer. */
  datatype FetchError = MissingToken | ApiError(status: nat, statusText: string, body: string)

  /** Why `processAndSaveMessages` throws. */
  datatype IngestError = FetchFailed(cause: FetchError) | ParseFailed(reading: string)

  /** `{ total, saved }`. */
  datatype Summary = Summary(total: nat, saved: nat)

  /** The `message` of the error thrown. The literals are written in pieces so that
      the words the scheduler searches for ("Token", and the start of the TypeError
      text) stand as whole operands of `+`, which the `Contains` lemmas about the
      message rely on. */
  function ErrorMessage(e: IngestError): string
  {
    match e
    case FetchFailed(MissingToken) =>
      "Token" + " de autentica\U{00E7}\U{00E3}o n\U{00E3}o configurado no Supabase"
    case FetchFailed(ApiError(status, statusText, body)) =>
      "Erro na API do Discord: " + (NatToDecimal(status) + (" " + statusText + " - " + body))
    case ParseFailed(reading) =>
      "Cannot read properties" + " of undefined (reading '" + reading + "')"
  }

  /** `id.split("_")[0]`: a stored key with its `_<line index>` suffix taken off. */
  function RawId(id: string): (raw: string)
    ensures '_' !in raw
    ensures |raw| <= |id| && raw == id[..|raw|]
    ensures |raw| == |id| || id[|raw|] == '_'
  {
    SplitJoin(id, '_');
    var parts := Split(id, '_');
    assert parts == [parts[0]] + parts[1..];
    assert |parts| > 1 ==> JoinWith(parts, '_') == parts[0] + ['_'] + JoinWith(parts[1..], '_');
    parts[0]
  }

  /** Stripping the suffix from the key of a composite record gives back the id of
      the message it came from, and a key without `_` is left alone. */
  lemma RawIdOfKey(id: string, index: nat)
    requires '_' !in id
    ensures RawId(CompositeId(id, index)) == id
    ensures RawId(id) == id
  {
    SplitAtSeparator(id, NatToDecimal(index), '_');
    assert CompositeId(id, index) == id + ['_'] + NatToDecimal(index);
    SplitNoSeparator(id, '_');
  }

  /** The starting `afterId` (lines 141-152): the raw id of the last stored record when
      today's session already has logs and a last id exists, none otherwise. An
      empty `lastMessageId` stands for `null`. */
  function StartCursor(hasTodayLogs: bool, lastMessageId: string): (c: Option<string>)
    ensures c.Some? <==> hasTodayLogs && lastMessageId != ""
    ensures c.Some? ==> c.value == RawId(lastMessageId)
  {
    if hasTodayLogs && lastMessageId != "" then Some(RawId(lastMessageId)) else None
  }

  /** `MAX_PAGES`. */
  function PageCap(hasTodayLogs: bool): (cap: nat)
    ensures cap == 1 || cap == 10
    ensures cap == 10 <==> hasTodayLogs
  {
    if hasTodayLogs then 10 else 1
  }

  /** The `after` parameter actually sent: `if (after)` drops an empty cursor. */
  function AfterParam(cursor: Option<string>): (after: Option<string>)
    ensures after.Some? ==> after.value != ""
    ensures after.Some? <==> cursor.Some? && cursor.value != ""
    ensures after.Some? ==> after == cursor
  {
    if cursor.Some? && cursor.value != "" then cursor else None
  }

  /** Pages fetched so far, followed by the outcome of the rest of the loop. */
  function PagesThen(done: seq<seq<Message>>, rest: Result<seq<seq<Message>>, FetchError>)
    : (r: Result<seq<seq<Message>>, FetchError>)
    ensures r.Err? <==> rest.Err?
    ensures rest.Err? ==> r == rest
    ensures rest.Ok? ==> r == Ok(done + rest.value)
  {
    match rest
    case Err(e) => Err(e)
    case Ok(more) => Ok(done + more)
  }

  /** The pagination loop from the state where `count` pages are fetched and the
      cursor is `cursor`: the non-empty pages it fetches, or the error a fetch throws. */
  function Paginate(fetch: (nat, Option<string>) -> Result<seq<Message>, FetchError>,
                    overBudget: nat -> bool, cursor: Option<string>, cap: nat, count: nat)
    : Result<seq<seq<Message>>, FetchError>
    requires count <= cap
    decreases cap - count
  {
    if count == cap || overBudget(count) then Ok([])
    else
      match fetch(count + 1, AfterParam(cursor))
      case Err(e) => Err(e)
      case Ok(page) =>
        if |page| == 0 then Ok([])
        else if |page| < PAGE_SIZE then Ok([page])
        else PagesThen([page], Paginate(fetch, overBudget, Some(page[|page| - 1].id), cap, count + 1))
  }

  /** The cursor the loop holds before request `k` of the pages `pages`, having
      started from `cursor`. */
  function CursorBefore(cursor: Option<string>, pages: seq<seq<Message>>, k: nat): Option<string>
    requires k <= |pages|
    requires forall j | 0 <= j < |pages| :: |pages[j]| > 0
  {
    if k == 0 then cursor else Some(pages[k - 1][|pages[k - 1]| - 1].id)
  }

  /** The loop fetches at most `cap - count` pages, none of them empty, and every
      page but the last is full. */
  lemma {:induction false} PaginateShape(fetch: (nat, Option<string>) -> Result<seq<Message>, FetchError>,
                                         overBudget: nat -> bool, cursor: Option<string>, cap: nat, count: nat)
    requires count <= cap
    requires Paginate(fetch, overBudget, cursor, cap, count).Ok?
    ensures var pages := Paginate(fetch, overBudget, cursor, cap, count).value;
            && |pages| <= cap - count
            && (forall k | 0 <= k < |pages| :: |pages[k]| > 0)
            && (forall k | 0 <= k < |pages| - 1 :: |pages[k]| >= PAGE_SIZE)
    decreases cap - count
  {
    var pages := Paginate(fetch, overBudget, cursor, cap, count).value;
    if count < cap && !overBudget(count) {
      var page := fetch(count + 1, AfterParam(cursor)).value;
      if |page| >= PAGE_SIZE {
        var next := Some(page[|page| - 1].id);
        PaginateShape(fetch, overBudget, next, cap, count + 1);
        var rest := Paginate(fetch, overBudget, next, cap, count + 1).value;
        assert pages == [page] + rest;
        forall k | 0 < k < |pages| ensures pages[k] == rest[k - 1] {
        }
      }
    }
  }

  /** The time budget is checked before every request: a spent budget ends the loop
      successfully with no more pages, and every page fetched was requested while the
      budget still held. */
  lemma {:induction false} PaginateWithinBudget(fetch: (nat, Option<string>) -> Result<seq<Message>, FetchError>,
                                                overBudget: nat -> bool, cursor: Option<string>, cap: nat, count: nat)
    requires count <= cap
    ensures overBudget(count) ==> Paginate(fetch, overBudget, cursor, cap, count) == Ok([])
    ensures var r := Paginate(fetch, overBudget, cursor, cap, count);
            r.Ok? ==> forall j | count <= j < count + |r.value| :: !overBudget(j)
    decreases cap - count
  {
    var r := Paginate(fetch, overBudget, cursor, cap, count);
    if r.Ok? && count < cap && !overBudget(count) {
      var page := fetch(count + 1, AfterParam(cursor)).value;
      if |page| >= PAGE_SIZE {
        var next := Some(page[|page| - 1].id);
        PaginateWithinBudget(fetch, overBudget, next, cap, count + 1);
        var rest := Paginate(fetch, overBudget, next, cap, count + 1).value;
        assert r.value == [page] + rest;
      }
    }
  }

  /** Page `k` is what request `count + k + 1` returned when sent after the last id
      of page `k - 1` (after `cursor` for the first page). */
  lemma {:induction false} PaginateRequests(fetch: (nat, Option<string>) -> Result<seq<Message>, FetchError>,
                                            overBudget: nat -> bool, cursor: Option<string>, cap: nat, count: nat)
    requires count <= cap
    requires Paginate(fetch, overBudget, cursor, cap, count).Ok?
    ensures var pages := Paginate(fetch, overBudget, cursor, cap, count).value;
            && (forall k | 0 <= k < |pages| :: |pages[k]| > 0)
            && forall k {:trigger CursorBefore(cursor, pages, k)} | 0 <= k < |pages| ::
                 fetch(count + k + 1, AfterParam(CursorBefore(cursor, pages, k))) == Ok(pages[k])
    decreases cap - count
  {
    PaginateShape(fetch, overBudget, cursor, cap, count);
    var pages := Paginate(fetch, overBudget, cursor, cap, count).value;
    if count < cap && !overBudget(count) {
      var page := fetch(count + 1, AfterParam(cursor)).value;
      if |page| >= PAGE_SIZE {
        var next := Some(page[|page| - 1].id);
        PaginateRequests(fetch, overBudget, next, cap, count + 1);
        var rest := Paginate(fetch, overBudget, next, cap, count + 1).value;
        assert pages == [page] + rest;
        RequestsStep(fetch, cursor, count, page, rest);
      } else if |page| > 0 {
        assert pages == [page];
        assert CursorBefore(cursor, pages, 0) == cursor;
      } else {
        assert pages == [];
      }
    } else {
      assert pages == [];
    }
  }

  lemma RequestsStep(fetch: (nat, Option<string>) -> Result<seq<Message>, FetchError>,
                     cursor: Option<string>, count: nat, page: seq<Message>, rest: seq<seq<Message>>)
    requires |page| > 0 && fetch(count + 1, AfterParam(cursor)) == Ok(page)
    requires forall k | 0 <= k < |rest| :: |rest[k]| > 0
    requires forall k {:trigger CursorBefore(Some(page[|page| - 1].id), rest, k)} | 0 <= k < |rest| ::
               fetch(count + 1 + k + 1, AfterParam(CursorBefore(Some(page[|page| - 1].id), rest, k))) == Ok(rest[k])
    ensures var pages := [page] + rest;
            && (forall k | 0 <= k < |pages| :: |pages[k]| > 0)
            && forall k {:trigger CursorBefore(cursor, pages, k)} | 0 <= k < |pages| ::
                 fetch(count + k + 1, AfterParam(CursorBefore(cursor, pages, k))) == Ok(pages[k])
  {
    var pages := [page] + rest;
    forall k | 0 < k < |pages| ensures pages[k] == rest[k - 1] {
    }
    forall k | 0 <= k < |pages|
      ensures fetch(count + k + 1, AfterParam(CursorBefore(cursor, pages, k))) == Ok(pages[k])
    {
      if k > 0 {
        assert CursorBefore(cursor, pages, k) == CursorBefore(Some(page[|page| - 1].id), rest, k - 1);
        assert count + k + 1 == count + 1 + (k - 1) + 1;
      }
    }
  }

  /** When the cap was not reached and no short page ended the loop, it stopped
      because the budget was spent or the next page came back empty. */
  lemma {:induction false} PaginateStop(fetch: (nat, Option<string>) -> Result<seq<Message>, FetchError>,
                                        overBudget: nat -> bool, cursor: Option<string>, cap: nat, count: nat)
    requires count <= cap
    requires Paginate(fetch, overBudget, cursor, cap, count).Ok?
    ensures var pages := Paginate(fetch, overBudget, cursor, cap, count).value;
            && (forall k | 0 <= k < |pages| :: |pages[k]| > 0)
            && (|pages| < cap - count && (pages == [] || |pages[|pages| - 1]| >= PAGE_SIZE) ==>
                  || overBudget(count + |pages|)
                  || fetch(count + |pages| + 1, AfterParam(CursorBefore(cursor, pages, |pages|))) == Ok([]))
    decreases cap - count
  {
    PaginateShape(fetch, overBudget, cursor, cap, count);
    var pages := Paginate(fetch, overBudget, cursor, cap, count).value;
    if count < cap && !overBudget(count) {
      var page := fetch(count + 1, AfterParam(cursor)).value;
      if |page| >= PAGE_SIZE {
        var next := Some(page[|page| - 1].id);
        PaginateStop(fetch, overBudget, next, cap, count + 1);
        var rest := Paginate(fetch, overBudget, next, cap, count + 1).value;
        assert pages == [page] + rest;
        if rest != [] {
          assert pages[|pages| - 1] == rest[|rest| - 1];
          assert CursorBefore(cursor, pages, |pages|) == CursorBefore(next, rest, |rest|);
        }
      }
    }
  }

  /** The full pages `pages` each came back from the request sent, as request
      `count + k + 1`, after the previous page's last id (after `cursor` for the
      first). */
  ghost predicate Answered(fetch: (nat, Option<string>) -> Result<seq<Message>, FetchError>,
                           cursor: Option<string>, count: nat, pages: seq<seq<Message>>)
  {
    && (forall k | 0 <= k < |pages| :: |pages[k]| >= PAGE_SIZE)
    && (forall k {:trigger CursorBefore(cursor, pages, k)} | 0 <= k < |pages| ::
          fetch(count + k + 1, AfterParam(CursorBefore(cursor, pages, k))) == Ok(pages[k]))
  }

  /** The loop fails with `e` after the full pages `pages`: each of them and then the
      failing request were sent within the cap and the time budget, each page came
      back from the request sent after the previous page's last id, and the request
      that follows them threw `e`. */
  ghost predicate FailsAfter(fetch: (nat, Option<string>) -> Result<seq<Message>, FetchError>,
                             overBudget: nat -> bool, cursor: Option<string>, cap: nat, count: nat,
                             pages: seq<seq<Message>>, e: FetchError)
  {
    && count + |pages| < cap
    && (forall j | count <= j <= count + |pages| :: !overBudget(j))
    && Answered(fetch, cursor, count, pages)
    && fetch(count + |pages| + 1, AfterParam(CursorBefore(cursor, pages, |pages|))) == Err(e)
  }

  /** After one more page, the cursor before request `k` of the rest is the cursor
      before request `k + 1` of all the pages. */
  lemma CursorShift(cursor: Option<string>, page: seq<Message>, rest: seq<seq<Message>>)
    requires |page| > 0 && forall k | 0 <= k < |rest| :: |rest[k]| > 0
    ensures forall k | 0 <= k < |[page] + rest| :: |([page] + rest)[k]| > 0
    ensures forall k {:trigger CursorBefore(Some(page[|page| - 1].id), rest, k)} | 0 <= k <= |rest| ::
              CursorBefore(Some(page[|page| - 1].id), rest, k) == CursorBefore(cursor, [page] + rest, k + 1)
  {
    var pages := [page] + rest;
    forall k | 0 < k < |pages| ensures pages[k] == rest[k - 1] {
    }
  }

  /** A full first page answered after `cursor`, then pages answered after its last
      id, are pages answered after `cursor`. */
  lemma AnsweredCons(fetch: (nat, Option<string>) -> Result<seq<Message>, FetchError>,
                     cursor: Option<string>, count: nat, page: seq<Message>, rest: seq<seq<Message>>)
    requires fetch(count + 1, AfterParam(cursor)) == Ok(page) && |page| >= PAGE_SIZE
    requires Answered(fetch, Some(page[|page| - 1].id), count + 1, rest)
    ensures Answered(fetch, cursor, count, [page] + rest)
  {
    var pages := [page] + rest;
    forall k | 0 < k < |pages| ensures pages[k] == rest[k - 1] {
    }
    RequestsStep(fetch, cursor, count, page, rest);
  }

  /** Pages answered after `cursor` start with a full page answered after `cursor`,
      and the rest are answered after its last id. */
  lemma AnsweredTail(fetch: (nat, Option<string>) -> Result<seq<Message>, FetchError>,
                     cursor: Option<string>, count: nat, pages: seq<seq<Message>>)
    requires pages != [] && Answered(fetch, cursor, count, pages)
    ensures fetch(count + 1, AfterParam(cursor)) == Ok(pages[0]) && |pages[0]| >= PAGE_SIZE
    ensures Answered(fetch, Some(pages[0][|pages[0]| - 1].id), count + 1, pages[1..])
  {
    var page, rest := pages[0], pages[1..];
    var next := Some(page[|page| - 1].id);
    assert pages == [page] + rest;
    assert CursorBefore(cursor, pages, 0) == cursor;
    CursorShift(cursor, page, rest);
    forall k | 0 <= k < |rest|
      ensures fetch(count + 1 + k + 1, AfterParam(CursorBefore(next, rest, k))) == Ok(rest[k])
    {
      assert CursorBefore(cursor, pages, k + 1) == CursorBefore(next, rest, k);
      assert pages[k + 1] == rest[k];
    }
  }

  /** A full page fetched within the cap and the budget, followed by a failure after
      the rest, is a failure after all the pages. */
  lemma FailsAfterCons(fetch: (nat, Option<string>) -> Result<seq<Message>, FetchError>,
                       overBudget: nat -> bool, cursor: Option<string>, cap: nat, count: nat,
                       page: seq<Message>, rest: seq<seq<Message>>, e: FetchError)
    requires !overBudget(count)
    requires fetch(count + 1, AfterParam(cursor)) == Ok(page) && |page| >= PAGE_SIZE
    requires FailsAfter(fetch, overBudget, Some(page[|page| - 1].id), cap, count + 1, rest, e)
    ensures FailsAfter(fetch, overBudget, cursor, cap, count, [page] + rest, e)
  {
    AnsweredCons(fetch, cursor, count, page, rest);
    CursorShift(cursor, page, rest);
  }

  /** A failure after a first page and more starts with a full page fetched within the
      cap and the budget, and is a failure after the rest from the state that page
      leaves behind. */
  lemma FailsAfterTail(fetch: (nat, Option<string>) -> Result<seq<Message>, FetchError>,
                       overBudget: nat -> bool, cursor: Option<string>, cap: nat, count: nat,
                       pages: seq<seq<Message>>, e: FetchError)
    requires pages != [] && FailsAfter(fetch, overBudget, cursor, cap, count, pages, e)
    ensures var page := pages[0];
            && !overBudget(count) && count < cap
            && fetch(count + 1, AfterParam(cursor)) == Ok(page) && |page| >= PAGE_SIZE
            && FailsAfter(fetch, overBudget, Some(page[|page| - 1].id), cap, count + 1, pages[1..], e)
  {
    AnsweredTail(fetch, cursor, count, pages);
    assert pages == [pages[0]] + pages[1..];
    CursorShift(cursor, pages[0], pages[1..]);
  }

  /** A request that throws `e` after full pages, all within the cap and the time
      budget, makes the whole loop throw `e`. */
  lemma {:induction false} PaginateFailsAt(fetch: (nat, Option<string>) -> Result<seq<Message>, FetchError>,
                                           overBudget: nat -> bool, cursor: Option<string>, cap: nat, count: nat,
                                           pages: seq<seq<Message>>, e: FetchError)
    requires FailsAfter(fetch, overBudget, cursor, cap, count, pages, e)
    ensures Paginate(fetch, overBudget, cursor, cap, count) == Err(e)
    decreases |pages|
  {
    if pages != [] {
      var page := pages[0];
      FailsAfterTail(fetch, overBudget, cursor, cap, count, pages, e);
      PaginateFailsAt(fetch, overBudget, Some(page[|page| - 1].id), cap, count + 1, pages[1..], e);
    }
  }

  /** Conversely, the loop throws only from a request sent after full pages, within
      the cap and the time budget. */
  lemma {:induction false} PaginateErrOrigin(fetch: (nat, Option<string>) -> Result<seq<Message>, FetchError>,
                                             overBudget: nat -> bool, cursor: Option<string>, cap: nat, count: nat)
    requires count <= cap
    ensures var r := Paginate(fetch, overBudget, cursor, cap, count);
            r.Err? ==> exists pages :: FailsAfter(fetch, overBudget, cursor, cap, count, pages, r.error)
    decreases cap - count
  {
    var r := Paginate(fetch, overBudget, cursor, cap, count);
    if r.Err? {
      var e := r.error;
      match fetch(count + 1, AfterParam(cursor))
      case Err(_) =>
        assert CursorBefore(cursor, [], 0) == cursor;
        assert FailsAfter(fetch, overBudget, cursor, cap, count, [], e);
      case Ok(page) =>
        var next := Some(page[|page| - 1].id);
        PaginateErrOrigin(fetch, overBudget, next, cap, count + 1);
        var rest :| FailsAfter(fetch, overBudget, next, cap, count + 1, rest, e);
        FailsAfterCons(fetch, overBudget, cursor, cap, count, page, rest, e);
    }
  }

  /** The loop throws `e` exactly when some request within the cap and the time
      budget threw `e` after full pages. */
  lemma PaginateErrIff(fetch: (nat, Option<string>) -> Result<seq<Message>, FetchError>,
                       overBudget: nat -> bool, cursor: Option<string>, cap: nat, count: nat, e: FetchError)
    requires count <= cap
    ensures Paginate(fetch, overBudget, cursor, cap, count) == Err(e)
            <==> exists pages :: FailsAfter(fetch, overBudget, cursor, cap, count, pages, e)
  {
    PaginateErrOrigin(fetch, overBudget, cursor, cap, count);
    forall pages | FailsAfter(fetch, overBudget, cursor, cap, count, pages, e)
      ensures Paginate(fetch, overBudget, cursor, cap, count) == Err(e)
    {
      PaginateFailsAt(fetch, overBudget, cursor, cap, count, pages, e);
    }
  }

  /** The pages glued together: `allMessages`. */
  function Concat(pages: seq<seq<Message>>): (all: seq<Message>)
  {
    if pages == [] then [] else pages[0] + Concat(pages[1..])
  }

  function SumOfLengths(pages: seq<seq<Message>>): nat
  {
    if pages == [] then 0 else |pages[0]| + SumOfLengths(pages[1..])
  }

  /** `total` counts every message of every page. */
  lemma {:induction false} ConcatLength(pages: seq<seq<Message>>)
    ensures |Concat(pages)| == SumOfLengths(pages)
  {
    if pages != [] {
      ConcatLength(pages[1..]);
    }
  }

  lemma {:induction false} ConcatAppend(a: seq<seq<Message>>, b: seq<seq<Message>>)
    ensures Concat(a + b) == Concat(a) + Concat(b)
  {
    if a == [] {
      assert a + b == b;
    } else {
      assert (a + b)[0] == a[0];
      assert (a + b)[1..] == a[1..] + b;
      ConcatAppend(a[1..], b);
      assert a[0] + (Concat(a[1..]) + Concat(b)) == (a[0] + Concat(a[1..])) + Concat(b);
    }
  }

  /** The consecutive slices `recs.slice(i, i + 500)` for `i = 0, 500, 1000, ...`. */
  function Batches(recs: seq<Record>): (bs: seq<seq<Record>>)
    decreases |recs|
  {
    if recs == [] then []
    else if |recs| <= BATCH_SIZE then [recs]
    else [recs[..BATCH_SIZE]] + Batches(recs[BATCH_SIZE..])
  }

  function ConcatRecords(bs: seq<seq<Record>>): seq<Record>
  {
    if bs == [] then [] else bs[0] + ConcatRecords(bs[1..])
  }

  /** The batches cover every record exactly once and in order; each holds between
      one and 500 records, and all but the last hold exactly 500. */
  lemma {:induction false} BatchesPartition(recs: seq<Record>)
    ensures ConcatRecords(Batches(recs)) == recs
    ensures forall k | 0 <= k < |Batches(recs)| :: 0 < |Batches(recs)[k]| <= BATCH_SIZE
    ensures forall k | 0 <= k < |Batches(recs)| - 1 :: |Batches(recs)[k]| == BATCH_SIZE
    ensures |Batches(recs)| == (|recs| + BATCH_SIZE - 1) / BATCH_SIZE
    decreases |recs|
  {
    if |recs| > BATCH_SIZE {
      var rest := recs[BATCH_SIZE..];
      BatchesPartition(rest);
      var bs := Batches(recs);
      assert bs == [recs[..BATCH_SIZE]] + Batches(rest);
      assert bs[1..] == Batches(rest);
      assert recs[..BATCH_SIZE] + rest == recs;
      forall k | 0 <= k < |bs| ensures 0 < |bs[k]| <= BATCH_SIZE {
        if k > 0 {
          assert bs[k] == Batches(rest)[k - 1];
        }
      }
      forall k | 0 <= k < |bs| - 1 ensures |bs[k]| == BATCH_SIZE {
        if k > 0 {
          assert bs[k] == Batches(rest)[k - 1];
        }
      }
    } else if recs != [] {
      assert Batches(recs) == [recs];
      assert recs + [] == recs;
    }
  }

  /** `savedCount`: the sum of what the store says it saved for each batch. */
  function SavedTotal(save: seq<Record> -> nat, bs: seq<seq<Record>>): nat
  {
    if bs == [] then 0 else save(bs[0]) + SavedTotal(save, bs[1..])
  }

  /** When the store never reports more rows than it was given (an upsert that
      ignores duplicates), `saved` never exceeds the number of records. */
  lemma {:induction false} SavedAtMostRecords(save: seq<Record> -> nat, recs: seq<Record>)
    requires forall b: seq<Record> :: save(b) <= |b|
    ensures SavedTotal(save, Batches(recs)) <= |recs|
    decreases |recs|
  {
    if |recs| > BATCH_SIZE {
      SavedAtMostRecords(save, recs[BATCH_SIZE..]);
      assert Batches(recs)[1..] == Batches(recs[BATCH_SIZE..]);
    }
  }

  /** What `processAndSaveMessages()` returns, or the error it throws. */
  function IngestRun(hasTodayLogs: bool, lastMessageId: string,
                     fetch: (nat, Option<string>) -> Result<seq<Message>, FetchError>,
                     overBudget: nat -> bool, save: seq<Record> -> nat): Result<Summary, IngestError>
  {
    match Paginate(fetch, overBudget, StartCursor(hasTodayLogs, lastMessageId), PageCap(hasTodayLogs), 0)
    case Err(e) => Err(FetchFailed(e))
    case Ok(pages) =>
      var all := Concat(pages);
      if |all| == 0 then Ok(Summary(0, 0))
      else
        match PageRecords(all)
        case Err(reading) => Err(ParseFailed(reading))
        case Ok(recs) => Ok(Summary(|all|, SavedTotal(save, Batches(recs))))
  }

  /** A run that succeeds reports as `total` the number of messages on the pages it
      fetched, and fetched no more pages than the cap, each while the time budget
      held; with nothing fetched, or the budget spent from the start, it reports
      `{0, 0}`. */
  lemma IngestRunTotal(hasTodayLogs: bool, lastMessageId: string,
                       fetch: (nat, Option<string>) -> Result<seq<Message>, FetchError>,
                       overBudget: nat -> bool, save: seq<Record> -> nat)
    requires IngestRun(hasTodayLogs, lastMessageId, fetch, overBudget, save).Ok?
    ensures var cursor, cap := StartCursor(hasTodayLogs, lastMessageId), PageCap(hasTodayLogs);
            var pages := Paginate(fetch, overBudget, cursor, cap, 0).value;
            var summary := IngestRun(hasTodayLogs, lastMessageId, fetch, overBudget, save).value;
            && |pages| <= cap
            && (forall j | 0 <= j < |pages| :: !overBudget(j))
            && (overBudget(0) ==> summary == Summary(0, 0))
            && summary.total == SumOfLengths(pages)
            && (summary.total == 0 ==> summary.saved == 0)
  {
    var cursor, cap := StartCursor(hasTodayLogs, lastMessageId), PageCap(hasTodayLogs);
    PaginateShape(fetch, overBudget, cursor, cap, 0);
    PaginateWithinBudget(fetch, overBudget, cursor, cap, 0);
    ConcatLength(Paginate(fetch, overBudget, cursor, cap, 0).value);
  }

  /** A run that fails while parsing fails with a `TypeError` reading `split` or
      `padStart`. */
  lemma IngestRunParseReading(hasTodayLogs: bool, lastMessageId: string,
                              fetch: (nat, Option<string>) -> Result<seq<Message>, FetchError>,
                              overBudget: nat -> bool, save: seq<Record> -> nat)
    ensures var r := IngestRun(hasTodayLogs, lastMessageId, fetch, overBudget, save);
            r.Err? && r.error.ParseFailed? ==> ThrownReading(r.error.reading)
  {
    match Paginate(fetch, overBudget, StartCursor(hasTodayLogs, lastMessageId), PageCap(hasTodayLogs), 0)
    case Err(_) =>
    case Ok(pages) =>
      PageRecordsReading(Concat(pages));
  }

  /** A run throws the fetch error `e` exactly when, from the start cursor and within
      the page cap and the time budget, a request threw `e` after full pages: the
      error of a failed fetch is fatal for the run. */
  lemma IngestRunFetchFailed(hasTodayLogs: bool, lastMessageId: string,
                             fetch: (nat, Option<string>) -> Result<seq<Message>, FetchError>,
                             overBudget: nat -> bool, save: seq<Record> -> nat, e: FetchError)
    ensures IngestRun(hasTodayLogs, lastMessageId, fetch, overBudget, save) == Err(FetchFailed(e))
            <==> exists pages :: FailsAfter(fetch, overBudget, StartCursor(hasTodayLogs, lastMessageId),
                                            PageCap(hasTodayLogs), 0, pages, e)
  {
    PaginateErrIff(fetch, overBudget, StartCursor(hasTodayLogs, lastMessageId), PageCap(hasTodayLogs), 0, e);
  }

  /** The loop state where `count` pages are fetched and the loop goes on. */
  lemma PaginateStep(fetch: (nat, Option<string>) -> Result<seq<Message>, FetchError>,
                     overBudget: nat -> bool, cursor: Option<string>, cap: nat, count: nat,
                     done: seq<seq<Message>>, page: seq<Message>)
    requires count < cap && !overBudget(count)
    requires fetch(count + 1, AfterParam(cursor)) == Ok(page) && |page| >= PAGE_SIZE
    ensures PagesThen(done, Paginate(fetch, overBudget, cursor, cap, count))
            == PagesThen(done + [page], Paginate(fetch, overBudget, Some(page[|page| - 1].id), cap, count + 1))
  {
    var rest := Paginate(fetch, overBudget, Some(page[|page| - 1].id), cap, count + 1);
    if rest.Ok? {
      assert done + ([page] + rest.value) == (done + [page]) + rest.value;
    }
  }

  /** The batch loop, from record `i` on. */
  lemma BatchStep(save: seq<Record> -> nat, recs: seq<Record>, i: nat)
    requires i < |recs|
    ensures var end := if i + BATCH_SIZE <= |recs| then i + BATCH_SIZE else |recs|;
            && SavedTotal(save, Batches(recs[i..]))
               == save(recs[i..end]) + (if end < |recs| then SavedTotal(save, Batches(recs[end..])) else 0)
  {
    var rest := recs[i..];
    if |rest| > BATCH_SIZE {
      assert rest[..BATCH_SIZE] == recs[i..i + BATCH_SIZE];
      assert rest[BATCH_SIZE..] == recs[i + BATCH_SIZE..];
    } else {
      assert Batches(rest) == [rest];
      assert recs[i..|recs|] == rest;
    }
  }

  /** The pagination loop of `processAndSaveMessages` (lines 154-200): the messages
      of every page fetched from `afterId` with at most `maxPages` requests, or the
      error a fetch throws. */
  method FetchPages(fetch: (nat, Option<string>) -> Result<seq<Message>, FetchError>,
                    overBudget: nat -> bool, afterId: Option<string>, maxPages: nat)
    returns (r: Result<seq<Message>, FetchError>)
    ensures r.Err? <==> Paginate(fetch, overBudget, afterId, maxPages, 0).Err?
    ensures r.Err? ==> r.error == Paginate(fetch, overBudget, afterId, maxPages, 0).error
    ensures r.Ok? ==> r.value == Concat(Paginate(fetch, overBudget, afterId, maxPages, 0).value)
  {
    var allMessages: seq<Message> := [];
    var hasMoreMessages := true;
    var currentAfterId := afterId;
    var pageCount: nat := 0;
    ghost var pages: seq<seq<Message>> := [];
    ghost var start := Paginate(fetch, overBudget, afterId, maxPages, 0);
    assert start.Ok? ==> start.value == pages + start.value;

    while hasMoreMessages && pageCount < maxPages
      invariant pageCount <= maxPages
      invariant allMessages == Concat(pages)
      invariant hasMoreMessages ==> start == PagesThen(pages, Paginate(fetch, overBudget, currentAfterId, maxPages, pageCount))
      invariant !hasMoreMessages ==> start == Ok(pages)
      decreases maxPages - pageCount
    {
      if overBudget(pageCount) {
        assert pages + [] == pages;
        break;
      }
      pageCount := pageCount + 1;
      var fetched := fetch(pageCount, AfterParam(currentAfterId));
      if fetched.Err? {
        return Err(fetched.error);
      }
      var messages := fetched.value;
      if |messages| == 0 {
        hasMoreMessages := false;
        assert pages + [] == pages;
        break;
      }
      ConcatAppend(pages, [messages]);
      assert Concat([messages]) == messages + [];
      assert messages + [] == messages;
      allMessages := allMessages + messages;
      if |messages| < PAGE_SIZE {
        hasMoreMessages := false;
        pages := pages + [messages];
      } else {
        PaginateStep(fetch, overBudget, currentAfterId, maxPages, pageCount - 1, pages, messages);
        currentAfterId := Some(messages[|messages| - 1].id);
        pages := pages + [messages];
      }
    }
    assert start == Ok(pages) by {
      if hasMoreMessages && pageCount == maxPages {
        assert pages + [] == pages;
      }
    }
    r := Ok(allMessages);
  }

  /** The batch loop of `processAndSaveMessages` (lines 214-224): save
      `recs.slice(i, i + 500)` for `i = 0, 500, ...` and add up what the store says
      it saved. */
  method SaveInBatches(save: seq<Record> -> nat, messagesToSave: seq<Record>) returns (savedCount: nat)
    ensures savedCount == SavedTotal(save, Batches(messagesToSave))
  {
    savedCount := 0;
    if |messagesToSave| > 0 {
      var i := 0;
      while i < |messagesToSave|
        invariant i % BATCH_SIZE == 0
        invariant i < |messagesToSave| ==>
                    savedCount + SavedTotal(save, Batches(messagesToSave[i..]))
                    == SavedTotal(save, Batches(messagesToSave))
        invariant i >= |messagesToSave| ==> savedCount == SavedTotal(save, Batches(messagesToSave))
        decreases |messagesToSave| - i
      {
        var end := if i + BATCH_SIZE <= |messagesToSave| then i + BATCH_SIZE else |messagesToSave|;
        var batch := messagesToSave[i..end];
        BatchStep(save, messagesToSave, i);
        var batchSaved := save(batch);
        savedCount := savedCount + batchSaved;
        i := i + BATCH_SIZE;
      }
    }
  }

  /** `processAndSaveMessages()`: choose the cursor and the page cap, fetch the pages,
      turn the messages into records and save them in batches. */
  method ProcessAndSaveMessages(hasTodayLogs: bool, lastMessageId: string,
                                fetch: (nat, Option<string>) -> Result<seq<Message>, FetchError>,
                                overBudget: nat -> bool, save: seq<Record> -> nat)
    returns (r: Result<Summary, IngestError>)
    ensures r == IngestRun(hasTodayLogs, lastMessageId, fetch, overBudget, save)
  {
    var afterId := StartCursor(hasTodayLogs, lastMessageId);
    var maxPages := PageCap(hasTodayLogs);
    var fetched := FetchPages(fetch, overBudget, afterId, maxPages);
    if fetched.Err? {
      return Err(FetchFailed(fetched.error));
    }
    var allMessages := fetched.value;
    if |allMessages| == 0 {
      return Ok(Summary(0, 0));
    }
    var processed := ProcessMessagesPage(allMessages);
    if processed.Err? {
      return Err(ParseFailed(processed.error));
    }
    var savedCount := SaveInBatches(save, processed.value);
    r := Ok(Summary(|allMessages|, savedCount));
  }
}
