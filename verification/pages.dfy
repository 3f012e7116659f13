/** `processMessagesPage`: turn the raw Discord messages into the records to save.
    A message whose non-blank lines number more than one is a composite message and
    gives one record per line with a timestamp, keyed `<id>_<line index>`; any other
    message gives at most one record under its own id. A TypeError thrown while
    extracting a timestamp ends the whole page (the `Err` case). */
module Pages {
  import opened Results
  import opened JsStrings
  import opened Timestamps

  /** The fields of a Discord message the worker reads; `""` stands for a missing or
      empty (falsy) field. */
  datatype Message = Message(id: string, content: string)

  /** A `MessageToSave` row. */
  datatype Record = Record(content: string, timestamp: string, idMessage: string)

  /** Records gathered so far, followed by the outcome of the rest of the work. */
  function Then(acc: seq<Record>, rest: Result<seq<Record>, string>): (r: Result<seq<Record>, string>)
    ensures r.Err? <==> rest.Err?
    ensures rest.Err? ==> r == rest
    ensures rest.Ok? ==> |r.value| == |acc| + |rest.value|
    ensures rest.Ok? ==> r.value[..|acc|] == acc && r.value[|acc|..] == rest.value
  {
    match rest
    case Err(e) => Err(e)
    case Ok(b) => Ok(acc + b)
  }

  /** The outcome of one piece of work followed by the outcome of the next; the first
      error wins. */
  function Combine(first: Result<seq<Record>, string>, rest: Result<seq<Record>, string>)
    : (r: Result<seq<Record>, string>)
    ensures r.Err? <==> first.Err? || rest.Err?
    ensures first.Err? ==> r == first
    ensures first.Ok? && rest.Ok? ==> r == Ok(first.value + rest.value)
    ensures first.Ok? && rest.Err? ==> r == rest
  {
    match first
    case Err(e) => Err(e)
    case Ok(a) => Then(a, rest)
  }

  lemma ThenThen(a: seq<Record>, b: seq<Record>, rest: Result<seq<Record>, string>)
    ensures Then(a, Then(b, rest)) == Then(a + b, rest)
  {
    if rest.Ok? {
      assert a + (b + rest.value) == (a + b) + rest.value;
    }
  }

  /** The key of line `index` of a composite message. */
  function CompositeId(id: string, index: nat): (key: string)
    ensures |key| == |id| + 1 + |NatToDecimal(index)|
    ensures key[..|id|] == id && key[|id|] == '_' && key[|id| + 1..] == NatToDecimal(index)
  {
    id + "_" + NatToDecimal(index)
  }

  /** Two lines of the same message never share a key. */
  lemma CompositeIdInjective(id: string, i: nat, j: nat)
    requires CompositeId(id, i) == CompositeId(id, j)
    ensures i == j
  {
    assert NatToDecimal(i) == CompositeId(id, i)[|id| + 1..];
    DecimalInjective(i, j);
  }

  /** The non-blank lines of a message, split at `\n` or `\r\n`. */
  function ContentLines(content: string): (lines: seq<string>)
    ensures forall k | 0 <= k < |lines| :: !IsBlank(lines[k]) && '\n' !in lines[k]
    ensures forall k | 0 <= k < |SplitLines(content)| ::
              !IsBlank(SplitLines(content)[k]) ==> SplitLines(content)[k] in lines
  {
    NonBlank(SplitLines(content))
  }

  /** What `extractTimestampFromContent` gives for each line. */
  function Extractions(lines: seq<string>): (outs: seq<Extracted>)
    ensures |outs| == |lines|
    ensures forall k | 0 <= k < |lines| :: outs[k] == ExtractTimestamp(lines[k])
  {
    seq(|lines|, k requires 0 <= k < |lines| => ExtractTimestamp(lines[k]))
  }

  /** The record of line `k`, whose extraction `outs[k]` gave a timestamp. */
  function LineRecord(id: string, lines: seq<string>, outs: seq<Extracted>, k: nat): Record
    requires k < |lines| == |outs| && outs[k].Timestamp?
  {
    Record(lines[k], outs[k].value, CompositeId(id, k))
  }

  /** The `forEach` over the lines of a composite message, from line `from` on, where
      `outs` holds the extraction of each line. */
  function LineRecords(id: string, lines: seq<string>, outs: seq<Extracted>, from: nat)
    : Result<seq<Record>, string>
    requires from <= |lines| == |outs|
    decreases |lines| - from
  {
    if from == |lines| then Ok([])
    else
      match outs[from]
      case Thrown(reading) => Err(reading)
      case NoTimestamp => LineRecords(id, lines, outs, from + 1)
      case Timestamp(_) => Then([LineRecord(id, lines, outs, from)], LineRecords(id, lines, outs, from + 1))
  }

  /** The body of the loop over the messages, for one message. */
  function MessageRecords(m: Message): Result<seq<Record>, string>
  {
    if m.content == "" || m.id == "" then Ok([])
    else
      var lines := ContentLines(m.content);
      if |lines| > 1 then LineRecords(m.id, lines, Extractions(lines), 0)
      else
        match ExtractTimestamp(m.content)
        case Thrown(reading) => Err(reading)
        case NoTimestamp => Ok([])
        case Timestamp(v) => Ok([Record(m.content, v, m.id)])
  }

  /** What `processMessagesPage(messages)` returns, or the error it throws. */
  function PageRecords(messages: seq<Message>): Result<seq<Record>, string>
  {
    if messages == [] then Ok([])
    else Combine(MessageRecords(messages[0]), PageRecords(messages[1..]))
  }

  /** The indices, from `from` on, of the lines whose extraction gave a timestamp,
      in order. */
  function Kept(outs: seq<Extracted>, from: nat): (ks: seq<nat>)
    requires from <= |outs|
    ensures forall j | 0 <= j < |ks| :: from <= ks[j] < |outs|
    ensures forall j1, j2 | 0 <= j1 < j2 < |ks| :: ks[j1] < ks[j2]
    ensures forall k | from <= k < |outs| :: k in ks <==> outs[k].Timestamp?
    ensures |ks| <= |outs| - from
    decreases |outs| - from
  {
    if from == |outs| then []
    else if outs[from].Timestamp? then [from] + Kept(outs, from + 1)
    else Kept(outs, from + 1)
  }

  /** The lines of a composite message fail exactly when one of them throws. */
  lemma {:induction false} LineRecordsErr(id: string, lines: seq<string>, outs: seq<Extracted>, from: nat)
    requires from <= |lines| == |outs|
    ensures LineRecords(id, lines, outs, from).Err?
            <==> exists k | from <= k < |outs| :: outs[k].Thrown?
    decreases |lines| - from
  {
    if from < |lines| {
      LineRecordsErr(id, lines, outs, from + 1);
    }
  }

  /** Otherwise they give, in line order, one record for each line with a timestamp,
      keyed by that line's position among the non-blank lines, so a dropped line
      shifts no key. */
  lemma {:induction false} LineRecordsShape(id: string, lines: seq<string>, outs: seq<Extracted>, from: nat)
    requires from <= |lines| == |outs|
    requires LineRecords(id, lines, outs, from).Ok?
    ensures var recs, ks := LineRecords(id, lines, outs, from).value, Kept(outs, from);
            && |recs| == |ks|
            && forall j | 0 <= j < |recs| :: recs[j] == LineRecord(id, lines, outs, ks[j])
    decreases |lines| - from
  {
    if from < |lines| {
      assert LineRecords(id, lines, outs, from + 1).Ok?;
      LineRecordsShape(id, lines, outs, from + 1);
      if outs[from].Timestamp? {
        ShapeWithTimestamp(id, lines, outs, from);
      } else {
        assert LineRecords(id, lines, outs, from) == LineRecords(id, lines, outs, from + 1);
        assert Kept(outs, from) == Kept(outs, from + 1);
      }
    }
  }

  /** The step of `LineRecordsShape` at a line with a timestamp. */
  lemma ShapeWithTimestamp(id: string, lines: seq<string>, outs: seq<Extracted>, from: nat)
    requires from < |lines| == |outs| && outs[from].Timestamp?
    requires LineRecords(id, lines, outs, from + 1).Ok?
    requires var recs, ks := LineRecords(id, lines, outs, from + 1).value, Kept(outs, from + 1);
             && |recs| == |ks|
             && forall j | 0 <= j < |recs| :: recs[j] == LineRecord(id, lines, outs, ks[j])
    ensures LineRecords(id, lines, outs, from).Ok?
    ensures var recs, ks := LineRecords(id, lines, outs, from).value, Kept(outs, from);
            && |recs| == |ks|
            && forall j | 0 <= j < |recs| :: recs[j] == LineRecord(id, lines, outs, ks[j])
  {
    var rest, restKs := LineRecords(id, lines, outs, from + 1).value, Kept(outs, from + 1);
    var recs := [LineRecord(id, lines, outs, from)] + rest;
    var ks := [from] + restKs;
    assert LineRecords(id, lines, outs, from).value == recs;
    assert Kept(outs, from) == ks;
    forall j | 0 < j < |recs| ensures recs[j] == LineRecord(id, lines, outs, ks[j]) {
      assert recs[j] == rest[j - 1];
      assert ks[j] == restKs[j - 1];
    }
  }

  /** The records of a composite message have pairwise different keys. */
  lemma LineKeysDistinct(id: string, lines: seq<string>, outs: seq<Extracted>)
    requires |lines| == |outs|
    requires LineRecords(id, lines, outs, 0).Ok?
    ensures var recs := LineRecords(id, lines, outs, 0).value;
            forall j1, j2 | 0 <= j1 < j2 < |recs| :: recs[j1].idMessage != recs[j2].idMessage
  {
    LineRecordsShape(id, lines, outs, 0);
    var recs, ks := LineRecords(id, lines, outs, 0).value, Kept(outs, 0);
    forall j1, j2 | 0 <= j1 < j2 < |recs| ensures recs[j1].idMessage != recs[j2].idMessage {
      if recs[j1].idMessage == recs[j2].idMessage {
        assert recs[j1].idMessage == CompositeId(id, ks[j1]);
        assert recs[j2].idMessage == CompositeId(id, ks[j2]);
        CompositeIdInjective(id, ks[j1], ks[j2]);
      }
    }
  }

  /** A message with a missing id or content gives nothing. */
  lemma EmptyMessageRecords(m: Message)
    requires m.content == "" || m.id == ""
    ensures MessageRecords(m) == Ok([])
  {
  }

  /** A message with at most one non-blank line gives at most one record: its own id,
      its whole content, and the timestamp extracted from the whole content. */
  lemma SingleLineRecords(m: Message)
    requires m.content != "" && m.id != "" && |ContentLines(m.content)| <= 1
    ensures MessageRecords(m).Err? <==> ExtractTimestamp(m.content).Thrown?
    ensures MessageRecords(m).Ok? ==>
              var recs := MessageRecords(m).value;
              && |recs| <= 1
              && (|recs| == 1 <==> ExtractTimestamp(m.content).Timestamp?)
              && forall r | r in recs ::
                   r.idMessage == m.id && r.content == m.content
                   && ExtractTimestamp(r.content) == Timestamp(r.timestamp)
  {
  }

  /** A message with `n > 1` non-blank lines fails exactly when one of its lines
      throws, and otherwise gives at most `n` records, record `j` being the line at
      the `j`-th index of `Kept`, with that line's text, its extracted timestamp and
      the key `<id>_<index>`. */
  lemma MultiLineRecords(m: Message)
    requires m.content != "" && m.id != "" && |ContentLines(m.content)| > 1
    ensures var lines := ContentLines(m.content);
            && (MessageRecords(m).Err? <==>
                  exists k | 0 <= k < |lines| :: ExtractTimestamp(lines[k]).Thrown?)
            && (MessageRecords(m).Ok? ==>
                  var recs, ks := MessageRecords(m).value, Kept(Extractions(lines), 0);
                  && |recs| == |ks| <= |lines|
                  && forall j | 0 <= j < |recs| ::
                       && recs[j].content == lines[ks[j]]
                       && ExtractTimestamp(recs[j].content) == Timestamp(recs[j].timestamp)
                       && recs[j].idMessage == CompositeId(m.id, ks[j]))
  {
    var lines := ContentLines(m.content);
    var outs := Extractions(lines);
    LineRecordsErr(m.id, lines, outs, 0);
    if MessageRecords(m).Err? {
      var k :| 0 <= k < |outs| && outs[k].Thrown?;
      assert ExtractTimestamp(lines[k]).Thrown?;
    } else {
      LineRecordsShape(m.id, lines, outs, 0);
    }
  }

  /** Every record of a page carries the timestamp extracted from its own content. */
  lemma MessageRecordsTimestamped(m: Message)
    requires MessageRecords(m).Ok?
    ensures forall r | r in MessageRecords(m).value ::
              ExtractTimestamp(r.content) == Timestamp(r.timestamp)
  {
    if m.content != "" && m.id != "" && |ContentLines(m.content)| > 1 {
      MultiLineRecords(m);
    }
  }

  lemma {:induction false} PageRecordsTimestamped(messages: seq<Message>)
    ensures PageRecords(messages).Ok? ==>
              forall r | r in PageRecords(messages).value ::
                ExtractTimestamp(r.content) == Timestamp(r.timestamp)
  {
    if messages != [] && PageRecords(messages).Ok? {
      MessageRecordsTimestamped(messages[0]);
      PageRecordsTimestamped(messages[1..]);
    }
  }

  /** Records keep message order: the records of `a + b` are those of `a` followed by
      those of `b`, and an error in `a` comes first. */
  lemma {:induction false} PageRecordsAppend(a: seq<Message>, b: seq<Message>)
    ensures PageRecords(a + b) == Combine(PageRecords(a), PageRecords(b))
  {
    if a == [] {
      assert a + b == b;
    } else {
      assert (a + b)[0] == a[0];
      assert (a + b)[1..] == a[1..] + b;
      PageRecordsAppend(a[1..], b);
      var first := MessageRecords(a[0]);
      if first.Ok? && PageRecords(a[1..]).Ok? {
        ThenThen(first.value, PageRecords(a[1..]).value, PageRecords(b));
      }
    }
  }

  /** A page fails exactly when one of its messages does. */
  lemma {:induction false} PageRecordsErr(messages: seq<Message>)
    ensures PageRecords(messages).Err?
            <==> exists k | 0 <= k < |messages| :: MessageRecords(messages[k]).Err?
  {
    if messages != [] {
      PageRecordsErr(messages[1..]);
      if MessageRecords(messages[0]).Err? {
        assert MessageRecords(messages[0]).Err?;
      }
      forall k | 1 <= k < |messages| ensures messages[k] == messages[1..][k - 1] {
      }
    }
  }

  /** The error of a composite message is the error one of its lines threw. */
  lemma {:induction false} LineRecordsReading(id: string, lines: seq<string>, outs: seq<Extracted>, from: nat)
    requires from <= |lines| == |outs|
    requires forall k | 0 <= k < |outs| :: outs[k].Thrown? ==> ThrownReading(outs[k].reading)
    ensures LineRecords(id, lines, outs, from).Err? ==> ThrownReading(LineRecords(id, lines, outs, from).error)
    decreases |lines| - from
  {
    if from < |lines| {
      LineRecordsReading(id, lines, outs, from + 1);
    }
  }

  /** A message fails only with a `TypeError` reading `split` or `padStart`. */
  lemma MessageRecordsReading(m: Message)
    ensures MessageRecords(m).Err? ==> ThrownReading(MessageRecords(m).error)
  {
    if m.content != "" && m.id != "" {
      var lines := ContentLines(m.content);
      if |lines| > 1 {
        var outs := Extractions(lines);
        forall k | 0 <= k < |outs| ensures outs[k].Thrown? ==> ThrownReading(outs[k].reading) {
          ExtractTimestampReading(lines[k]);
        }
        LineRecordsReading(m.id, lines, outs, 0);
      } else {
        ExtractTimestampReading(m.content);
      }
    }
  }

  /** So does a page. */
  lemma {:induction false} PageRecordsReading(messages: seq<Message>)
    ensures PageRecords(messages).Err? ==> ThrownReading(PageRecords(messages).error)
  {
    if messages != [] {
      MessageRecordsReading(messages[0]);
      PageRecordsReading(messages[1..]);
    }
  }

  lemma PageRecordsStep(messages: seq<Message>, i: nat)
    requires i < |messages|
    ensures PageRecords(messages[i..])
            == Combine(MessageRecords(messages[i]), PageRecords(messages[i + 1..]))
  {
    assert messages[i..][0] == messages[i];
    assert messages[i..][1..] == messages[i + 1..];
  }

  /** The outcome of a page once the records of message `m` are known. */
  lemma PageStep(before: seq<Record>, m: Message, rest: Result<seq<Record>, string>)
    ensures MessageRecords(m).Ok? ==>
              Then(before, Combine(MessageRecords(m), rest))
              == Then(before + MessageRecords(m).value, rest)
    ensures MessageRecords(m).Err? ==>
              Then(before, Combine(MessageRecords(m), rest)) == MessageRecords(m)
  {
    if MessageRecords(m).Ok? {
      ThenThen(before, MessageRecords(m).value, rest);
    }
  }

  /** The `forEach` over the lines of a composite message with id `id`, pushing onto
      `toSave` the record of each line that has a timestamp. */
  method PushLineRecords(toSave: seq<Record>, id: string, lines: seq<string>)
    returns (r: Result<seq<Record>, string>)
    ensures r == Then(toSave, LineRecords(id, lines, Extractions(lines), 0))
  {
    ghost var outs := Extractions(lines);
    var acc := toSave;
    for j := 0 to |lines|
      invariant Then(acc, LineRecords(id, lines, outs, j)) == Then(toSave, LineRecords(id, lines, outs, 0))
    {
      var e := ExtractTimestamp(lines[j]);
      assert e == outs[j];
      match e
      case Thrown(reading) =>
        return Err(reading);
      case NoTimestamp =>
      case Timestamp(v) =>
        ThenThen(acc, [LineRecord(id, lines, outs, j)], LineRecords(id, lines, outs, j + 1));
        acc := acc + [Record(lines[j], v, CompositeId(id, j))];
    }
    assert acc + [] == acc;
    r := Ok(acc);
  }

  /** The body of the loop over the messages: push the records of `m` onto
      `toSave`, or stop with the error its content throws. */
  method PushMessageRecords(toSave: seq<Record>, m: Message) returns (r: Result<seq<Record>, string>)
    ensures r == Then(toSave, MessageRecords(m))
  {
    if m.content != "" && m.id != "" {
      var lines := ContentLines(m.content);
      if |lines| > 1 {
        r := PushLineRecords(toSave, m.id, lines);
        return;
      }
      var e := ExtractTimestamp(m.content);
      match e
      case Thrown(reading) =>
        return Err(reading);
      case NoTimestamp =>
      case Timestamp(v) =>
        return Ok(toSave + [Record(m.content, v, m.id)]);
    }
    assert toSave + [] == toSave;
    r := Ok(toSave);
  }

  /** `processMessagesPage(messages)`: the loop over the messages, pushing the records
      of each message as they are found. */
  method ProcessMessagesPage(messages: seq<Message>) returns (r: Result<seq<Record>, string>)
    ensures r == PageRecords(messages)
  {
    var toSave: seq<Record> := [];
    for i := 0 to |messages|
      invariant Then(toSave, PageRecords(messages[i..])) == PageRecords(messages)
    {
      PageRecordsStep(messages, i);
      PageStep(toSave, messages[i], PageRecords(messages[i + 1..]));
      var next := PushMessageRecords(toSave, messages[i]);
      if next.Err? {
        return next;
      }
      toSave := next.value;
    }
    assert messages[|messages|..] == [];
    assert toSave + [] == toSave;
    r := Ok(toSave);
  }
}
