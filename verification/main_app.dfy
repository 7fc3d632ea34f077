/**
 * main.go: the oldest revision of the two HTTP handlers. `collectLog`
 * settles on one text field per line (`log`, or `message` when `log` is
 * blank) and stores one row per line for every comma-separated tag of the
 * query; `retrieveLog` answers from a deferred write that captured `&logs`, so
 * the reply is the response as the handler left it.
 *
 * JSON decoding is the partial function `decode`; ids come from the id
 * generator as `ids` (the `n`-th id drawn); `selectLog` and `insert` are
 * database calls whose outcome is a parameter or an effect.
 */
module MainApp {
  import opened Base
  import opened GoStrings
  import opened Ingest
  import Url

  /** `LogMessage`; the two `*string` fields are `None` when nil. */
  datatype LogMessage = LogMessage(
    id: Int64,
    tag: string,
    date: string,
    timestamp: Int64,
    containerId: string,
    containerName: string,
    message: Option<string>,
    log: Option<string>)

  /** `isStringNilOrEmpty`: nil or a blank string. */
  function IsStringNilOrEmpty(s: Option<string>): (b: bool)
    ensures b <==> s.None? || forall i :: 0 <= i < |s.value| ==> IsSpace(s.value[i])
  {
    s.None? || TrimSpace(s.value) == ""
  }

  /**
   * The text fallback of `collectLog`: a line with both fields blank is
   * dropped; otherwise `log` keeps its value when it is not blank and
   * takes `message`'s otherwise, and `message` is then set to `log`.
   */
  function Normalize(lm: LogMessage): (r: Option<LogMessage>)
    ensures r.None? <==> IsStringNilOrEmpty(lm.log) && IsStringNilOrEmpty(lm.message)
    ensures r.Some? ==> r.value.message == r.value.log && !IsStringNilOrEmpty(r.value.log)
    ensures r.Some? ==> r.value.log == (if IsStringNilOrEmpty(lm.log) then lm.message else lm.log)
    ensures r.Some? ==> r.value.(message := lm.message, log := lm.log) == lm
  {
    if IsStringNilOrEmpty(lm.log) && IsStringNilOrEmpty(lm.message) then None
    else
      var text := if IsStringNilOrEmpty(lm.log) then lm.message else lm.log;
      Some(lm.(log := text, message := text))
  }

  /** Normalizing twice changes nothing: a normalized message is kept as it is. */
  lemma NormalizeIdempotent(lm: LogMessage)
    requires Normalize(lm).Some?
    ensures Normalize(Normalize(lm).value) == Normalize(lm)
  {
  }

  /** The per-line decision: empty and undecodable lines are skipped, then the text fallback. */
  function AcceptLine(decode: string -> Option<LogMessage>, line: string): (r: Option<LogMessage>)
    ensures r.Some? <==> line != "" && decode(line).Some? && Normalize(decode(line).value).Some?
    ensures r.Some? ==> r == Normalize(decode(line).value)
  {
    if line == "" then None
    else
      match decode(line)
      case None => None
      case Some(lm) => Normalize(lm)
  }

  function Accept(decode: string -> Option<LogMessage>): string -> Option<LogMessage> {
    line => AcceptLine(decode, line)
  }

  /** The messages that survive, in line order; each one has a non-blank `log` equal to its `message`. */
  function Messages(decode: string -> Option<LogMessage>, lines: seq<string>): (r: seq<LogMessage>)
    ensures |r| <= |lines|
  {
    FilterMap(lines, Accept(decode))
  }

  /** The text fallback has run: `message` and `log` agree and are not blank. */
  predicate SettledText(m: LogMessage) {
    m.message == m.log && !IsStringNilOrEmpty(m.log)
  }

  predicate Settled(msgs: seq<LogMessage>) {
    forall k :: 0 <= k < |msgs| ==> SettledText(msgs[k])
  }

  lemma {:induction false} MessagesSettled(decode: string -> Option<LogMessage>, lines: seq<string>)
    ensures Settled(Messages(decode, lines))
  {
    if lines != [] {
      MessagesSettled(decode, lines[1..]);
      assert Accept(decode)(lines[0]) == AcceptLine(decode, lines[0]);
    }
  }

  /** Each surviving message is the normalized decoding of one line, in line order, and no accepted line is lost. */
  lemma MessagesExactly(decode: string -> Option<LogMessage>, lines: seq<string>)
    ensures var r := Messages(decode, lines);
      var idx := KeptIndices(lines, Accept(decode));
      && |idx| == |r| && Increasing(idx)
      && (forall k :: 0 <= k < |r| ==> idx[k] < |lines| && AcceptLine(decode, lines[idx[k]]) == Some(r[k]))
      && (forall i :: 0 <= i < |lines| && AcceptLine(decode, lines[i]).Some? ==> i in idx)
  {
    FilterMapExactly(lines, Accept(decode));
  }

  /** The rows one message yields before ids are drawn: one per tag, in tag order. */
  function Group(lm: LogMessage, tags: seq<string>): (g: seq<LogMessage>)
    ensures |g| == |tags|
  {
    if |tags| == 0 then [] else [lm.(tag := tags[0])] + Group(lm, tags[1..])
  }

  lemma {:induction false} GroupAt(lm: LogMessage, tags: seq<string>, j: nat)
    requires j < |tags|
    ensures Group(lm, tags)[j] == lm.(tag := tags[j])
    decreases |tags|
  {
    if j > 0 {
      GroupAt(lm, tags[1..], j - 1);
    }
  }

  /** The fan-out loop without ids: each message's rows, message after message. */
  function Tagged(msgs: seq<LogMessage>, tags: seq<string>): (r: seq<LogMessage>)
    ensures |r| == Times(|msgs|, |tags|)
  {
    if |msgs| == 0 then [] else Group(msgs[0], tags) + Tagged(msgs[1..], tags)
  }

  /** Ids are drawn as rows are appended, so the row at position `k` holds the `k`-th id. */
  function Number(rows: seq<LogMessage>, ids: nat -> Int64): (r: seq<LogMessage>)
    ensures |r| == |rows|
    ensures forall k :: 0 <= k < |rows| ==> r[k] == rows[k].(id := ids(k))
  {
    seq(|rows|, k requires 0 <= k < |rows| => rows[k].(id := ids(k)))
  }

  /** The rows `collectLog` appends: one per message and tag, each with a fresh id. */
  function FanOut(msgs: seq<LogMessage>, tags: seq<string>, ids: nat -> Int64): (r: seq<LogMessage>)
    ensures |r| == |msgs| * |tags|
    ensures forall k :: 0 <= k < |r| ==> r[k].id == ids(k)
  {
    TimesIsProduct(|msgs|, |tags|);
    Number(Tagged(msgs, tags), ids)
  }

  /** `i * t` as repeated addition, so that row positions stay linear for the solver. */
  function Times(i: nat, t: nat): nat {
    if i == 0 then 0 else t + Times(i - 1, t)
  }

  lemma {:induction false} TimesIsProduct(i: nat, t: nat)
    ensures Times(i, t) == i * t
  {
    if i > 0 {
      TimesIsProduct(i - 1, t);
    }
  }

  lemma {:induction false} TaggedAt(msgs: seq<LogMessage>, tags: seq<string>, i: nat, j: nat)
    requires i < |msgs| && j < |tags|
    ensures Times(i, |tags|) + j < |Tagged(msgs, tags)|
    ensures Tagged(msgs, tags)[Times(i, |tags|) + j] == msgs[i].(tag := tags[j])
    decreases |msgs|
  {
    var g := Group(msgs[0], tags);
    var rest := Tagged(msgs[1..], tags);
    assert Tagged(msgs, tags) == g + rest;
    if i == 0 {
      GroupAt(msgs[0], tags, j);
    } else {
      TaggedAt(msgs[1..], tags, i - 1, j);
      assert Times(i, |tags|) + j == |g| + (Times(i - 1, |tags|) + j);
      assert msgs[1..][i - 1] == msgs[i];
    }
  }

  /**
   * Every message yields one row per tag: there are `|msgs| * |tags|`
   * rows, and row `i * |tags| + j` is message `i` with tag `j` and the id
   * drawn at that position.
   */
  lemma FanOutAt(msgs: seq<LogMessage>, tags: seq<string>, ids: nat -> Int64, i: nat, j: nat)
    requires i < |msgs| && j < |tags|
    ensures |FanOut(msgs, tags, ids)| == |msgs| * |tags|
    ensures i * |tags| + j < |msgs| * |tags|
    ensures FanOut(msgs, tags, ids)[i * |tags| + j] == msgs[i].(tag := tags[j], id := ids(i * |tags| + j))
  {
    var rows := Tagged(msgs, tags);
    TaggedAt(msgs, tags, i, j);
    TimesIsProduct(i, |tags|);
    TimesIsProduct(|msgs|, |tags|);
    var n := i * |tags| + j;
    assert n == Times(i, |tags|) + j;
    assert rows[n] == msgs[i].(tag := tags[j]);
    assert FanOut(msgs, tags, ids)[n] == rows[n].(id := ids(n));
  }

  /** Every row carries one of the tags and its message's settled text. */
  lemma {:induction false} TaggedRow(msgs: seq<LogMessage>, tags: seq<string>, n: nat)
    requires Settled(msgs)
    requires n < |Tagged(msgs, tags)|
    ensures Tagged(msgs, tags)[n].tag in tags && SettledText(Tagged(msgs, tags)[n])
    decreases |msgs|
  {
    var g := Group(msgs[0], tags);
    var rest := Tagged(msgs[1..], tags);
    assert Tagged(msgs, tags) == g + rest;
    if n < |g| {
      GroupAt(msgs[0], tags, n);
      assert SettledText(msgs[0]);
    } else {
      assert Settled(msgs[1..]) by {
        forall k | 0 <= k < |msgs[1..]| ensures msgs[1..][k] == msgs[k + 1] { }
      }
      TaggedRow(msgs[1..], tags, n - |g|);
    }
  }

  /** The tags of one message's rows, joined by commas, give back the query's tag value. */
  lemma FanOutTagsRejoin(lm: LogMessage, tagValue: string)
    ensures var g := Group(lm, Split(tagValue, ','));
      Join(seq(|g|, j requires 0 <= j < |g| => g[j].tag), ",") == tagValue
  {
    var tags := Split(tagValue, ',');
    var g := Group(lm, tags);
    forall j | 0 <= j < |g| ensures g[j].tag == tags[j] {
      GroupAt(lm, tags, j);
    }
    assert seq(|g|, j requires 0 <= j < |g| => g[j].tag) == tags;
    JoinSplit(tagValue, ',');
  }

  /** What `collectLog` does, in order. */
  datatype Effect = Insert(rows: seq<LogMessage>) | RespondOk

  /** The body `responseOk` writes after its 200 header. */
  const OkBody := "OK\n"

  /**
   * `collectLog`: without a tag only the deferred "OK" is written;
   * otherwise `insert` is called once, even with no rows, and its error is
   * only logged before the "OK".
   */
  function CollectLog(query: Url.Values, body: string, decode: string -> Option<LogMessage>, ids: nat -> Int64)
    : (effects: seq<Effect>)
    ensures |effects| > 0 && effects[|effects| - 1] == RespondOk
    ensures Url.Get(query, "tag") == [] <==> effects == [RespondOk]
    ensures Url.Get(query, "tag") != [] ==>
      var tags := Split(Url.Get(query, "tag")[0], ',');
      var msgs := Messages(decode, ScanLines(body));
      |effects| == 2 && effects[0] == Insert(FanOut(msgs, tags, ids))
  {
    var tagValues := Url.Get(query, "tag");
    if tagValues == [] then [RespondOk]
    else
      var tags := Split(tagValues[0], ',');
      var msgs := Messages(decode, ScanLines(body));
      [Insert(FanOut(msgs, tags, ids)), RespondOk]
  }

  /** One row per accepted line and comma-separated tag: commas plus one tags for each message. */
  lemma CollectLogRowCount(query: Url.Values, body: string, decode: string -> Option<LogMessage>, ids: nat -> Int64)
    requires Url.Get(query, "tag") != []
    ensures |CollectLog(query, body, decode, ids)[0].rows|
      == |Messages(decode, ScanLines(body))| * (Count(Url.Get(query, "tag")[0], ',') + 1)
  {
    var tags := Split(Url.Get(query, "tag")[0], ',');
    var msgs := Messages(decode, ScanLines(body));
    assert CollectLog(query, body, decode, ids)[0].rows == FanOut(msgs, tags, ids);
    assert |FanOut(msgs, tags, ids)| == Times(|msgs|, |tags|);
    TimesIsProduct(|msgs|, |tags|);
    assert |tags| == Count(Url.Get(query, "tag")[0], ',') + 1;
  }

  /**
   * Every stored row carries one of the query's tags and settled text:
   * `message == log`, not blank.
   */
  lemma CollectLogRowsSettled(query: Url.Values, body: string, decode: string -> Option<LogMessage>, ids: nat -> Int64)
    requires Url.Get(query, "tag") != []
    ensures var rows := CollectLog(query, body, decode, ids)[0].rows;
      forall n :: 0 <= n < |rows| ==>
        && rows[n].tag in Split(Url.Get(query, "tag")[0], ',')
        && rows[n].message == rows[n].log && !IsStringNilOrEmpty(rows[n].log)
  {
    var tags := Split(Url.Get(query, "tag")[0], ',');
    var msgs := Messages(decode, ScanLines(body));
    MessagesSettled(decode, ScanLines(body));
    var rows := FanOut(msgs, tags, ids);
    assert CollectLog(query, body, decode, ids)[0].rows == rows;
    forall n | 0 <= n < |rows|
      ensures rows[n].tag in tags && rows[n].message == rows[n].log && !IsStringNilOrEmpty(rows[n].log)
    {
      TaggedRow(msgs, tags, n);
    }
  }

  /** `Logs`: the reply envelope; a nil `Data` is `None`. */
  datatype Logs = Logs(code: int, message: string, data: Option<seq<LogMessage>>)

  /** The row limit `retrieveLog` passes. */
  const RetrieveLimit := 100

  /** The date `retrieveLog` asks for: the first `date` value, else today as `YYYYMMDD`. */
  function QueryDate(query: Url.Values, today: string): (date: string)
    ensures Url.Get(query, "date") == [] ==> date == today
    ensures Url.Get(query, "date") != [] ==> date == Url.Get(query, "date")[0]
  {
    match Url.First(query, "date") case Some(d) => d case None => today
  }

  /**
   * `retrieveLog`: the reply is the final value of `logs`, because the
   * deferred write holds its address. A missing tag is 400 "missing
   * tag"; otherwise `selectLog(tag, date, 100)` decides: its error text
   * with 500, or its rows with 200 "OK".
   */
  function RetrieveLog(query: Url.Values, today: string, selectLog: (string, string, int) -> Result<seq<LogMessage>, string>)
    : (logs: Logs)
    ensures Url.Get(query, "tag") == [] ==> logs == Logs(400, "missing tag", None)
    ensures logs.code == 200 <==>
      Url.Get(query, "tag") != [] && selectLog(Url.Get(query, "tag")[0], QueryDate(query, today), RetrieveLimit).Ok?
    ensures logs.code == 200 ==>
      logs == Logs(200, "OK", Some(selectLog(Url.Get(query, "tag")[0], QueryDate(query, today), RetrieveLimit).value))
    ensures logs.code == 500 ==>
      logs.data.None? && logs.message == selectLog(Url.Get(query, "tag")[0], QueryDate(query, today), RetrieveLimit).error
  {
    var tagValues := Url.Get(query, "tag");
    if tagValues == [] then Logs(400, "missing tag", None)
    else
      match selectLog(tagValues[0], QueryDate(query, today), RetrieveLimit)
      case Err(e) => Logs(500, e, None)
      case Ok(lms) => Logs(200, "OK", Some(lms))
  }

  /**
   * The bytes written after the 200 header: the marshalled `logs`, or,
   * when marshalling fails, the error text and a newline as `http.Error`
   * writes it.
   */
  function ReplyBody(logs: Logs, marshal: Logs -> Result<string, string>): (body: string)
    ensures marshal(logs).Ok? ==> body == marshal(logs).value
    ensures marshal(logs).Err? ==> body == marshal(logs).error + "\n"
  {
    match marshal(logs) case Ok(b) => b case Err(e) => e + "\n"
  }
}
