/**
 * api.go: the previous revision of the HTTP handlers. `collectLog` turns
 * the body into stored rows; the read handlers build a response and hand
 * it to `writeResponse` through `defer`. Go evaluates a deferred call's
 * arguments when the `defer` statement runs, so `defer writeResponse(w,
 * response)` writes the response as it was then, not as the handler left
 * it.
 *
 * The connection pool these handlers use is the older copy in
 * db_clickhouse.go, which is not part of this model: its `acquire` result
 * is the parameter `acquire`. Row ids come from the id generator as the
 * parameter `ids` (the `k`-th id drawn); each `range` over a context map
 * visits the keys in the order the parameters `keyOrders`/`valueOrders`
 * give for that row.
 */
module Api {
  import opened Base
  import opened GoStrings
  import opened Message
  import Url
  import Strconv
  import Utils
  import DbClickhouse
  import opened Ingest
  import ApiInput

  /** `mapKeys`: empty for a nil map, otherwise every key once. */
  function MapKeys(ctx: Context, order: seq<string>): (r: seq<string>)
    requires RangeOrderFor(ctx, order)
    ensures ctx.None? ==> r == []
    ensures ctx.Some? ==> |r| == |ctx.value| && forall k :: k in ctx.value <==> k in r
  {
    Keys(ctx, order)
  }

  /** `mapValues`: empty for a nil map, otherwise one value per key. */
  function MapValues(ctx: Context, order: seq<string>): (r: seq<string>)
    requires RangeOrderFor(ctx, order)
    ensures ctx.None? ==> r == []
    ensures ctx.Some? ==> |r| == |ctx.value| && forall v :: multiset(r)[v] == |KeysWithValue(ctx.value, v)|
  {
    Values(ctx, order)
  }

  /** The `LogEntry` of db_clickhouse.go: a nil container name is `None`. */
  datatype StoredEntry = StoredEntry(
    id: Int64,
    tag: string,
    timestamp: Int64,
    date: string,
    containerName: Option<string>,
    level: string,
    message: string,
    contextKeys: seq<string>,
    contextValues: seq<string>)

  /** The order the `range` for row `k` visits a map in. */
  type Ranger = (nat, map<string, string>) -> seq<string>

  ghost predicate Ranges(r: Ranger) {
    forall k, m :: IsRangeOrder(r(k, m), m)
  }

  function OrderAt(r: Ranger, k: nat, ctx: Context): (order: seq<string>)
    requires Ranges(r)
    ensures RangeOrderFor(ctx, order)
  {
    match ctx case None => [] case Some(m) => r(k, m)
  }

  /**
   * The row `collectLog` builds for record `k`: a fresh id, the tag, the
   * timestamp and its date, the container name and the context arrays.
   * `copyText` says whether message and level are copied; as written they
   * are not, so the stored row has neither.
   */
  function BuildEntry(p: InputLogPayload, k: nat, ids: nat -> Int64, keyOrders: Ranger, valueOrders: Ranger,
                      copyText: bool): (e: StoredEntry)
    requires Ranges(keyOrders) && Ranges(valueOrders)
    ensures e.id == ids(k) && e.tag == p.tag && e.timestamp == p.timestamp
    ensures e.date == Utils.ToYYYYMMDD(p.timestamp) && e.containerName == Some(p.containerName)
    ensures e.message == (if copyText then p.message else "")
    ensures e.level == (if copyText then p.level else "")
    ensures |e.contextKeys| == |e.contextValues|
  {
    StoredEntry(ids(k), p.tag, p.timestamp, Utils.ToYYYYMMDD(p.timestamp), Some(p.containerName),
      if copyText then p.level else "", if copyText then p.message else "",
      MapKeys(p.context, OrderAt(keyOrders, k, p.context)), MapValues(p.context, OrderAt(valueOrders, k, p.context)))
  }

  function BuildEntries(recs: seq<InputLogPayload>, ids: nat -> Int64, keyOrders: Ranger, valueOrders: Ranger,
                        copyText: bool): (es: seq<StoredEntry>)
    requires Ranges(keyOrders) && Ranges(valueOrders)
    ensures |es| == |recs|
    ensures forall k :: 0 <= k < |recs| ==> es[k] == BuildEntry(recs[k], k, ids, keyOrders, valueOrders, copyText)
  {
    seq(|recs|, k requires 0 <= k < |recs| => BuildEntry(recs[k], k, ids, keyOrders, valueOrders, copyText))
  }

  /** Outcome of the older pool's `acquire`: an error, a nil connection, or a connection. */
  datatype DbAcquire = AcquireErr(err: string) | NilConn | GotConn

  /** What `collectLog` does, in order. */
  datatype Effect = InsertEntries(entries: seq<StoredEntry>) | RespondOk

  /** The records of the body: the same line filter as api_input.go, the tag set to the trimmed query tag. */
  function BodyRecords(query: Url.Values, body: string, decode: string -> Option<InputLogPayload>): seq<InputLogPayload>
    requires Url.Get(query, "tag") != []
  {
    ApiInput.Records(decode, TrimSpace(Url.Get(query, "tag")[0]), ScanLines(body))
  }

  /**
   * The handler's effects; `copyText` says whether message and level are
   * copied into the entries. The deferred "OK" is written last, and
   * entries are inserted exactly when there is a tag and a connection.
   */
  function Collect(query: Url.Values, body: string, decode: string -> Option<InputLogPayload>, ids: nat -> Int64,
                   keyOrders: Ranger, valueOrders: Ranger, acquire: DbAcquire, copyText: bool): (effects: seq<Effect>)
    requires Ranges(keyOrders) && Ranges(valueOrders)
    ensures |effects| > 0 && effects[|effects| - 1] == RespondOk
    ensures effects[0].InsertEntries? <==> Url.Get(query, "tag") != [] && acquire.GotConn?
    ensures effects[0].InsertEntries? ==> |effects| == 2 && |effects[0].entries| == |BodyRecords(query, body, decode)|
    ensures !effects[0].InsertEntries? ==> effects == [RespondOk]
  {
    if Url.Get(query, "tag") == [] || !acquire.GotConn? then [RespondOk]
    else [InsertEntries(BuildEntries(BodyRecords(query, body, decode), ids, keyOrders, valueOrders, copyText)), RespondOk]
  }

  /**
   * `collectLog` as written. The deferred "OK" is always the last thing
   * written; nothing is stored without a tag or a connection; otherwise
   * one row per accepted line is inserted, with the `k`-th id, the query
   * tag and the date of its timestamp, but with an empty message and level.
   */
  function CollectLog(query: Url.Values, body: string, decode: string -> Option<InputLogPayload>, ids: nat -> Int64,
                      keyOrders: Ranger, valueOrders: Ranger, acquire: DbAcquire): (effects: seq<Effect>)
    requires Ranges(keyOrders) && Ranges(valueOrders)
    ensures |effects| > 0 && effects[|effects| - 1] == RespondOk
    ensures Url.Get(query, "tag") == [] || !acquire.GotConn? ==> effects == [RespondOk]
    ensures Url.Get(query, "tag") != [] && acquire.GotConn? ==>
      var recs := BodyRecords(query, body, decode);
      && |effects| == 2 && effects[0].InsertEntries? && |effects[0].entries| == |recs|
      && forall k :: 0 <= k < |recs| ==>
           var e := effects[0].entries[k];
           && e.id == ids(k) && e.tag == TrimSpace(Url.Get(query, "tag")[0])
           && e.timestamp == recs[k].timestamp && e.date == Utils.ToYYYYMMDD(recs[k].timestamp)
           && e.message == "" && e.level == ""
  {
    Collect(query, body, decode, ids, keyOrders, valueOrders, acquire, false)
  }

  /** Every stored row comes from a record whose message was not blank, yet its message is empty. */
  lemma CollectLogDropsMessage(query: Url.Values, body: string, decode: string -> Option<InputLogPayload>, ids: nat -> Int64,
                               keyOrders: Ranger, valueOrders: Ranger)
    requires Ranges(keyOrders) && Ranges(valueOrders)
    requires Url.Get(query, "tag") != []
    ensures var effects := CollectLog(query, body, decode, ids, keyOrders, valueOrders, GotConn);
      var recs := BodyRecords(query, body, decode);
      forall k :: 0 <= k < |recs| ==> !AllSpace(recs[k].message) && effects[0].entries[k].message == ""
  {
  }

  /** A one-line body whose record has the message "hello" and level "info" is stored with neither. */
  lemma CollectLogDropsHello(decode: string -> Option<InputLogPayload>, ids: nat -> Int64, keyOrders: Ranger, valueOrders: Ranger)
    requires Ranges(keyOrders) && Ranges(valueOrders)
    requires decode("{}") == Some(InputLogPayload("", 0, "", "info", "hello", None))
    ensures var effects := CollectLog(map["tag" := ["app"]], "{}", decode, ids, keyOrders, valueOrders, GotConn);
      |effects[0].entries| == 1 && effects[0].entries[0].message == "" && effects[0].entries[0].level == ""
  {
    var p := InputLogPayload("", 0, "", "info", "hello", None);
    var query: Url.Values := map["tag" := ["app"]];
    assert Url.Get(query, "tag") == ["app"];
    ScanOneLine("{}");
    assert !AllSpace("hello") by {
      assert !IsSpace("hello"[0]);
    }
    var t := TrimSpace(Url.Get(query, "tag")[0]);
    var f := ApiInput.Accept(decode, t);
    assert f("{}") == ApiInput.AcceptLine(decode, t, "{}") == Some(p.(tag := t));
    assert ["{}"][1..] == [];
    assert FilterMap(["{}"], f) == [p.(tag := t)] + FilterMap([], f);
    assert |BodyRecords(query, "{}", decode)| == 1;
    var effects := CollectLog(query, "{}", decode, ids, keyOrders, valueOrders, GotConn);
    assert |effects[0].entries| == 1;
  }

  /** `collectLog` with message and level copied: every stored row keeps its record's non-blank message and its level. */
  function CollectLogFixed(query: Url.Values, body: string, decode: string -> Option<InputLogPayload>, ids: nat -> Int64,
                           keyOrders: Ranger, valueOrders: Ranger, acquire: DbAcquire): (effects: seq<Effect>)
    requires Ranges(keyOrders) && Ranges(valueOrders)
    ensures |effects| > 0 && effects[|effects| - 1] == RespondOk
    ensures Url.Get(query, "tag") == [] || !acquire.GotConn? ==> effects == [RespondOk]
    ensures Url.Get(query, "tag") != [] && acquire.GotConn? ==>
      var recs := BodyRecords(query, body, decode);
      && |effects| == 2 && effects[0].InsertEntries? && |effects[0].entries| == |recs|
      && forall k :: 0 <= k < |recs| ==>
           var e := effects[0].entries[k];
           && e.id == ids(k) && e.tag == TrimSpace(Url.Get(query, "tag")[0])
           && e.date == Utils.ToYYYYMMDD(recs[k].timestamp)
           && e.message == recs[k].message && !AllSpace(e.message) && e.level == recs[k].level
  {
    Collect(query, body, decode, ids, keyOrders, valueOrders, acquire, true)
  }

  /** The corrected handler stores the same rows in the same order; only message and level differ. */
  lemma CollectLogFixedOnlyAddsText(query: Url.Values, body: string, decode: string -> Option<InputLogPayload>,
                                    ids: nat -> Int64, keyOrders: Ranger, valueOrders: Ranger, acquire: DbAcquire)
    requires Ranges(keyOrders) && Ranges(valueOrders)
    ensures var fixed := CollectLogFixed(query, body, decode, ids, keyOrders, valueOrders, acquire);
      var written := CollectLog(query, body, decode, ids, keyOrders, valueOrders, acquire);
      && |fixed| == |written|
      && (|fixed| == 2 ==> |fixed[0].entries| == |written[0].entries|)
      && (|fixed| == 2 ==> forall k :: 0 <= k < |fixed[0].entries| ==>
            fixed[0].entries[k].(message := "", level := "") == written[0].entries[k])
  {
  }

  // ---------------------------------------------------------------------
  // Read handlers

  /** `OutputMessage`: status code and text of a response envelope. */
  datatype Status = Status(code: int, message: string)

  const OkStatus := Status(200, "OK")
  const CannotAcquire := "can not acquire db connection"

  datatype TagList = TagList(status: Status, data: seq<string>)
  datatype HistoryPayload = HistoryPayload(key: string, value: string)
  datatype TagHistory = TagHistory(status: Status, data: seq<HistoryPayload>)
  datatype LogList = LogList(status: Status, data: seq<OutputLogPayload>)

  /**
   * Go's deferred call: the argument is the value when `defer` ran,
   * whatever the handler did afterwards. The handlers' lemmas below state
   * what this hides.
   */
  function Deferred<R>(atDefer: R, atReturn: R): R {
    atDefer
  }

  /** The status after `acquire`: its error, the nil-connection message, or none. */
  function AcquireStatus(acquire: DbAcquire): (s: Option<Status>)
    ensures s.None? <==> acquire.GotConn?
    ensures s.Some? ==> s.value.code == 500
  {
    match acquire
    case AcquireErr(e) => Some(Status(500, e))
    case NilConn => Some(Status(500, CannotAcquire))
    case GotConn => None
  }

  /**
   * `retrieveListOfTag` as the handler leaves `response`: the acquire
   * error, the query error, or the list of tags.
   */
  function ListOfTagResponse(acquire: DbAcquire, tags: Result<seq<string>, string>): (r: TagList)
    ensures r.status.code == 200 <==> acquire.GotConn? && tags.Ok?
    ensures acquire.AcquireErr? ==> r == TagList(Status(500, acquire.err), [])
    ensures acquire.NilConn? ==> r == TagList(Status(500, CannotAcquire), [])
    ensures acquire.GotConn? && tags.Err? ==> r == TagList(Status(500, tags.error), [])
    ensures acquire.GotConn? && tags.Ok? ==> r == TagList(OkStatus, tags.value)
  {
    match AcquireStatus(acquire)
    case Some(s) => TagList(s, [])
    case None =>
      match tags
      case Err(e) => TagList(Status(500, e), [])
      case Ok(list) => TagList(OkStatus, list)
  }

  /** `retrieveListOfTag` as written: the body is always {200, "OK"} with no tags. */
  function RetrieveListOfTag(acquire: DbAcquire, tags: Result<seq<string>, string>): (written: TagList)
    ensures written == TagList(OkStatus, [])
  {
    Deferred(TagList(OkStatus, []), ListOfTagResponse(acquire, tags))
  }

  /** A failed acquire is reported as success, and a successful lookup returns no tags. */
  lemma RetrieveListOfTagHidesOutcome()
    ensures ListOfTagResponse(AcquireErr("pool too busy"), Ok([])).status.code == 500
    ensures RetrieveListOfTag(AcquireErr("pool too busy"), Ok([])).status.code == 200
    ensures RetrieveListOfTag(GotConn, Ok(["app"])).data == []
  {
  }

  /** With the response captured by reference the handler writes what it built. */
  function RetrieveListOfTagFixed(acquire: DbAcquire, tags: Result<seq<string>, string>): (written: TagList)
    ensures written.status.code == 200 <==> acquire.GotConn? && tags.Ok?
    ensures acquire.GotConn? && tags.Ok? ==> written.data == tags.value
    ensures written.status.code != 200 ==> written.data == []
  {
    ListOfTagResponse(acquire, tags)
  }

  /**
   * One history row: `v[0:4] + "-" + v[4:6] + "-" + v[6:8]`; a key shorter
   * than eight characters makes the slicing panic (`None`).
   */
  function HistoryValue(v: string): (r: Option<string>)
    ensures r.None? <==> |v| < 8
    ensures r.Some? ==> |r.value| == 10 && r.value[4] == '-' && r.value[7] == '-'
    ensures r.Some? ==> r.value[..4] + r.value[5..7] + r.value[8..] == v[..8]
  {
    if |v| < 8 then None
    else
      var r := v[0..4] + "-" + v[4..6] + "-" + v[6..8];
      assert r[..4] == v[..4] && r[5..7] == v[4..6] && r[8..] == v[6..8];
      assert v[..8] == v[..4] + v[4..6] + v[6..8];
      Some(r)
  }

  /** A stored date `YYYYMMDD` is shown as `YYYY-MM-DD`. */
  lemma HistoryValueOfDate(ts: Int64)
    ensures var v := Utils.ToYYYYMMDD(ts);
      HistoryValue(v) == Some(v[..4] + "-" + v[4..6] + "-" + v[6..])
  {
    var v := Utils.ToYYYYMMDD(ts);
    assert v[6..8] == v[6..];
  }

  /** The history rows, or `None` when some key makes the formatting panic. */
  function HistoryRows(list: seq<string>): (r: Option<seq<HistoryPayload>>)
    ensures r.None? <==> exists i :: 0 <= i < |list| && |list[i]| < 8
    ensures r.Some? ==> |r.value| == |list|
    ensures r.Some? ==> forall i :: 0 <= i < |list| ==> r.value[i] == HistoryPayload(list[i], HistoryValue(list[i]).value)
  {
    if list == [] then Some([])
    else
      match HistoryValue(list[0])
      case None => None
      case Some(v) =>
        match HistoryRows(list[1..])
        case None =>
          var i :| 0 <= i < |list[1..]| && |list[1..][i]| < 8;
          assert |list[i + 1]| < 8;
          None
        case Some(rest) => Some([HistoryPayload(list[0], v)] + rest)
  }

  /** How the tag-history handler ends: the response it has built, and whether it panicked. */
  datatype HistoryRun = HistoryRun(response: TagHistory, panicked: bool)

  /**
   * `retrieveListOfTagHistory` as the handler leaves `response`: acquire
   * first, then the `tag` parameter (400 "missing tag"), then the history
   * lookup for the first tag, then the formatting, which panics on a
   * short key and leaves the response untouched.
   */
  function TagHistoryResponse(acquire: DbAcquire, query: Url.Values, history: string -> Result<seq<string>, string>)
    : (run: HistoryRun)
    ensures run.panicked ==> run.response == TagHistory(OkStatus, [])
    ensures acquire.GotConn? && Url.Get(query, "tag") == [] ==> run == HistoryRun(TagHistory(Status(400, "missing tag"), []), false)
    ensures run.response.status.code == 200 && !run.panicked ==>
      && acquire.GotConn? && Url.Get(query, "tag") != []
      && var h := history(Url.Get(query, "tag")[0]);
      && h.Ok? && HistoryRows(h.value) == Some(run.response.data)
  {
    match AcquireStatus(acquire)
    case Some(s) => HistoryRun(TagHistory(s, []), false)
    case None =>
      var tags := Url.Get(query, "tag");
      if tags == [] then HistoryRun(TagHistory(Status(400, "missing tag"), []), false)
      else
        match history(tags[0])
        case Err(e) => HistoryRun(TagHistory(Status(500, e), []), false)
        case Ok(list) =>
          match HistoryRows(list)
          case None => HistoryRun(TagHistory(OkStatus, []), true)
          case Some(rows) => HistoryRun(TagHistory(OkStatus, rows), false)
  }

  /** `retrieveListOfTagHistory` as written: the deferred write sends {200, "OK"} with no rows, even when the handler panics. */
  function RetrieveListOfTagHistory(acquire: DbAcquire, query: Url.Values, history: string -> Result<seq<string>, string>)
    : (written: HistoryRun)
    ensures written.response == TagHistory(OkStatus, [])
    ensures written.panicked == TagHistoryResponse(acquire, query, history).panicked
  {
    var run := TagHistoryResponse(acquire, query, history);
    HistoryRun(Deferred(TagHistory(OkStatus, []), run.response), run.panicked)
  }

  /** The tag-history handler with the response captured by reference. */
  function RetrieveListOfTagHistoryFixed(acquire: DbAcquire, query: Url.Values, history: string -> Result<seq<string>, string>)
    : (written: HistoryRun)
    ensures acquire.GotConn? && Url.Get(query, "tag") == [] ==> written.response.status == Status(400, "missing tag")
    ensures !acquire.GotConn? ==> written.response.status.code == 500
    ensures written.response.status.code == 200 && !written.panicked ==>
      && Url.Get(query, "tag") != [] && history(Url.Get(query, "tag")[0]).Ok?
      && |written.response.data| == |history(Url.Get(query, "tag")[0]).value|
  {
    TagHistoryResponse(acquire, query, history)
  }

  /**
   * `retrieveLog` as the handler leaves `response`: a missing tag is 400
   * "missing tag", a bad number is 500 with the parse error's text, then
   * the acquire and lookup errors. The rows are reversed in place and then
   * dropped: `Data` is set to nil.
   */
  function LogResponse<E>(query: Url.Values, today: string, acquire: DbAcquire, rows: Result<seq<E>, string>): (r: LogList)
    ensures r.data == []
    ensures DbClickhouse.CreateOption(query, today) == Err(DbClickhouse.MissingTag) ==> r.status == Status(400, "missing tag")
    ensures DbClickhouse.CreateOption(query, today).Err? && DbClickhouse.CreateOption(query, today) != Err(DbClickhouse.MissingTag) ==>
      r.status == Status(500, Strconv.ErrorText(DbClickhouse.CreateOption(query, today).error.numError))
    ensures r.status == OkStatus <==> DbClickhouse.CreateOption(query, today).Ok? && acquire.GotConn? && rows.Ok?
  {
    match DbClickhouse.CreateOption(query, today)
    case Err(oe) =>
      if oe.MissingTag? then LogList(Status(400, "missing tag"), [])
      else LogList(Status(500, Strconv.ErrorText(oe.numError)), [])
    case Ok(_) =>
      match AcquireStatus(acquire)
      case Some(s) => LogList(s, [])
      case None =>
        match rows
        case Err(e) => LogList(Status(500, e), [])
        case Ok(_) => LogList(OkStatus, [])
  }

  /** `retrieveLog` as written: always {200, "OK"} with no rows. */
  function RetrieveLog<E>(query: Url.Values, today: string, acquire: DbAcquire, rows: Result<seq<E>, string>): (written: LogList)
    ensures written == LogList(OkStatus, [])
  {
    Deferred(LogList(OkStatus, []), LogResponse(query, today, acquire, rows))
  }

  /** A request without a tag is answered 200 instead of 400. */
  lemma RetrieveLogHidesMissingTag(today: string)
    ensures LogResponse<int>(map[], today, GotConn, Ok([])).status.code == 400
    ensures RetrieveLog<int>(map[], today, GotConn, Ok([])).status.code == 200
  {
  }

  /** `retrieveLog` with the response captured by reference: it reports the status it built. */
  function RetrieveLogFixed<E>(query: Url.Values, today: string, acquire: DbAcquire, rows: Result<seq<E>, string>): (written: LogList)
    ensures Url.Get(query, "tag") == [] ==> written.status == Status(400, "missing tag")
    ensures written.status == OkStatus <==> DbClickhouse.CreateOption(query, today).Ok? && acquire.GotConn? && rows.Ok?
  {
    LogResponse(query, today, acquire, rows)
  }

  /**
   * The reversal loop of `retrieveLog`: `i` runs down from `len/2 - 1`,
   * swapping element `i` with element `len - 1 - i`. Go swaps inside the
   * slice in place; here the swaps build a new sequence value.
   */
  method Reverse<T>(s: seq<T>) returns (r: seq<T>)
    ensures |r| == |s|
    ensures forall j :: 0 <= j < |s| ==> r[j] == s[|s| - 1 - j]
  {
    r := s;
    var i: int := |s| / 2 - 1;
    while i >= 0
      invariant -1 <= i < |s| / 2
      invariant |r| == |s|
      invariant forall j :: 0 <= j <= i ==> r[j] == s[j]
      invariant forall j :: i < j < |s| - 1 - i ==> r[j] == s[|s| - 1 - j]
      invariant forall j :: |s| - 1 - i <= j < |s| ==> r[j] == s[j]
      decreases i + 1
    {
      var opp := |r| - 1 - i;
      r := r[i := r[opp]][opp := r[i]];
      i := i - 1;
    }
  }

  /**
   * `writeResponse`: the marshalled response, or, when marshalling fails,
   * the marshalled {500, error text} envelope instead.
   */
  function WriteResponse<R>(resp: R, marshal: R -> Result<string, string>, marshalStatus: Status -> string): (body: string)
    ensures marshal(resp).Ok? ==> body == marshal(resp).value
    ensures marshal(resp).Err? ==> body == marshalStatus(Status(500, marshal(resp).error))
  {
    match marshal(resp)
    case Ok(bytes) => bytes
    case Err(e) => marshalStatus(Status(500, e))
  }
}
