/**
 * clickhouse/connection.go: streaming a query's rows to a consumer in
 * batches (`GetLog`) and writing log entries in one transaction (`Insert`).
 * The database is replaced by its observable answers: the query's rows and
 * how the cursor ends, and the outcome of each transaction step.
 */
module Connection {
  import opened Base
  import opened Message
  import Strconv
  import CoreUtils
  import Civil

  /** `QueryLogOption` without the response channel: the pushed messages are the result. */
  datatype QueryLogOption = QueryLogOption(
    tag: string,
    logLevel: Int32,
    startTime: Int64,
    endTime: Int64,
    lastId: Int64,
    batchSize: Int32)

  /** One row as `rows.Scan` fills it. */
  datatype Row = Row(
    id: Int64,
    tag: string,
    timestamp: Int64,
    date: string,
    containerName: string,
    level: Int32,
    message: string,
    contextKeys: seq<string>,
    contextValues: seq<string>)

  /** How the cursor stops after the rows it yielded. */
  datatype CursorEnd =
    | Exhausted                  // rows.Next() is false and rows.Err() is nil
    | IterationFailed(err: string) // rows.Next() is false and rows.Err() is err
    | ScanFailed(err: string)      // one more row, whose rows.Scan fails with err

  /** The answer to the SELECT: an error, or the rows scanned successfully and how the cursor ends. */
  datatype QueryAnswer = QueryFailed(err: string) | Cursor(rows: seq<Row>, end: CursorEnd)

  /** How `GetLog` leaves: returning an error (or nil), or panicking. */
  datatype Exit = Returned(err: Option<string>) | Panicked

  /** Everything `GetLog` pushes on the response channel, in order, and how it leaves. */
  datatype GetLogRun = GetLogRun(pushed: seq<OutputLogMessage>, exit: Exit)

  const StatusOK := 200
  const StatusNoContent := 204
  const StatusInternalServerError := 500

  function Failure(err: string): OutputLogMessage {
    OutputLogMessage(StatusInternalServerError, err, [])
  }

  function Batch(data: seq<OutputLogPayload>): OutputLogMessage {
    OutputLogMessage(StatusOK, "OK", data)
  }

  const Finished := OutputLogMessage(StatusNoContent, "OK", [])

  /** No later position among the first `n` holds the key at position `i`. */
  predicate LastAt(keys: seq<string>, i: int, n: int)
    requires 0 <= i < n <= |keys|
  {
    forall j :: i < j < n ==> keys[j] != keys[i]
  }

  /**
   * The context map rebuilt from the two stored arrays: key `keys[i]` is set
   * to `values[i]`, a later repetition of a key overwriting an earlier one.
   * Reading `values[i]` past its end panics, which is `None` here.
   */
  function BuildContext(keys: seq<string>, values: seq<string>): (r: Option<map<string, string>>)
    ensures r.None? <==> |values| < |keys|
    ensures r.Some? ==> forall k :: k in r.value <==> k in keys
    ensures r.Some? ==> forall i :: 0 <= i < |keys| && LastAt(keys, i, |keys|) ==> r.value[keys[i]] == values[i]
  {
    if |values| < |keys| then None
    else
      AssignDomain(keys, values, |keys|);
      AssignLast(keys, values, |keys|);
      Some(Assign(keys, values, |keys|))
  }

  /** The map after the first `n` assignments. */
  function Assign(keys: seq<string>, values: seq<string>, n: nat): map<string, string>
    requires n <= |keys| && n <= |values|
  {
    if n == 0 then map[] else Assign(keys, values, n - 1)[keys[n - 1] := values[n - 1]]
  }

  lemma {:induction false} AssignDomain(keys: seq<string>, values: seq<string>, n: nat)
    requires n <= |keys| && n <= |values|
    ensures forall k :: k in Assign(keys, values, n) <==> k in keys[..n]
  {
    if n > 0 {
      AssignDomain(keys, values, n - 1);
      assert keys[..n] == keys[..n - 1] + [keys[n - 1]];
    }
  }

  lemma {:induction false} AssignLast(keys: seq<string>, values: seq<string>, n: nat)
    requires n <= |keys| && n <= |values|
    ensures forall i :: 0 <= i < n && LastAt(keys, i, n) ==> keys[i] in Assign(keys, values, n) && Assign(keys, values, n)[keys[i]] == values[i]
  {
    if n > 0 {
      AssignLast(keys, values, n - 1);
      forall i | 0 <= i < n - 1 && LastAt(keys, i, n)
        ensures LastAt(keys, i, n - 1)
      {
      }
    }
  }

  /** Arrays taken from one range over a map rebuild exactly that map. */
  lemma RebuildPaired(order: seq<string>, ctx: map<string, string>)
    requires IsRangeOrder(order, ctx)
    ensures BuildContext(order, ValuesAlong(order, ctx)) == Some(ctx)
  {
    RangeOrderCoversKeys(order, ctx);
    var r := BuildContext(order, ValuesAlong(order, ctx)).value;
    forall k | k in ctx ensures k in r && r[k] == ctx[k] {
      var i :| 0 <= i < |order| && order[i] == k;
      assert LastAt(order, i, |order|);
    }
    assert r == ctx;
  }

  /**
   * The payload built from one scanned row: the tag is the requested one,
   * not the row's, the id is also rendered in decimal, and the level number
   * is named by `levelStr` (`LogLevelStr`, defined outside this model).
   */
  function ToPayload(opt: QueryLogOption, levelStr: Int32 -> string, row: Row): (r: Option<OutputLogPayload>)
    ensures r.None? <==> |row.contextValues| < |row.contextKeys|
    ensures r.Some? ==> r.value.payload.tag == opt.tag && r.value.id == row.id && r.value.date == row.date
    ensures r.Some? ==> r.value.idStr == Strconv.FormatInt(row.id)
  {
    match BuildContext(row.contextKeys, row.contextValues)
    case None => None
    case Some(ctx) =>
      Some(OutputLogPayload(row.id, Strconv.FormatInt(row.id), row.date,
        InputLogPayload(opt.tag, row.timestamp, row.containerName, levelStr(row.level), row.message, Some(ctx))))
  }

  /** The decimal id a consumer receives parses back to the stored id. */
  lemma PayloadIdRoundTrip(opt: QueryLogOption, levelStr: Int32 -> string, row: Row)
    requires |row.contextValues| >= |row.contextKeys|
    ensures Strconv.ParseInt(ToPayload(opt, levelStr, row).value.idStr) == Ok(row.id)
  {
    Strconv.ParseFormatRoundTrip(row.id);
  }

  /** Every message is a code-200 "OK" batch. */
  predicate AllBatches(ms: seq<OutputLogMessage>) {
    forall k :: 0 <= k < |ms| ==> ms[k] == Batch(ms[k].data)
  }

  /** The state of the row loop: batches pushed so far, rows buffered, whether it panicked. */
  datatype Phase = Phase(pushed: seq<OutputLogMessage>, pending: seq<OutputLogPayload>, panicked: bool)

  /**
   * The row loop over successfully scanned rows, for a batch size that is
   * not negative (`make` panics on a negative one before any row). A row is
   * stored at the next free slot of the batch; a batch size of zero leaves
   * no slot, so the first row panics.
   */
  function ScanRows(opt: QueryLogOption, levelStr: Int32 -> string, rows: seq<Row>): (p: Phase)
    requires opt.batchSize >= 0
    ensures !p.panicked ==> |p.pending| < opt.batchSize as int || (rows == [] && p.pending == [])
    ensures AllBatches(p.pushed)
  {
    if rows == [] then Phase([], [], false)
    else
      var p := ScanRows(opt, levelStr, rows[..|rows| - 1]);
      if p.panicked then p
      else match ToPayload(opt, levelStr, rows[|rows| - 1])
        case None => Phase(p.pushed, p.pending, true)
        case Some(x) => Store(p, x, opt.batchSize as int)
  }

  /**
   * `list[i] = x; i++`, pushing the batch when it is full: with no free
   * slot left (only possible for a batch size of zero) the store panics.
   */
  function Store(p: Phase, x: OutputLogPayload, b: int): (q: Phase)
    ensures AllBatches(p.pushed) ==> AllBatches(q.pushed)
  {
    if |p.pending| >= b then Phase(p.pushed, p.pending, true)
    else if |p.pending| + 1 == b then Phase(p.pushed + [Batch(p.pending + [x])], [], false)
    else Phase(p.pushed, p.pending + [x], false)
  }

  /**
   * `GetLog`: a failed query pushes one 500; otherwise rows are pushed in
   * batches of `batchSize`, then the rest of a partial batch, then a 204 -
   * unless the cursor fails: a failing `rows.Err` pushes 500 after the
   * partial batch, a failing `Scan` pushes 500 and drops the buffered rows.
   */
  function GetLog(opt: QueryLogOption, levelStr: Int32 -> string, answer: QueryAnswer): (run: GetLogRun)
    ensures answer.QueryFailed? ==> run == GetLogRun([Failure(answer.err)], Returned(Some(answer.err)))
    ensures answer.Cursor? && opt.batchSize < 0 ==> run == GetLogRun([], Panicked)
    ensures run.exit == Returned(None) <==> run.pushed != [] && run.pushed[|run.pushed| - 1] == Finished
    ensures run.exit.Returned? ==> run.pushed != [] && run.pushed[|run.pushed| - 1].code != StatusOK
    ensures forall k :: 0 <= k < |run.pushed| - 1 ==> run.pushed[k].code == StatusOK
  {
    match answer
    case QueryFailed(e) => GetLogRun([Failure(e)], Returned(Some(e)))
    case Cursor(rows, end) =>
      if opt.batchSize < 0 then GetLogRun([], Panicked)
      else
        var p := ScanRows(opt, levelStr, rows);
        if p.panicked then GetLogRun(p.pushed, Panicked)
        else
          var flushed := p.pushed + (if p.pending != [] then [Batch(p.pending)] else []);
          match end
          case ScanFailed(e) => GetLogRun(p.pushed + [Failure(e)], Returned(Some(e)))
          case IterationFailed(e) => GetLogRun(flushed + [Failure(e)], Returned(Some(e)))
          case Exhausted => GetLogRun(flushed + [Finished], Returned(None))
  }

  /** Every row's context arrays can be rebuilt without panicking. */
  predicate AllRebuildable(rows: seq<Row>) {
    forall k :: 0 <= k < |rows| ==> |rows[k].contextValues| >= |rows[k].contextKeys|
  }

  /** The payloads of all rows, in row order. */
  function Payloads(opt: QueryLogOption, levelStr: Int32 -> string, rows: seq<Row>): (r: seq<OutputLogPayload>)
    requires AllRebuildable(rows)
    ensures |r| == |rows|
  {
    if rows == [] then []
    else Payloads(opt, levelStr, rows[..|rows| - 1]) + [ToPayload(opt, levelStr, rows[|rows| - 1]).value]
  }

  /** The rows carried by a sequence of messages, concatenated in order. */
  function Data(ms: seq<OutputLogMessage>): seq<OutputLogPayload> {
    if ms == [] then [] else Data(ms[..|ms| - 1]) + ms[|ms| - 1].data
  }

  lemma DataAppend(ms: seq<OutputLogMessage>, m: OutputLogMessage)
    ensures Data(ms + [m]) == Data(ms) + m.data
  {
    assert (ms + [m])[..|ms|] == ms;
  }

  /** Every message among `ms` carries exactly `b` rows. */
  predicate FullBatches(ms: seq<OutputLogMessage>, b: int) {
    forall k :: 0 <= k < |ms| ==> |ms[k].data| == b
  }

  /**
   * With a positive batch size and rebuildable rows the loop never panics,
   * every pushed batch is full, fewer than a batch of rows stay buffered,
   * and the pushed rows followed by the buffered ones are all rows in order.
   */
  lemma {:induction false} ScanRowsBatches(opt: QueryLogOption, levelStr: Int32 -> string, rows: seq<Row>)
    requires opt.batchSize > 0 && AllRebuildable(rows)
    ensures Batched(ScanRows(opt, levelStr, rows), opt.batchSize as int, Payloads(opt, levelStr, rows))
    decreases |rows|
  {
    if rows != [] {
      var init := rows[..|rows| - 1];
      AllRebuildableInit(rows);
      ScanRowsBatches(opt, levelStr, init);
      ScanRowsStep(opt, levelStr, rows);
    }
  }

  lemma AllRebuildableInit(rows: seq<Row>)
    requires rows != [] && AllRebuildable(rows)
    ensures AllRebuildable(rows[..|rows| - 1])
    ensures |rows[|rows| - 1].contextValues| >= |rows[|rows| - 1].contextKeys|
  {
    var init := rows[..|rows| - 1];
    forall k | 0 <= k < |init| ensures |init[k].contextValues| >= |init[k].contextKeys| {
      assert init[k] == rows[k];
    }
  }

  /** The loop's invariant for a positive batch size: full batches pushed, fewer than a batch buffered, nothing lost. */
  predicate Batched(p: Phase, b: int, all: seq<OutputLogPayload>) {
    && !p.panicked
    && FullBatches(p.pushed, b)
    && |p.pending| < b
    && Data(p.pushed) + p.pending == all
  }

  /** One more rebuildable row, after a loop that kept the batch invariant. */
  lemma ScanRowsStep(opt: QueryLogOption, levelStr: Int32 -> string, rows: seq<Row>)
    requires opt.batchSize > 0 && rows != [] && AllRebuildable(rows)
    requires AllRebuildable(rows[..|rows| - 1])
    requires Batched(ScanRows(opt, levelStr, rows[..|rows| - 1]), opt.batchSize as int, Payloads(opt, levelStr, rows[..|rows| - 1]))
    ensures Batched(ScanRows(opt, levelStr, rows), opt.batchSize as int, Payloads(opt, levelStr, rows))
  {
    var init := rows[..|rows| - 1];
    var p := ScanRows(opt, levelStr, init);
    var x := ToPayload(opt, levelStr, rows[|rows| - 1]).value;
    assert Payloads(opt, levelStr, rows) == Payloads(opt, levelStr, init) + [x];
    assert ScanRows(opt, levelStr, rows) == Store(p, x, opt.batchSize as int);
    StoreKeepsBatched(p, x, opt.batchSize as int, Payloads(opt, levelStr, init));
  }

  /** Storing one more row keeps the batches full and loses nothing. */
  lemma StoreKeepsBatched(p: Phase, x: OutputLogPayload, b: int, all: seq<OutputLogPayload>)
    requires Batched(p, b, all)
    ensures Batched(Store(p, x, b), b, all + [x])
  {
    if |p.pending| + 1 == b {
      DataAppend(p.pushed, Batch(p.pending + [x]));
    }
  }

  /** The loop panics exactly when some row's context cannot be rebuilt or a row arrives with a batch size of zero. */
  lemma {:induction false} ScanRowsPanics(opt: QueryLogOption, levelStr: Int32 -> string, rows: seq<Row>)
    requires opt.batchSize >= 0
    ensures ScanRows(opt, levelStr, rows).panicked <==> !AllRebuildable(rows) || (opt.batchSize == 0 && rows != [])
    decreases |rows|
  {
    if rows != [] {
      var init := rows[..|rows| - 1];
      ScanRowsPanics(opt, levelStr, init);
      assert AllRebuildable(rows) <==> AllRebuildable(init) && |rows[|rows| - 1].contextValues| >= |rows[|rows| - 1].contextKeys| by {
        assert forall k :: 0 <= k < |init| ==> init[k] == rows[k];
      }
      var p := ScanRows(opt, levelStr, init);
      var last := rows[|rows| - 1];
      if p.panicked {
        assert ScanRows(opt, levelStr, rows) == p;
      } else if |last.contextValues| < |last.contextKeys| {
        assert ScanRows(opt, levelStr, rows).panicked;
      } else if opt.batchSize == 0 {
        assert ScanRows(opt, levelStr, rows).panicked;
      } else {
        ScanRowsBatches(opt, levelStr, init);
        assert !ScanRows(opt, levelStr, rows).panicked;
      }
    }
  }
  /** The messages pushed before the last one: the batches of rows. */
  function Batches(run: GetLogRun): seq<OutputLogMessage> {
    if run.pushed == [] then [] else run.pushed[..|run.pushed| - 1]
  }

  /**
   * A cursor read to its end with a positive batch size delivers every row
   * exactly once and in order, in full batches except possibly the last,
   * which is not empty, and then the 204 that ends the stream.
   */
  lemma GetLogDeliversAll(opt: QueryLogOption, levelStr: Int32 -> string, rows: seq<Row>)
    requires opt.batchSize > 0 && AllRebuildable(rows)
    ensures var run := GetLog(opt, levelStr, Cursor(rows, Exhausted));
      && run.exit == Returned(None)
      && run.pushed[|run.pushed| - 1] == Finished
      && Data(Batches(run)) == Payloads(opt, levelStr, rows)
      && (Batches(run) != [] ==>
            && FullBatches(Batches(run)[..|Batches(run)| - 1], opt.batchSize as int)
            && 0 < |Batches(run)[|Batches(run)| - 1].data| <= opt.batchSize as int)
  {
    ScanRowsBatches(opt, levelStr, rows);
    var p := ScanRows(opt, levelStr, rows);
    var run := GetLog(opt, levelStr, Cursor(rows, Exhausted));
    if p.pending != [] {
      assert run.pushed == p.pushed + [Batch(p.pending)] + [Finished];
      assert Batches(run) == p.pushed + [Batch(p.pending)];
      DataAppend(p.pushed, Batch(p.pending));
      assert Batches(run)[..|Batches(run)| - 1] == p.pushed;
    } else {
      assert run.pushed == p.pushed + [Finished];
      assert Batches(run) == p.pushed;
      if p.pushed != [] {
        var init := p.pushed[..|p.pushed| - 1];
        assert FullBatches(init, opt.batchSize as int) by {
          forall k | 0 <= k < |init| ensures |init[k].data| == opt.batchSize as int {
            assert init[k] == p.pushed[k];
          }
        }
      }
    }
  }

  /**
   * A failing `Scan` after some rows delivers only the full batches: the
   * rows still buffered, fewer than one batch, are never pushed.
   */
  lemma GetLogScanFailureDropsBuffered(opt: QueryLogOption, levelStr: Int32 -> string, rows: seq<Row>, err: string)
    requires opt.batchSize > 0 && AllRebuildable(rows)
    ensures var run := GetLog(opt, levelStr, Cursor(rows, ScanFailed(err)));
      var delivered := Data(Batches(run));
      && run.exit == Returned(Some(err))
      && run.pushed[|run.pushed| - 1] == Failure(err)
      && |delivered| <= |rows|
      && delivered == Payloads(opt, levelStr, rows)[..|delivered|]
      && |rows| - |delivered| < opt.batchSize as int
      && |delivered| == |Batches(run)| * opt.batchSize as int
  {
    ScanRowsBatches(opt, levelStr, rows);
    var p := ScanRows(opt, levelStr, rows);
    var run := GetLog(opt, levelStr, Cursor(rows, ScanFailed(err)));
    assert run.pushed == p.pushed + [Failure(err)];
    assert Batches(run) == p.pushed;
    var all := Payloads(opt, levelStr, rows);
    var delivered := Data(p.pushed);
    assert delivered == all[..|delivered|] by {
      assert all == delivered + p.pending;
    }
    FullBatchesData(p.pushed, opt.batchSize as int);
  }

  /**
   * A cursor whose iteration fails after its rows still delivers every row
   * in order, the partial batch included, and then the 500 with the
   * error's text instead of the 204.
   */
  lemma GetLogIterationFailureFlushes(opt: QueryLogOption, levelStr: Int32 -> string, rows: seq<Row>, err: string)
    requires opt.batchSize > 0 && AllRebuildable(rows)
    ensures var run := GetLog(opt, levelStr, Cursor(rows, IterationFailed(err)));
      && run.exit == Returned(Some(err))
      && run.pushed[|run.pushed| - 1] == Failure(err)
      && Finished !in run.pushed
      && Data(Batches(run)) == Payloads(opt, levelStr, rows)
  {
    ScanRowsBatches(opt, levelStr, rows);
    var p := ScanRows(opt, levelStr, rows);
    var run := GetLog(opt, levelStr, Cursor(rows, IterationFailed(err)));
    if p.pending != [] {
      assert run.pushed == p.pushed + [Batch(p.pending)] + [Failure(err)];
      assert Batches(run) == p.pushed + [Batch(p.pending)];
      DataAppend(p.pushed, Batch(p.pending));
    } else {
      assert run.pushed == p.pushed + [Failure(err)];
      assert Batches(run) == p.pushed;
    }
    assert AllBatches(p.pushed);
  }

  lemma {:induction false} FullBatchesData(ms: seq<OutputLogMessage>, b: int)
    requires b > 0 && FullBatches(ms, b)
    ensures |Data(ms)| == |ms| * b
    decreases |ms|
  {
    if ms != [] {
      var init := ms[..|ms| - 1];
      assert FullBatches(init, b) by {
        forall k | 0 <= k < |init| ensures |init[k].data| == b {
          assert init[k] == ms[k];
        }
      }
      FullBatchesData(init, b);
      assert |Data(ms)| == |Data(init)| + b;
      assert |ms| * b == (|ms| - 1) * b + b;
    }
  }

  /**
   * What the database answers to each step of `Insert`: `Begin`, `Prepare`,
   * the `Exec` of entry `i` (failing exactly for the indices in
   * `execFails`) and `Commit`.
   */
  datatype TxAnswers = TxAnswers(
    beginErr: Option<string>,
    prepareErr: Option<string>,
    execFails: set<int>,
    commitErr: Option<string>)

  /**
   * The outcome of `Insert`: the error returned (None for nil), the rows the
   * transaction made durable, and how many ids it drew from the generator.
   */
  datatype InsertRun = InsertRun(err: Option<string>, stored: seq<ExecCall>, idsDrawn: nat)

  /** One `Exec`: the entry and the id drawn for it. */
  datatype ExecCall = ExecCall(entry: LogEntry, id: Int64)

  /**
   * The row an `Exec` writes: the entry under the fresh id, dated by its
   * own timestamp; every other column is the entry's.
   */
  function StoredRow(c: ExecCall): (r: LogEntry)
    ensures r.id == c.id && r.date == CoreUtils.ToYYYYMMDD(c.entry.timestamp)
    ensures r.(id := c.entry.id, date := c.entry.date) == c.entry
    ensures Civil.DayNumber(Civil.ParseYYYYMMDD(r.date)) == CoreUtils.EpochDay + CoreUtils.InstantDay(c.entry.timestamp)
  {
    c.entry.(id := c.id, date := CoreUtils.ToYYYYMMDD(c.entry.timestamp))
  }

  /** The `Exec` calls that succeed among the first `n` entries, each with the id drawn for it. */
  function Executed(logs: seq<LogEntry>, ids: seq<Int64>, fails: set<int>, n: nat): (r: seq<ExecCall>)
    requires n <= |logs| <= |ids|
    ensures |r| <= n
  {
    if n == 0 then []
    else Executed(logs, ids, fails, n - 1) + (if n - 1 in fails then [] else [ExecCall(logs[n - 1], ids[n - 1])])
  }

  /** The indices below `n` whose `Exec` succeeds, in increasing order. */
  function Succeeding(n: nat, fails: set<int>): (r: seq<nat>)
    ensures forall k :: 0 <= k < |r| ==> r[k] < n && r[k] !in fails
  {
    if n == 0 then [] else Succeeding(n - 1, fails) + (if n - 1 in fails then [] else [n - 1])
  }

  /** `Succeeding` lists every succeeding index below `n`, each once, in increasing order. */
  lemma {:induction false} SucceedingExactly(n: nat, fails: set<int>)
    ensures forall i :: 0 <= i < n && i !in fails ==> i in Succeeding(n, fails)
    ensures forall k, l :: 0 <= k < l < |Succeeding(n, fails)| ==> Succeeding(n, fails)[k] < Succeeding(n, fails)[l]
  {
    if n > 0 {
      SucceedingExactly(n - 1, fails);
    }
  }

  /**
   * `Insert`: a failing `Begin` or `Prepare` returns its wrapped error and
   * writes nothing; otherwise every entry is executed under the next id, a
   * failing `Exec` is only logged, and the commit decides whether the
   * executed rows become durable and whether an error is returned.
   */
  function Insert(logs: seq<LogEntry>, ids: seq<Int64>, tx: TxAnswers): (run: InsertRun)
    requires |ids| >= |logs|
    ensures tx.beginErr.Some? ==> run == InsertRun(Some("open click-house tx get error " + tx.beginErr.value), [], 0)
    ensures tx.beginErr.None? && tx.prepareErr.Some? ==>
      run == InsertRun(Some("prepare click-house statement get error " + tx.prepareErr.value), [], 0)
    ensures tx.beginErr.None? && tx.prepareErr.None? ==> run.idsDrawn == |logs|
    ensures run.err.None? <==> tx.beginErr.None? && tx.prepareErr.None? && tx.commitErr.None?
    ensures run.err.Some? ==> run.stored == []
    ensures |run.stored| <= |logs|
  {
    if tx.beginErr.Some? then InsertRun(Some("open click-house tx get error " + tx.beginErr.value), [], 0)
    else if tx.prepareErr.Some? then InsertRun(Some("prepare click-house statement get error " + tx.prepareErr.value), [], 0)
    else
      var rows := Executed(logs, ids, tx.execFails, |logs|);
      match tx.commitErr
      case Some(e) => InsertRun(Some("commit log to click-house db get error " + e), [], |logs|)
      case None => InsertRun(None, rows, |logs|)
  }

  /**
   * Failing `Exec` calls cost only their own rows: the executed rows are,
   * in order, exactly the entries whose `Exec` succeeds, each under the id
   * drawn for it and with the date of its timestamp.
   */
  lemma {:induction false} ExecutedKeepsOthers(logs: seq<LogEntry>, ids: seq<Int64>, fails: set<int>, n: nat)
    requires n <= |logs| <= |ids|
    ensures var r := Executed(logs, ids, fails, n);
      var ok := Succeeding(n, fails);
      && |r| == |ok|
      && forall k :: 0 <= k < |r| ==> r[k] == ExecCall(logs[ok[k]], ids[ok[k]])
  {
    if n > 0 {
      ExecutedKeepsOthers(logs, ids, fails, n - 1);
      var r, ok := Executed(logs, ids, fails, n), Succeeding(n, fails);
      var r', ok' := Executed(logs, ids, fails, n - 1), Succeeding(n - 1, fails);
      if n - 1 in fails {
        assert r == r' && ok == ok';
      } else {
        assert r == r' + [ExecCall(logs[n - 1], ids[n - 1])];
        assert ok == ok' + [n - 1];
        forall k | 0 <= k < |r| ensures r[k] == ExecCall(logs[ok[k]], ids[ok[k]]) {
          if k < |r'| {
            assert r[k] == r'[k] && ok[k] == ok'[k];
          } else {
            assert r[k] == ExecCall(logs[n - 1], ids[n - 1]) && ok[k] == n - 1;
          }
        }
      }
    }
  }

  /** A committed insert stores exactly the entries whose `Exec` succeeds, in order, under their drawn ids. */
  lemma InsertStoresSucceeding(logs: seq<LogEntry>, ids: seq<Int64>, tx: TxAnswers)
    requires |ids| >= |logs|
    requires tx.beginErr.None? && tx.prepareErr.None? && tx.commitErr.None?
    ensures var run := Insert(logs, ids, tx);
      var ok := Succeeding(|logs|, tx.execFails);
      && run.err.None?
      && |run.stored| == |ok|
      && forall k :: 0 <= k < |ok| ==>
           run.stored[k] == ExecCall(logs[ok[k]], ids[ok[k]])
  {
    ExecutedKeepsOthers(logs, ids, tx.execFails, |logs|);
  }
}
