/**
 * driver_clickhouse.go: the ClickHouse driver's option parsing and DSN
 * building (`Open`), the payload-to-entry mapping of `Collect`, and
 * `FetchingLog`'s error handling, over the pool and connection models.
 */
module Driver {
  import opened Base
  import opened GoStrings
  import Strconv
  import CoreUtils
  import opened Message
  import Pool
  import Connection

  /** Why `Open` failed. */
  datatype OpenError =
    | FormatError(option: string)      // "option of clickhouse is wrong format. value = <option>"
    | ParseError(numError: Strconv.NumError) // Atoi or ParseInt rejected a number
    | MissingAddress                    // "missing address of clickhouse database"
    | PoolError(err: string)            // CreateCHPool's error

  /** The settings `Open` accumulates from its options. */
  datatype Settings = Settings(
    minActiveConn: int,
    maxActiveConn: int,
    maxInActiveTime: Int64,
    address: string,
    dsnOptions: seq<string>)

  const Defaults := Settings(0, 1, 300000, "", [])

  /** The text before the first "=", or the whole option when there is none. */
  function OptionKey(opt: string): string {
    opt[..IndexOf(opt, '=')]
  }

  /** The text after the first "=": the rest, which may hold more "=". */
  function OptionValue(opt: string): string
    requires '=' in opt
  {
    opt[IndexOf(opt, '=') + 1..]
  }

  /** The error an option causes on its own, whatever came before it. */
  function OptionError(opt: string): (r: Option<OpenError>)
    ensures '=' !in opt ==> r == Some(FormatError(opt))
  {
    if '=' !in opt then Some(FormatError(opt))
    else
      var key, value := OptionKey(opt), OptionValue(opt);
      if key == "minActiveConn" || key == "maxActiveConn" then
        (match Strconv.Atoi(value) case Err(e) => Some(ParseError(e)) case Ok(_) => None)
      else if key == "maxInActiveTime" then
        (match Strconv.ParseInt(value) case Err(e) => Some(ParseError(e)) case Ok(_) => None)
      else None
  }

  /**
   * One option: split on "=", at least two pieces, key = first piece,
   * value = the other pieces joined by "="; then the switch on the key.
   */
  function ApplyOption(s: Settings, opt: string): (r: Result<Settings, OpenError>)
    ensures r.Err? <==> OptionError(opt).Some?
    ensures r.Err? ==> r.error == OptionError(opt).value
    ensures r.Ok? && OptionKey(opt) !in {"minActiveConn", "maxActiveConn", "maxInActiveTime", "address", "dsnopts"} ==> r.value == s
  {
    var parts := Split(opt, '=');
    SplitOption(opt);
    if |parts| < 2 then Err(FormatError(opt))
    else
      var key := parts[0];
      var value := Join(parts[1..], "=");
      if key == "minActiveConn" then
        match Strconv.Atoi(value)
        case Err(e) => Err(ParseError(e))
        case Ok(n) => Ok(s.(minActiveConn := n))
      else if key == "maxActiveConn" then
        match Strconv.Atoi(value)
        case Err(e) => Err(ParseError(e))
        case Ok(n) => Ok(s.(maxActiveConn := n))
      else if key == "maxInActiveTime" then
        match Strconv.ParseInt(value)
        case Err(e) => Err(ParseError(e))
        case Ok(n) => Ok(s.(maxInActiveTime := n))
      else if key == "address" then Ok(s.(address := value))
      else if key == "dsnopts" then Ok(s.(dsnOptions := s.dsnOptions + [value]))
      else Ok(s)
  }

  /** `strings.Split` on "=" yields two or more pieces exactly when there is a "=", and then they are the key and value. */
  lemma SplitOption(opt: string)
    ensures |Split(opt, '=')| >= 2 <==> '=' in opt
    ensures '=' in opt ==> Split(opt, '=')[0] == OptionKey(opt) && Join(Split(opt, '=')[1..], "=") == OptionValue(opt)
  {
    if '=' in opt {
      SplitHeadTail(opt, '=');
    } else {
      NoSepCount(opt, '=');
    }
  }

  /** The options applied left to right from the defaults; the first failing one decides the error. */
  function ParseOptions(opts: seq<string>): (r: Result<Settings, OpenError>)
    ensures r.Err? ==> exists i :: 0 <= i < |opts| && OptionError(opts[i]) == Some(r.error)
    ensures opts == [] ==> r == Ok(Defaults)
  {
    if opts == [] then Ok(Defaults)
    else
      var init := opts[..|opts| - 1];
      match ParseOptions(init)
      case Err(e) => Err(e)
      case Ok(s) => ApplyOption(s, opts[|opts| - 1])
  }

  /** No option fails on its own. */
  predicate AllOptionsValid(opts: seq<string>) {
    forall i :: 0 <= i < |opts| ==> OptionError(opts[i]).None?
  }

  lemma AllOptionsValidLast(opts: seq<string>)
    requires opts != []
    ensures AllOptionsValid(opts) <==> AllOptionsValid(opts[..|opts| - 1]) && OptionError(opts[|opts| - 1]).None?
  {
    var init := opts[..|opts| - 1];
    assert forall i :: 0 <= i < |init| ==> init[i] == opts[i];
  }

  /** Parsing succeeds exactly when no option fails on its own. */
  lemma {:induction false} ParseOptionsOk(opts: seq<string>)
    ensures ParseOptions(opts).Ok? <==> AllOptionsValid(opts)
  {
    if opts != [] {
      ParseOptionsOk(opts[..|opts| - 1]);
      ParseOptionsLast(opts);
      AllOptionsValidLast(opts);
    }
  }

  /** The last option decides once the others parsed. */
  lemma ParseOptionsLast(opts: seq<string>)
    requires opts != []
    ensures ParseOptions(opts[..|opts| - 1]).Err? ==> ParseOptions(opts) == ParseOptions(opts[..|opts| - 1])
    ensures ParseOptions(opts[..|opts| - 1]).Ok? ==>
      ParseOptions(opts) == ApplyOption(ParseOptions(opts[..|opts| - 1]).value, opts[|opts| - 1])
    ensures ParseOptions(opts).Ok? <==> ParseOptions(opts[..|opts| - 1]).Ok? && OptionError(opts[|opts| - 1]).None?
  {
  }

  /** The index of the first option that fails on its own, or `|opts|`. */
  function FirstBadOption(opts: seq<string>): (i: nat)
    ensures i <= |opts|
    ensures forall j :: 0 <= j < i ==> OptionError(opts[j]).None?
    ensures i < |opts| ==> OptionError(opts[i]).Some?
  {
    if opts == [] || OptionError(opts[0]).Some? then 0 else 1 + FirstBadOption(opts[1..])
  }

  /** A failing parse reports the error of the first option that fails on its own. */
  lemma {:induction false} ParseOptionsFirstError(opts: seq<string>)
    ensures var i := FirstBadOption(opts);
      ParseOptions(opts).Err? ==> i < |opts| && ParseOptions(opts).error == OptionError(opts[i]).value
  {
    if opts != [] {
      var init := opts[..|opts| - 1];
      var last := opts[|opts| - 1];
      ParseOptionsFirstError(init);
      FirstBadOptionPrefix(opts);
      match ParseOptions(init)
      case Err(e) =>
        assert ParseOptions(opts) == Err(e);
      case Ok(s) =>
        ParseOptionsOk(init);
        assert FirstBadOption(init) == |init|;
        assert ParseOptions(opts) == ApplyOption(s, last);
    }
  }

  lemma {:induction false} FirstBadOptionPrefix(opts: seq<string>)
    requires opts != []
    ensures var i := FirstBadOption(opts[..|opts| - 1]);
      i < |opts| - 1 ==> FirstBadOption(opts) == i
    ensures FirstBadOption(opts[..|opts| - 1]) == |opts| - 1 ==> FirstBadOption(opts) == |opts| - 1 || FirstBadOption(opts) == |opts|
  {
    var i := FirstBadOption(opts[..|opts| - 1]);
    var k := FirstBadOption(opts);
    assert forall j :: 0 <= j < |opts| - 1 ==> opts[..|opts| - 1][j] == opts[j];
    if i < |opts| - 1 {
      assert k <= i;
      assert k >= i;
    }
  }

  /** The values of the "dsnopts" options, in the order given. */
  function DsnOptionValues(opts: seq<string>): seq<string> {
    if opts == [] then []
    else
      var last := opts[|opts| - 1];
      DsnOptionValues(opts[..|opts| - 1]) + (if '=' in last && OptionKey(last) == "dsnopts" then [OptionValue(last)] else [])
  }

  /** Successful parsing collects exactly the "dsnopts" values, in order. */
  lemma {:induction false} ParseOptionsCollectsDsnOptions(opts: seq<string>)
    requires ParseOptions(opts).Ok?
    ensures ParseOptions(opts).value.dsnOptions == DsnOptionValues(opts)
  {
    if opts != [] {
      var init := opts[..|opts| - 1];
      var last := opts[|opts| - 1];
      assert forall i :: 0 <= i < |init| ==> init[i] == opts[i];
      ParseOptionsOk(opts);
      ParseOptionsOk(init);
      ParseOptionsCollectsDsnOptions(init);
      assert '=' in last by {
        AllOptionsValidLast(opts);
      }
      SplitHeadTail(last, '=');
    }
  }

  /** The DSN: "tcp://" and the address, then "?" and the options joined by "&" when there are any. */
  function Dsn(address: string, dsnOptions: seq<string>): (dsn: string)
    ensures |dsn| >= 6 + |address| && dsn[..6] == "tcp://" && dsn[6..6 + |address|] == address
    ensures dsnOptions == [] ==> |dsn| == 6 + |address|
    ensures dsnOptions != [] ==> dsn[6 + |address|..] == "?" + Join(dsnOptions, "&")
  {
    if dsnOptions == [] then "tcp://" + address
    else "tcp://" + address + "?" + Join(dsnOptions, "&")
  }

  /**
   * `Open`: parse the options, insist on an address that is not blank,
   * build the DSN and create the pool; `now` and `dial` stand for the clock
   * and the database.
   */
  function Open(opts: seq<string>, now: int, dial: nat -> Pool.DialOutcome): (r: Result<Pool.CHPool, OpenError>)
    ensures ParseOptions(opts).Err? ==> r == Err(ParseOptions(opts).error)
    ensures ParseOptions(opts).Ok? && AllSpace(ParseOptions(opts).value.address) ==> r == Err(MissingAddress)
    ensures r.Ok? ==> var s := ParseOptions(opts).value;
      && !AllSpace(s.address)
      && r.value.dsn == Dsn(s.address, s.dsnOptions)
      && r.value.minActive == s.minActiveConn && r.value.maxActive == s.maxActiveConn
      && r.value.maxLifeTime == s.maxInActiveTime
      && Pool.Inv(r.value)
    ensures ParseOptions(opts).Ok? && !AllSpace(ParseOptions(opts).value.address) ==>
      var s := ParseOptions(opts).value;
      var c := Pool.CreateCHPool(s.minActiveConn, s.maxActiveConn, s.maxInActiveTime, Dsn(s.address, s.dsnOptions), now, dial);
      && (r.Ok? <==> c.Ok?)
      && (c.Err? ==> r == Err(PoolError(c.error)))
      && (c.Ok? ==> r.value == c.value)
  {
    var s :- ParseOptions(opts);
    if CoreUtils.StrIsEmpty(s.address) then Err(MissingAddress)
    else
      match Pool.CreateCHPool(s.minActiveConn, s.maxActiveConn, s.maxInActiveTime, Dsn(s.address, s.dsnOptions), now, dial)
      case Err(e) => Err(PoolError(e))
      case Ok(p) => Ok(p)
  }

  /** With no options the pool bounds are min 0, max 1 and 300000 for the lifetime; the address is still required. */
  lemma OpenWithoutOptions(now: int, dial: nat -> Pool.DialOutcome)
    ensures ParseOptions([]) == Ok(Settings(0, 1, 300000, "", []))
    ensures Open([], now, dial) == Err(MissingAddress)
  {
    assert AllSpace("");
  }

  /** The iteration orders of the two ranges over one payload's context: `Keys()` and `Values()`. */
  datatype RangeOrders = RangeOrders(keys: seq<string>, values: seq<string>)

  predicate OrdersFit(m: InputLogPayload, o: RangeOrders) {
    RangeOrderFor(m.context, o.keys) && RangeOrderFor(m.context, o.values)
  }

  /**
   * The entry `Collect` builds from a payload: tag, timestamp, container
   * and message copied, the level name converted by `levelInt`
   * (`LogLevelInt`, defined outside this model), the context as the results
   * of two separate ranges; id and date stay zero for `Insert` to fill.
   */
  function ToEntry(m: InputLogPayload, levelInt: string -> Int32, o: RangeOrders): (e: LogEntry)
    requires OrdersFit(m, o)
    ensures e.tag == m.tag && e.timestamp == m.timestamp && e.containerName == m.containerName
    ensures e.message == m.message && e.level == levelInt(m.level)
    ensures e.id == 0 && e.date == ""
    ensures |e.contextKeys| == |e.contextValues|
  {
    LogEntry(0, m.tag, m.timestamp, "", m.containerName, levelInt(m.level), m.message,
      Keys(m.context, o.keys), Values(m.context, o.values))
  }

  /** One entry per payload, in order. */
  function ToEntries(msgs: seq<InputLogPayload>, levelInt: string -> Int32, orders: seq<RangeOrders>): (es: seq<LogEntry>)
    requires |orders| == |msgs| && forall i :: 0 <= i < |msgs| ==> OrdersFit(msgs[i], orders[i])
    ensures |es| == |msgs|
    ensures forall i :: 0 <= i < |msgs| ==> es[i] == ToEntry(msgs[i], levelInt, orders[i])
  {
    seq(|msgs|, i requires 0 <= i < |msgs| => ToEntry(msgs[i], levelInt, orders[i]))
  }

  /**
   * The pool after a call that took the head idle connection and released
   * it again: the same connection is back at the tail, stamped `now`, and
   * `nowActive` is where it was.
   */
  predicate Returned(p: Pool.CHPool, q: Pool.CHPool, now: int)
    requires Pool.Wf(p) && p.idle != []
  {
    && q.idle == p.idle[1..] + [p.idle[0]]
    && q.nowActive == p.nowActive
    && |q.conns| == |p.conns|
    && q.conns[p.idle[0]] == p.conns[p.idle[0]].(ts := now)
    && forall j :: 0 <= j < |p.conns| && j != p.idle[0] ==> q.conns[j] == p.conns[j]
  }

  /**
   * `Collect`: acquire a connection (its error is returned as is), insert
   * the entries, then release the connection; the insert's error is the
   * result.
   */
  function Collect(p: Pool.CHPool, msgs: seq<InputLogPayload>, levelInt: string -> Int32, orders: seq<RangeOrders>,
                   now: int, dial: Pool.DialOutcome, ids: seq<Int64>, tx: Connection.TxAnswers): (r: (Pool.CHPool, Ending<Connection.InsertRun>))
    requires |orders| == |msgs| && forall i :: 0 <= i < |msgs| ==> OrdersFit(msgs[i], orders[i])
    requires |ids| >= |msgs|
    requires Pool.Wf(p)
    ensures p.isClosed ==> r == (p, Returns(Connection.InsertRun(Some(Pool.ErrPoolClosed), [], 0)))
    ensures Pool.Inv(p) ==> r.1 != Hangs && Pool.Inv(r.0)
    ensures Pool.Inv(p) && !p.isClosed ==> (r.1 == Panics <==> p.idle == [] && dial.DialFailed?)
    ensures Pool.Inv(p) && !p.isClosed && p.idle != [] ==> Returned(p, r.0, now)
    ensures Pool.Inv(p) && !p.isClosed && r.1.Returns? ==>
      r.1.value == Connection.Insert(ToEntries(msgs, levelInt, orders), ids, tx)
  {
    var (q, out) := Pool.Acquire(p, now, dial);
    match out
    case AcquireFailed(e) => (q, Returns(Connection.InsertRun(Some(e), [], 0)))
    case NilDeref => (q, Panics)
    case SendBlocks => (q, Hangs)
    case Acquired(c) =>
      var run := Connection.Insert(ToEntries(msgs, levelInt, orders), ids, tx);
      var (q', rel) := Pool.Release(q, c, now);
      if rel == Pool.ReleaseBlocks then (q', Hangs) else (q', Returns(run))
  }

  /**
   * `FetchingLog`: acquire a connection (its error is returned), stream the
   * query, release; an error from `GetLog` is only logged, so the result is
   * nil whenever a connection was acquired. The release is deferred, so it
   * also runs while a panic in `GetLog` unwinds.
   */
  function FetchingLog(p: Pool.CHPool, opt: Connection.QueryLogOption, levelStr: Int32 -> string,
                       answer: Connection.QueryAnswer, now: int, dial: Pool.DialOutcome)
    : (r: (Pool.CHPool, Ending<(Option<string>, seq<OutputLogMessage>)>))
    requires Pool.Wf(p)
    ensures p.isClosed ==> r == (p, Returns((Some(Pool.ErrPoolClosed), [])))
    ensures Pool.Inv(p) ==> r.1 != Hangs && Pool.Inv(r.0)
    ensures Pool.Inv(p) && !p.isClosed && r.1.Returns? ==>
      r.1.value == (None, Connection.GetLog(opt, levelStr, answer).pushed)
    ensures Pool.Inv(p) && !p.isClosed && (p.idle != [] || dial.Dialed?) ==>
      (r.1 == Panics <==> Connection.GetLog(opt, levelStr, answer).exit == Connection.Panicked)
    ensures Pool.Inv(p) && !p.isClosed && p.idle != [] ==> Returned(p, r.0, now)
  {
    var (q, out) := Pool.Acquire(p, now, dial);
    match out
    case AcquireFailed(e) => (q, Returns((Some(e), [])))
    case NilDeref => (q, Panics)
    case SendBlocks => (q, Hangs)
    case Acquired(c) =>
      var run := Connection.GetLog(opt, levelStr, answer);
      var (q', rel) := Pool.Release(q, c, now);
      if rel == Pool.ReleaseBlocks then (q', Hangs)
      else if run.exit == Connection.Panicked then (q', Panics)
      else (q', Returns((None, run.pushed)))
  }

  /**
   * The stored context can come back scrambled: `Keys()` and `Values()`
   * range over the map separately, and the rows are rebuilt by position.
   */
  lemma StoredContextMayScramble(levelInt: string -> Int32)
    ensures var ctx := map["a" := "1", "b" := "2"];
      var m := InputLogPayload("app", 0, "", "", "hello", Some(ctx));
      var o := RangeOrders(["a", "b"], ["b", "a"]);
      && OrdersFit(m, o)
      && var e := ToEntry(m, levelInt, o);
      Connection.BuildContext(e.contextKeys, e.contextValues) == Some(map["a" := "2", "b" := "1"])
      && Connection.BuildContext(e.contextKeys, e.contextValues) != Some(ctx)
  {
    var ctx := map["a" := "1", "b" := "2"];
    assert ctx.Keys == {"a", "b"};
    var m := InputLogPayload("app", 0, "", "", "hello", Some(ctx));
    var o := RangeOrders(["a", "b"], ["b", "a"]);
    var e := ToEntry(m, levelInt, o);
    assert e.contextKeys == ["a", "b"] && e.contextValues == ["2", "1"];
    var r := Connection.BuildContext(e.contextKeys, e.contextValues);
    assert Connection.LastAt(["a", "b"], 0, 2);
    assert r.value["a"] == "2";
    assert r.value.Keys == {"a", "b"};
    assert r.value == map["a" := "2", "b" := "1"];
    assert r.value["a"] != ctx["a"];
  }

  /** The entry as evidently intended: keys and values taken in one range, so position `i` pairs them. */
  function ToEntryPaired(m: InputLogPayload, levelInt: string -> Int32, order: seq<string>): (e: LogEntry)
    requires RangeOrderFor(m.context, order)
    ensures e.tag == m.tag && e.timestamp == m.timestamp && e.containerName == m.containerName
    ensures e.message == m.message && e.level == levelInt(m.level) && e.id == 0 && e.date == ""
    ensures e.contextKeys == Keys(m.context, order) && |e.contextValues| == |e.contextKeys|
    ensures m.context.Some? ==> forall i :: 0 <= i < |e.contextKeys| ==> e.contextValues[i] == m.context.value[e.contextKeys[i]]
  {
    var keys := Keys(m.context, order);
    var values := match m.context case None => [] case Some(ctx) => ValuesAlong(order, ctx);
    LogEntry(0, m.tag, m.timestamp, "", m.containerName, levelInt(m.level), m.message, keys, values)
  }

  /** With paired arrays, rebuilding the stored context gives back the payload's map (a nil map comes back empty). */
  lemma PairedContextRoundTrip(m: InputLogPayload, levelInt: string -> Int32, order: seq<string>)
    requires RangeOrderFor(m.context, order)
    ensures var e := ToEntryPaired(m, levelInt, order);
      Connection.BuildContext(e.contextKeys, e.contextValues) == Some(m.context.GetOr(map[]))
  {
    var e := ToEntryPaired(m, levelInt, order);
    match m.context
    case None =>
      assert e.contextKeys == [];
      assert Connection.BuildContext(e.contextKeys, e.contextValues).value.Keys == {};
    case Some(ctx) =>
      assert e.contextKeys == order && e.contextValues == ValuesAlong(order, ctx);
      Connection.RebuildPaired(order, ctx);
  }
}
