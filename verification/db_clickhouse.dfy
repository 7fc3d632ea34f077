/**
 * db_clickhouse.go: reading the query parameters of a log lookup into a
 * `RetreiveLogOption`, and building the conditions, ordering and argument
 * list of `selectLogWithOpt` up to the point where the SQL text exists.
 * The current date (`time.Now()` in the local zone, as `YYYYMMDD`) is the
 * parameter `today`.
 */
module DbClickhouse {
  import opened Base
  import opened GoStrings
  import Strconv
  import Url
  import CoreUtils
  import Civil

  /** `RetreiveLogOption`; a nil `*string` container filter is `None`. */
  datatype RetrieveLogOption = RetrieveLogOption(
    limit: Int64,
    id: Int64,
    application: string,
    date: string,
    head: bool,
    greps: seq<string>,
    containerName: Option<string>,
    containerId: Option<string>)

  /** `errorMissingTag`, or the `*strconv.NumError` of a bad `limit` or `id`. */
  datatype OptionError = MissingTag | BadNumber(numError: Strconv.NumError)

  /** A numeric parameter: absent gives the default, present must parse with `Atoi`. */
  function NumberParam(values: Url.Values, key: string, default: Int64): (r: Result<Int64, Strconv.NumError>)
    ensures Url.First(values, key).None? ==> r == Ok(default)
    ensures Url.First(values, key).Some? ==> r == Strconv.Atoi(Url.First(values, key).value)
  {
    match Url.First(values, key)
    case None => Ok(default)
    case Some(s) => Strconv.Atoi(s)
  }

  /** `is_head`: `ParseBool`'s value, which is false when the text does not parse. */
  function HeadParam(values: Url.Values): (head: bool)
    ensures head <==> (Url.First(values, "is_head").Some?
      && Url.First(values, "is_head").value in {"1", "t", "T", "TRUE", "true", "True"})
  {
    match Url.First(values, "is_head")
    case None => false
    case Some(s) => match Strconv.ParseBool(s) case Ok(b) => b case Err(_) => false
  }

  /**
   * `createOption`: the tag is required; `limit` (default 100) and `id`
   * (default 0) must be integers, `limit` checked first; `date` defaults
   * to today; `is_head` that does not parse leaves the lookup at the tail;
   * the container filters are the first values when present; `greps` is
   * every value given.
   */
  function CreateOption(values: Url.Values, today: string): (r: Result<RetrieveLogOption, OptionError>)
    ensures r == Err(MissingTag) <==> Url.Get(values, "tag") == []
    ensures r.Err? && r != Err(MissingTag) ==>
      (NumberParam(values, "limit", 100).Err? && r.error.numError == NumberParam(values, "limit", 100).error)
      || (NumberParam(values, "limit", 100).Ok? && NumberParam(values, "id", 0).Err?
          && r.error.numError == NumberParam(values, "id", 0).error)
    ensures r.Ok? <==> Url.Get(values, "tag") != [] && NumberParam(values, "limit", 100).Ok? && NumberParam(values, "id", 0).Ok?
    ensures r.Ok? ==>
      && r.value.application == Url.Get(values, "tag")[0]
      && r.value.limit == NumberParam(values, "limit", 100).value
      && r.value.id == NumberParam(values, "id", 0).value
      && r.value.date == Url.First(values, "date").GetOr(today)
      && r.value.head == HeadParam(values)
      && r.value.containerName == Url.First(values, "container_name")
      && r.value.containerId == Url.First(values, "container_id")
      && r.value.greps == Url.Get(values, "greps")
  {
    var tags := Url.Get(values, "tag");
    if tags == [] then Err(MissingTag)
    else
      match NumberParam(values, "limit", 100)
      case Err(e) => Err(BadNumber(e))
      case Ok(limit) =>
        var date := Url.First(values, "date").GetOr(today);
        match NumberParam(values, "id", 0)
        case Err(e) => Err(BadNumber(e))
        case Ok(id) =>
          Ok(RetrieveLogOption(limit, id, tags[0], date, HeadParam(values), Url.Get(values, "greps"),
            Url.First(values, "container_name"), Url.First(values, "container_id")))
  }

  /** With only a tag, the lookup is today's last 100 rows from the tail, unfiltered. */
  lemma CreateOptionDefaults(tag: string, today: string)
    ensures CreateOption(map["tag" := [tag]], today)
      == Ok(RetrieveLogOption(100, 0, tag, today, false, [], None, None))
  {
  }

  /** A non-numeric limit aborts with the `Atoi` syntax error, even when a bad id follows. */
  lemma CreateOptionBadLimit(today: string)
    ensures CreateOption(map["tag" := ["app"], "limit" := ["x"], "id" := ["y"]], today)
      == Err(BadNumber(Strconv.NumError("Atoi", "x", Strconv.ErrSyntax)))
  {
    var values := map["tag" := ["app"], "limit" := ["x"], "id" := ["y"]];
    assert Url.First(values, "limit") == Some("x");
    assert Strconv.ScanDigits("x") == Err(Strconv.ErrSyntax) by {
      assert "x"[..0] == "";
    }
  }

  /** `date` of the option copies the first value given: the date string is not checked. */
  lemma CreateOptionKeepsDateText(today: string)
    ensures var r := CreateOption(map["tag" := ["app"], "date" := ["yesterday"]], today);
      r.Ok? && r.value.date == "yesterday"
  {
  }

  /** db_clickhouse.go's copy of `toYYYYMMDD`: the UTC date of the millisecond timestamp. Its text is
      core/utils.go's, so it is defined by that copy. */
  function ToYYYYMMDD(ts: Int64): (r: string)
    ensures |r| == 8 && forall i :: 0 <= i < 8 ==> Strconv.IsDigit(r[i])
    ensures Civil.ValidDate(Civil.ParseYYYYMMDD(r))
    ensures Civil.DayNumber(Civil.ParseYYYYMMDD(r)) == CoreUtils.EpochDay + CoreUtils.InstantDay(ts)
  {
    CoreUtils.ToYYYYMMDD(ts)
  }

  lemma ToYYYYMMDDAgreesWithCore(ts: Int64)
    ensures ToYYYYMMDD(ts) == CoreUtils.ToYYYYMMDD(ts)
  {
  }

  // ---------------------------------------------------------------------
  // Query building

  /** An argument passed to the query: a string, a list of strings, or an integer. */
  datatype Param = Text(s: string) | Texts(ss: seq<string>) | Number(n: int)

  /** A piece of query text: literal SQL, or one `?` placeholder. */
  datatype Piece = Sql(text: string) | Hole

  /** The query text: literal SQL and the placeholders, in order. */
  datatype Query = Query(sql: seq<Piece>, params: seq<Param>)

  function Render(ps: seq<Piece>): string {
    if ps == [] then "" else (match ps[0] case Sql(t) => t case Hole => "?") + Render(ps[1..])
  }

  /** The number of placeholders. */
  function Holes(ps: seq<Piece>): nat {
    multiset(ps)[Hole]
  }

  lemma {:induction false} RenderAppend(a: seq<Piece>, b: seq<Piece>)
    ensures Render(a + b) == Render(a) + Render(b)
    decreases |a|
  {
    if a != [] {
      assert (a + b)[1..] == a[1..] + b;
      RenderAppend(a[1..], b);
    } else {
      assert a + b == b;
    }
  }

  /** Terms joined by " AND ", as `strings.Join` does. */
  function JoinTerms(terms: seq<seq<Piece>>): (ps: seq<Piece>)
    decreases |terms|
  {
    if |terms| == 0 then []
    else if |terms| == 1 then terms[0]
    else terms[0] + [Sql(" AND ")] + JoinTerms(terms[1..])
  }

  /** `fmt.Sprintf("AND (%s)", strings.Join(terms, " AND "))`, or nothing without terms. */
  function AndGroup(terms: seq<seq<Piece>>): (ps: seq<Piece>)
    ensures terms == [] <==> ps == []
  {
    if terms == [] then [] else [Sql("AND (")] + JoinTerms(terms) + [Sql(")")]
  }

  /** The text of a group is the Go text: the rendered terms joined by " AND " inside "AND (...)". */
  lemma AndGroupText(terms: seq<seq<Piece>>)
    requires terms != []
    ensures Render(AndGroup(terms)) == "AND (" + Join(RenderAll(terms), " AND ") + ")"
  {
    JoinTermsText(terms);
    RenderAppend([Sql("AND (")], JoinTerms(terms));
    RenderAppend([Sql("AND (")] + JoinTerms(terms), [Sql(")")]);
  }

  function RenderAll(terms: seq<seq<Piece>>): (r: seq<string>)
    ensures |r| == |terms|
    ensures forall i :: 0 <= i < |terms| ==> r[i] == Render(terms[i])
  {
    seq(|terms|, i requires 0 <= i < |terms| => Render(terms[i]))
  }

  lemma {:induction false} JoinTermsText(terms: seq<seq<Piece>>)
    ensures Render(JoinTerms(terms)) == Join(RenderAll(terms), " AND ")
    decreases |terms|
  {
    if |terms| > 1 {
      JoinTermsText(terms[1..]);
      RenderAppend(terms[0], [Sql(" AND ")]);
      RenderAppend(terms[0] + [Sql(" AND ")], JoinTerms(terms[1..]));
      assert RenderAll(terms)[1..] == RenderAll(terms[1..]);
    }
  }

  /** A group of terms with one placeholder each has one per term. */
  lemma AndGroupHoles(terms: seq<seq<Piece>>)
    requires forall i :: 0 <= i < |terms| ==> Holes(terms[i]) == 1
    ensures Holes(AndGroup(terms)) == |terms|
  {
    if terms != [] {
      JoinTermsHoles(terms);
    }
  }

  lemma {:induction false} JoinTermsHoles(terms: seq<seq<Piece>>)
    requires forall i :: 0 <= i < |terms| ==> Holes(terms[i]) == 1
    ensures Holes(JoinTerms(terms)) == |terms|
    decreases |terms|
  {
    if |terms| > 1 {
      JoinTermsHoles(terms[1..]);
    }
  }

  /** "positionCaseInsensitive(message, ?) > 0" */
  const GrepTerm: seq<Piece> := [Sql("positionCaseInsensitive(message, "), Hole, Sql(") > 0")]

  /** One case-insensitive substring test per grep, all required. */
  function GrepCondition(greps: seq<string>): (ps: seq<Piece>)
    ensures greps == [] <==> ps == []
    ensures Holes(ps) == |greps|
  {
    var terms := seq(|greps|, _ => GrepTerm);
    AndGroupHoles(terms);
    AndGroup(terms)
  }

  /** The container terms, one per filter given, name first. */
  function ContainerTerms(opt: RetrieveLogOption): (terms: seq<seq<Piece>>)
    ensures forall i :: 0 <= i < |terms| ==> Holes(terms[i]) == 1
  {
    (if opt.containerName.Some? then [[Sql("container_name = "), Hole]] else [])
      + (if opt.containerId.Some? then [[Sql("container_id = "), Hole]] else [])
  }

  function ContainerCondition(opt: RetrieveLogOption): (ps: seq<Piece>)
    ensures ps == [] <==> opt.containerName.None? && opt.containerId.None?
    ensures Holes(ps) == |ContainerParams(opt)|
  {
    var terms := ContainerTerms(opt);
    AndGroupHoles(terms);
    AndGroup(terms)
  }

  /** The container arguments, in the order of their terms. */
  function ContainerParams(opt: RetrieveLogOption): (ps: seq<Param>)
    ensures |ps| == |ContainerTerms(opt)|
  {
    (match opt.containerName case Some(n) => [Text(n)] case None => [])
      + (match opt.containerId case Some(i) => [Text(i)] case None => [])
  }

  /**
   * The id condition: reading from the head goes forward from the id;
   * reading from the tail goes backward from it, except that id 0 (no
   * cursor yet) also reads forward.
   */
  function IdCondition(opt: RetrieveLogOption): (ps: seq<Piece>)
    ensures ps == [Sql("id > "), Hole] <==> opt.head || opt.id == 0
    ensures ps == [Sql("id < "), Hole] <==> !opt.head && opt.id != 0
    ensures Holes(ps) == 1
  {
    if opt.head then [Sql("id > "), Hole] else if opt.id == 0 then [Sql("id > "), Hole] else [Sql("id < "), Hole]
  }

  /** Rows come oldest first from the head and newest first from the tail. */
  function Ordered(opt: RetrieveLogOption): (o: string)
    ensures o == "ASC" <==> opt.head
    ensures o == "DESC" <==> !opt.head
  {
    if opt.head then "ASC" else "DESC"
  }

  const SelectHead := "SELECT id, container_id, container_name, timestamp, message FROM hermes.logs\n\t\tWHERE (application = "

  /**
   * The query text `selectLogWithOpt` formats, piece by piece. Its
   * placeholders are application, date, one per grep, one per container
   * filter, id and limit.
   */
  function SelectSql(opt: RetrieveLogOption): (ps: seq<Piece>)
    ensures Holes(ps) == 4 + |opt.greps| + |ContainerParams(opt)|
  {
    SqlOf(GrepCondition(opt.greps), ContainerCondition(opt), IdCondition(opt), Ordered(opt))
  }

  /** The query template with its four conditions filled in. */
  function SqlOf(greps: seq<Piece>, containers: seq<Piece>, id: seq<Piece>, ordered: string): (ps: seq<Piece>)
    ensures Holes(ps) == 3 + Holes(greps) + Holes(containers) + Holes(id)
  {
    [Sql(SelectHead), Hole, Sql(" AND date = "), Hole, Sql(") ")]
      + greps + [Sql(" ")] + containers
      + [Sql("\n\t\tAND ")] + id
      + [Sql("\n\t\tORDER BY timestamp "), Sql(ordered), Sql("\n\t\tLIMIT "), Hole]
  }

  /**
   * The argument list of `selectLogWithOpt`: application and date, the
   * grep arguments, the container values, the id and the limit.
   */
  function Params(opt: RetrieveLogOption, grepParams: seq<Param>): (ps: seq<Param>)
    ensures |ps| == 4 + |grepParams| + |ContainerParams(opt)|
    ensures ps[0] == Text(opt.application) && ps[1] == Text(opt.date)
    ensures forall i :: 0 <= i < |grepParams| ==> ps[2 + i] == grepParams[i]
    ensures ps[|ps| - 2] == Number(opt.id) && ps[|ps| - 1] == Number(opt.limit)
  {
    [Text(opt.application), Text(opt.date)] + grepParams + ContainerParams(opt) + [Number(opt.id), Number(opt.limit)]
  }

  /**
   * `selectLogWithOpt` as written: the grep values go in as ONE list
   * argument, so the text has `|greps| - 1` more placeholders than there
   * are arguments, and the two agree exactly when there is at most one grep.
   */
  function SelectLogQuery(opt: RetrieveLogOption): (q: Query)
    ensures |q.params| == 4 + (if opt.greps == [] then 0 else 1) + |ContainerParams(opt)|
    ensures opt.greps != [] ==> Holes(q.sql) == |q.params| + |opt.greps| - 1 && q.params[2] == Texts(opt.greps)
    ensures Holes(q.sql) == |q.params| <==> |opt.greps| <= 1
    ensures q.params[0] == Text(opt.application) && q.params[1] == Text(opt.date)
    ensures q.params[|q.params| - 2] == Number(opt.id) && q.params[|q.params| - 1] == Number(opt.limit)
  {
    var grepParams := if opt.greps == [] then [] else [Texts(opt.greps)];
    var sql := SelectSql(opt);
    var params := Params(opt, grepParams);
    assert opt.greps != [] ==> params[2 + 0] == grepParams[0];
    Query(sql, params)
  }

  /** With two greps the text has six placeholders but only five arguments are passed. */
  lemma SelectLogQueryMiscounts(opt: RetrieveLogOption)
    requires |opt.greps| == 2 && opt.containerName.None? && opt.containerId.None?
    ensures var q := SelectLogQuery(opt);
      Holes(q.sql) == 6 && |q.params| == 5
  {
    var q := SelectLogQuery(opt);
    assert |ContainerParams(opt)| == 0;
    assert |q.params| == 5;
  }

  /** One text argument per grep, in order. */
  function GrepParams(greps: seq<string>): (ps: seq<Param>)
    ensures |ps| == |greps|
    ensures forall i :: 0 <= i < |greps| ==> ps[i] == Text(greps[i])
  {
    if greps == [] then [] else [Text(greps[0])] + GrepParams(greps[1..])
  }

  /**
   * The evidently intended argument list: one argument per grep, in the
   * order of the grep terms. The text is the one written; every
   * placeholder has exactly one argument, and grep `i` fills the `i`-th
   * grep term.
   */
  function SelectLogQueryFixed(opt: RetrieveLogOption): (q: Query)
    ensures q.sql == SelectLogQuery(opt).sql
    ensures |q.params| == 4 + |opt.greps| + |ContainerParams(opt)|
    ensures Holes(q.sql) == |q.params|
    ensures forall i :: 0 <= i < |opt.greps| ==> q.params[2 + i] == Text(opt.greps[i])
    ensures q.params[0] == Text(opt.application) && q.params[1] == Text(opt.date)
    ensures q.params[|q.params| - 2] == Number(opt.id) && q.params[|q.params| - 1] == Number(opt.limit)
  {
    Query(SelectSql(opt), Params(opt, GrepParams(opt.greps)))
  }

  /** The grep condition's text is the Go text: "AND (" and the terms joined by " AND ", then ")". */
  lemma GrepConditionText(greps: seq<string>)
    requires greps != []
    ensures Render(GrepCondition(greps))
      == "AND (" + Join(seq(|greps|, _ => "positionCaseInsensitive(message, ?) > 0"), " AND ") + ")"
  {
    var terms := seq(|greps|, _ => GrepTerm);
    AndGroupText(terms);
    assert Render(GrepTerm) == "positionCaseInsensitive(message, ?) > 0";
    assert RenderAll(terms) == seq(|greps|, _ => "positionCaseInsensitive(message, ?) > 0");
  }
}
