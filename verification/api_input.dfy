/**
 * api_input.go `collectLog`, the newest ingestion handler: acknowledge at
 * once, then read the body line by line, keep the records that decode and
 * carry a message, stamp each with the request's tag, and hand the whole
 * list to every registered storage driver.
 *
 * JSON decoding is the parameter `decode` (a partial function from a line
 * to a payload); the registered drivers are the names in `drivers`, in the
 * order the `range` over the driver map visits them, and `collect` is the
 * error each driver's `Collect` returns for a list.
 */
module ApiInput {
  import opened Base
  import opened GoStrings
  import opened Message
  import CoreUtils
  import Url
  import opened Ingest

  /** What the handler does, in order. */
  datatype Effect =
    | RespondOk                                                               // status 200, body "OK\n"
    | CallDriver(name: string, inputs: seq<InputLogPayload>, ending: Ending<Option<string>>) // error only logged

  /** The record one line yields: the line is not empty, decodes, and its message is not blank; the tag is replaced. */
  function AcceptLine(decode: string -> Option<InputLogPayload>, tag: string, line: string): (r: Option<InputLogPayload>)
    ensures r.Some? <==> line != "" && decode(line).Some? && !AllSpace(decode(line).value.message)
    ensures r.Some? ==> r.value == decode(line).value.(tag := tag)
  {
    if line == "" then None
    else
      match decode(line)
      case None => None
      case Some(p) => if CoreUtils.StrIsEmpty(p.message) then None else Some(p.(tag := tag))
  }

  function Accept(decode: string -> Option<InputLogPayload>, tag: string): string -> Option<InputLogPayload> {
    line => AcceptLine(decode, tag, line)
  }

  /** Every record carries the request's tag and a message that is not blank. */
  predicate Stamped(r: seq<InputLogPayload>, tag: string) {
    forall k :: 0 <= k < |r| ==> r[k].tag == tag && !AllSpace(r[k].message)
  }

  /** The records of a list of lines. */
  function Records(decode: string -> Option<InputLogPayload>, tag: string, lines: seq<string>): (r: seq<InputLogPayload>)
    ensures |r| <= |lines|
    ensures Stamped(r, tag)
  {
    RecordsStamped(decode, tag, lines);
    FilterMap(lines, Accept(decode, tag))
  }

  lemma {:induction false} RecordsStamped(decode: string -> Option<InputLogPayload>, tag: string, lines: seq<string>)
    ensures Stamped(FilterMap(lines, Accept(decode, tag)), tag)
  {
    KeptRecords(lines, Accept(decode, tag));
  }

  /**
   * `collectLog`: the acknowledgment comes first whatever follows; without
   * a `tag` parameter nothing else happens; otherwise the drivers are
   * called in range order with the same records. A driver's error is only
   * logged and the next driver is called; a driver that panics unwinds the
   * handler, and one that blocks never lets it go on, so no later driver
   * is called.
   */
  function CollectLog(query: Url.Values, body: string, decode: string -> Option<InputLogPayload>,
                      drivers: seq<string>, collect: (string, seq<InputLogPayload>) -> Ending<Option<string>>)
    : (effects: seq<Effect>)
    ensures |effects| >= 1 && effects[0] == RespondOk
    ensures Url.Get(query, "tag") == [] ==> effects == [RespondOk]
    ensures Url.Get(query, "tag") != [] ==>
      effects[1..] == Calls(drivers, Records(decode, TrimSpace(Url.Get(query, "tag")[0]), ScanLines(body)), collect)
  {
    var tagValues := Url.Get(query, "tag");
    if tagValues == [] then [RespondOk]
    else [RespondOk] + Calls(drivers, Records(decode, TrimSpace(tagValues[0]), ScanLines(body)), collect)
  }

  /**
   * The driver calls, in range order, each with the same records and with
   * how that driver's `Collect` ended; the loop goes on past a returned
   * error and stops after a call that panics or blocks.
   */
  function Calls(drivers: seq<string>, inputs: seq<InputLogPayload>, collect: (string, seq<InputLogPayload>) -> Ending<Option<string>>)
    : (calls: seq<Effect>)
    ensures |calls| <= |drivers|
    ensures forall i :: 0 <= i < |calls| ==> calls[i] == CallDriver(drivers[i], inputs, collect(drivers[i], inputs))
    ensures forall i :: 0 <= i < |calls| - 1 ==> calls[i].ending.Returns?
    ensures |calls| < |drivers| ==> calls != [] && !calls[|calls| - 1].ending.Returns?
    decreases |drivers|
  {
    if drivers == [] then []
    else
      var ending := collect(drivers[0], inputs);
      [CallDriver(drivers[0], inputs, ending)] + (if ending.Returns? then Calls(drivers[1..], inputs, collect) else [])
  }

  /** Driver `j` is called exactly when every driver before it returned. */
  lemma CalledIffEarlierReturned(drivers: seq<string>, inputs: seq<InputLogPayload>,
                                 collect: (string, seq<InputLogPayload>) -> Ending<Option<string>>, j: nat)
    requires j < |drivers|
    ensures j < |Calls(drivers, inputs, collect)| <==> forall i :: 0 <= i < j ==> collect(drivers[i], inputs).Returns?
  {
    var calls := Calls(drivers, inputs, collect);
    if j >= |calls| {
      assert !collect(drivers[|calls| - 1], inputs).Returns?;
    } else {
      forall i | 0 <= i < j ensures collect(drivers[i], inputs).Returns? {
        assert calls[i].ending.Returns?;
      }
    }
  }

  /** When every driver returns, each is called once, in order. */
  lemma AllCalledWhenAllReturn(drivers: seq<string>, inputs: seq<InputLogPayload>,
                               collect: (string, seq<InputLogPayload>) -> Ending<Option<string>>)
    requires forall i :: 0 <= i < |drivers| ==> collect(drivers[i], inputs).Returns?
    ensures |Calls(drivers, inputs, collect)| == |drivers|
  {
    if drivers != [] {
      CalledIffEarlierReturned(drivers, inputs, collect, |drivers| - 1);
    }
  }

  /**
   * The records are exactly the accepted lines, in line order: record `k`
   * is the payload of line `idx[k]` with the tag replaced, and every line
   * that is not empty, decodes and has a non-blank message is among them.
   */
  lemma RecordsExactly(decode: string -> Option<InputLogPayload>, tag: string, lines: seq<string>)
    ensures var r := Records(decode, tag, lines);
      var idx := KeptIndices(lines, Accept(decode, tag));
      && |idx| == |r| && Increasing(idx)
      && (forall k :: 0 <= k < |r| ==> idx[k] < |lines| && decode(lines[idx[k]]).Some? && r[k] == decode(lines[idx[k]]).value.(tag := tag))
      && (forall i :: 0 <= i < |lines| && lines[i] != "" && decode(lines[i]).Some? && !AllSpace(decode(lines[i]).value.message)
            ==> i in idx)
  {
    FilterMapExactly(lines, Accept(decode, tag));
  }

  /** A skipped line does not abort the rest: the records of two runs of lines are the records of each, concatenated. */
  lemma RecordsAppend(decode: string -> Option<InputLogPayload>, tag: string, a: seq<string>, b: seq<string>)
    ensures Records(decode, tag, a + b) == Records(decode, tag, a) + Records(decode, tag, b)
  {
    FilterMapAppend(a, b, Accept(decode, tag));
  }

  /** The positions at which `effects` calls the driver `name`. */
  function CallsOf(effects: seq<Effect>, name: string): set<int> {
    set i | 0 <= i < |effects| && effects[i].CallDriver? && effects[i].name == name
  }

  /** Among distinct drivers, driver `j` is called at position `1 + j` if the loop reaches it, and nowhere else. */
  lemma CallsOnce(drivers: seq<string>, inputs: seq<InputLogPayload>, collect: (string, seq<InputLogPayload>) -> Ending<Option<string>>,
                  j: nat)
    requires forall i, k :: 0 <= i < k < |drivers| ==> drivers[i] != drivers[k]
    requires j < |drivers|
    ensures CallsOf([RespondOk] + Calls(drivers, inputs, collect), drivers[j])
         == if j < |Calls(drivers, inputs, collect)| then {1 + j} else {}
  {
    var calls := Calls(drivers, inputs, collect);
    var effects := [RespondOk] + calls;
    forall i | i in CallsOf(effects, drivers[j]) ensures i == 1 + j {
      assert effects[i] == calls[i - 1];
    }
    if j < |calls| {
      assert effects[1 + j] == calls[j];
    }
  }

  /**
   * No driver is called twice, and a driver is called exactly when every
   * driver before it in range order returned.
   */
  lemma EachDriverOnce(query: Url.Values, body: string, decode: string -> Option<InputLogPayload>,
                       drivers: seq<string>, collect: (string, seq<InputLogPayload>) -> Ending<Option<string>>)
    requires forall i, j :: 0 <= i < j < |drivers| ==> drivers[i] != drivers[j]
    requires Url.Get(query, "tag") != []
    ensures var effects := CollectLog(query, body, decode, drivers, collect);
      var inputs := Records(decode, TrimSpace(Url.Get(query, "tag")[0]), ScanLines(body));
      forall j :: 0 <= j < |drivers| ==>
        && |CallsOf(effects, drivers[j])| <= 1
        && (|CallsOf(effects, drivers[j])| == 1 <==> forall i :: 0 <= i < j ==> collect(drivers[i], inputs).Returns?)
  {
    var inputs := Records(decode, TrimSpace(Url.Get(query, "tag")[0]), ScanLines(body));
    var effects := CollectLog(query, body, decode, drivers, collect);
    assert effects == [RespondOk] + Calls(drivers, inputs, collect);
    forall j | 0 <= j < |drivers|
      ensures |CallsOf(effects, drivers[j])| <= 1
      ensures |CallsOf(effects, drivers[j])| == 1 <==> forall i :: 0 <= i < j ==> collect(drivers[i], inputs).Returns?
    {
      CallsOnce(drivers, inputs, collect, j);
      CalledIffEarlierReturned(drivers, inputs, collect, j);
    }
  }
}
