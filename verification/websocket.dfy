/**
 * websocket.go: the read loop of a WebSocket connection and the relay that
 * turns a query's stream of messages into frames for the client.
 *
 * The frames the client sends are a sequence; when it runs out, the next
 * `ReadMessage` fails and the loop ends. JSON decoding and encoding are
 * the partial functions `decodeEnvelope`, `decodeQuery` and `encode`;
 * `FetchingLog` is the parameter `fetch`, which gives its error and the
 * messages it pushed. The relay goroutine and `FetchingLog` meet on an
 * unbuffered channel, so every frame the relay sends for one query is
 * queued before the read loop looks at the next frame; the model
 * therefore runs the relay to completion inside the step that fetched.
 */
module WebSocket {
  import opened Base
  import opened GoStrings
  import opened Message
  import CoreUtils
  import Connection

  /** The message type of a text frame (`websocket.TextMessage`). */
  const TextMessage := 1

  const TopicPing := "ping"
  const TopicQuery := "query"
  const TopicLogs := "logs"

  /** One frame read from the client: its type and its bytes. */
  datatype Frame = Frame(msgType: int, raw: string)

  /** `WSData`: the envelope of every frame's payload. */
  datatype WSData = WSData(topic: string, data: string)

  /** `LogQuery` with its embedded `TimeOption`. */
  datatype LogQuery = LogQuery(tag: string, logLevel: Int32, start: Int64, end: Int64)

  /** What is queued on `send` for the writer: an echoed ping frame, or a relayed batch. */
  datatype Outgoing = Pong(raw: string) | Forward(envelope: WSData)

  /**
   * What a `FetchingLog` call comes to: how it ended (its error, a panic,
   * or blocked for good), and the messages it pushed on the response
   * channel before that. The channel has no buffer, so each pushed message
   * has reached the relay before the call goes on.
   */
  datatype FetchResult = FetchResult(ending: Ending<Option<string>>, pushed: seq<OutputLogMessage>)

  /** Why the read loop stopped. */
  datatype ReadEnd =
    | ConnectionEnded       // no more frames: ReadMessage failed
    | BadEnvelope           // a text frame that is not a WSData
    | FetchFailed(err: string) // FetchingLog returned an error
    | FetchPanicked            // FetchingLog panicked: the handler unwinds, closing the socket
    | FetchBlocked             // FetchingLog never returns: no later frame is read

  /** Everything the read loop did: the queued frames, the queries it fetched, and why it stopped. */
  datatype ReadRun = ReadRun(sent: seq<Outgoing>, fetched: seq<Connection.QueryLogOption>, end: ReadEnd)

  /**
   * The query a "query" frame asks for: none when its data does not
   * decode or its tag is blank; otherwise tag, level and time range from
   * the query, no last id and the largest batch size.
   */
  function AcceptQuery(decodeQuery: string -> Option<LogQuery>, data: string): (r: Option<Connection.QueryLogOption>)
    ensures r.None? <==> decodeQuery(data).None? || AllSpace(decodeQuery(data).value.tag)
    ensures r.Some? ==>
      var q := decodeQuery(data).value;
      r.value == Connection.QueryLogOption(q.tag, q.logLevel, q.start, q.end, 0, MaxInt32)
  {
    match decodeQuery(data)
    case None => None
    case Some(q) =>
      if CoreUtils.StrIsEmpty(q.tag) then None
      else Some(Connection.QueryLogOption(q.tag, q.logLevel, q.start, q.end, 0, MaxInt32))
  }

  /**
   * The relay goroutine: each code-200 message is encoded and queued as a
   * "logs" frame, one that fails to encode is skipped, and the first
   * message with another code ends the relay without being sent.
   */
  function Relay(msgs: seq<OutputLogMessage>, encode: OutputLogMessage -> Option<string>): (out: seq<Outgoing>)
    ensures |out| <= |msgs|
    ensures forall k :: 0 <= k < |out| ==> out[k].Forward? && out[k].envelope.topic == TopicLogs
  {
    if msgs == [] || msgs[0].code != Connection.StatusOK then []
    else
      (match encode(msgs[0]) case Some(j) => [Forward(WSData(TopicLogs, j))] case None => [])
      + Relay(msgs[1..], encode)
  }

  predicate AllOk(msgs: seq<OutputLogMessage>) {
    forall k :: 0 <= k < |msgs| ==> msgs[k].code == Connection.StatusOK
  }

  /** What the relay sends for messages that all have code 200 and all encode: one frame each, in order. */
  lemma {:induction false} RelayForwardsOk(msgs: seq<OutputLogMessage>, encode: OutputLogMessage -> Option<string>)
    requires AllOk(msgs)
    requires forall k :: 0 <= k < |msgs| ==> encode(msgs[k]).Some?
    ensures |Relay(msgs, encode)| == |msgs|
    ensures forall k :: 0 <= k < |msgs| ==> Relay(msgs, encode)[k] == Forward(WSData(TopicLogs, encode(msgs[k]).value))
  {
    if msgs != [] {
      assert AllOk(msgs[1..]) by {
        forall k | 0 <= k < |msgs[1..]| ensures msgs[1..][k] == msgs[k + 1] { }
      }
      RelayForwardsOk(msgs[1..], encode);
      var rest := Relay(msgs[1..], encode);
      assert Relay(msgs, encode) == [Forward(WSData(TopicLogs, encode(msgs[0]).value))] + rest;
      forall k | 1 <= k < |msgs|
        ensures Relay(msgs, encode)[k] == Forward(WSData(TopicLogs, encode(msgs[k]).value))
      {
        assert msgs[1..][k - 1] == msgs[k];
      }
    }
  }

  /** Nothing after the first non-200 message reaches the client. */
  lemma {:induction false} RelayStopsAtFirstFailure(ok: seq<OutputLogMessage>, stop: OutputLogMessage, rest: seq<OutputLogMessage>,
                                                    encode: OutputLogMessage -> Option<string>)
    requires AllOk(ok) && stop.code != Connection.StatusOK
    ensures Relay(ok + [stop] + rest, encode) == Relay(ok, encode)
    decreases |ok|
  {
    if ok == [] {
      assert (ok + [stop] + rest)[0] == stop;
    } else {
      assert AllOk(ok[1..]) by {
        forall k | 0 <= k < |ok[1..]| ensures ok[1..][k] == ok[k + 1] { }
      }
      RelayStopsAtFirstFailure(ok[1..], stop, rest, encode);
      assert (ok + [stop] + rest)[1..] == ok[1..] + [stop] + rest;
    }
  }

  /**
   * On the messages `GetLog` pushes, the relay stops exactly at the last
   * one: every earlier message is a batch, and the last is the 204 or the
   * 500 that ends the stream. When every batch encodes, each is relayed.
   */
  lemma RelayOfGetLog(opt: Connection.QueryLogOption, levelStr: Int32 -> string, answer: Connection.QueryAnswer,
                      encode: OutputLogMessage -> Option<string>)
    requires Connection.GetLog(opt, levelStr, answer).exit.Returned?
    requires forall m: OutputLogMessage :: encode(m).Some?
    ensures var pushed := Connection.GetLog(opt, levelStr, answer).pushed;
      && |Relay(pushed, encode)| == |pushed| - 1
      && forall k :: 0 <= k < |pushed| - 1 ==> Relay(pushed, encode)[k] == Forward(WSData(TopicLogs, encode(pushed[k]).value))
  {
    var pushed := Connection.GetLog(opt, levelStr, answer).pushed;
    var ok := pushed[..|pushed| - 1];
    assert AllOk(ok) by {
      forall k | 0 <= k < |ok| ensures ok[k].code == Connection.StatusOK {
        assert ok[k] == pushed[k];
      }
    }
    assert pushed == ok + [pushed[|pushed| - 1]] + [];
    RelayStopsAtFirstFailure(ok, pushed[|pushed| - 1], [], encode);
    RelayForwardsOk(ok, encode);
  }

  /** What handling one frame does: queue frames and fetch queries, then go on to the next frame or stop. */
  datatype Action = Action(sent: seq<Outgoing>, fetched: seq<Connection.QueryLogOption>, stop: Option<ReadEnd>)

  /**
   * One pass of the `read` loop. A frame that is not text is skipped; one
   * whose envelope does not decode stops the loop; a "ping" is echoed byte
   * for byte; a "query" that is accepted is fetched and its messages
   * relayed, and a fetch that fails, panics or blocks stops the loop;
   * other topics are ignored.
   */
  function Step(f: Frame, decodeEnvelope: string -> Option<WSData>, decodeQuery: string -> Option<LogQuery>,
                fetch: Connection.QueryLogOption -> FetchResult, encode: OutputLogMessage -> Option<string>): (a: Action)
    ensures f.msgType != TextMessage ==> a == Action([], [], None)
    ensures f.msgType == TextMessage && decodeEnvelope(f.raw).None? ==> a == Action([], [], Some(BadEnvelope))
    ensures a.stop.Some? ==> a.stop.value != ConnectionEnded
    ensures |a.fetched| <= 1
  {
    if f.msgType != TextMessage then Action([], [], None)
    else
      match decodeEnvelope(f.raw)
      case None => Action([], [], Some(BadEnvelope))
      case Some(env) =>
        if env.topic == TopicPing then Action([Pong(f.raw)], [], None)
        else if env.topic != TopicQuery then Action([], [], None)
        else
          match AcceptQuery(decodeQuery, env.data)
          case None => Action([], [], None)
          case Some(opt) =>
            var res := fetch(opt);
            Action(Relay(res.pushed, encode), [opt], FetchStop(res.ending))
  }

  /** Whether a fetch stops the loop, and why: only a nil error lets it read the next frame. */
  function FetchStop(ending: Ending<Option<string>>): (stop: Option<ReadEnd>)
    ensures stop.None? <==> ending == Returns(None)
    ensures stop.Some? ==> stop.value != ConnectionEnded && stop.value != BadEnvelope
  {
    match ending
    case Returns(None) => None
    case Returns(Some(e)) => Some(FetchFailed(e))
    case Panics => Some(FetchPanicked)
    case Hangs => Some(FetchBlocked)
  }

  /** `read`: frames are handled in order until one stops the loop or the frames run out. */
  function Read(frames: seq<Frame>, decodeEnvelope: string -> Option<WSData>, decodeQuery: string -> Option<LogQuery>,
                fetch: Connection.QueryLogOption -> FetchResult, encode: OutputLogMessage -> Option<string>): (run: ReadRun)
    ensures |run.fetched| <= |frames|
    ensures frames == [] ==> run == ReadRun([], [], ConnectionEnded)
    decreases |frames|
  {
    if frames == [] then ReadRun([], [], ConnectionEnded)
    else
      var a := Step(frames[0], decodeEnvelope, decodeQuery, fetch, encode);
      if a.stop.Some? then ReadRun(a.sent, a.fetched, a.stop.value)
      else
        var next := Read(frames[1..], decodeEnvelope, decodeQuery, fetch, encode);
        ReadRun(a.sent + next.sent, a.fetched + next.fetched, next.end)
  }

  /** Two sessions one after the other: the second only runs if the first ended normally. */
  function Then(first: ReadRun, second: ReadRun): ReadRun {
    if first.end == ConnectionEnded then ReadRun(first.sent + second.sent, first.fetched + second.fetched, second.end)
    else first
  }

  /** A session that ends normally can be followed by more frames: the two sessions' effects concatenate. */
  lemma {:induction false} ReadAppend(a: seq<Frame>, b: seq<Frame>, decodeEnvelope: string -> Option<WSData>,
                                      decodeQuery: string -> Option<LogQuery>, fetch: Connection.QueryLogOption -> FetchResult,
                                      encode: OutputLogMessage -> Option<string>)
    ensures Read(a + b, decodeEnvelope, decodeQuery, fetch, encode)
         == Then(Read(a, decodeEnvelope, decodeQuery, fetch, encode), Read(b, decodeEnvelope, decodeQuery, fetch, encode))
    decreases |a|
  {
    if a == [] {
      assert a + b == b;
    } else {
      var step := Step(a[0], decodeEnvelope, decodeQuery, fetch, encode);
      assert (a + b)[0] == a[0];
      assert (a + b)[1..] == a[1..] + b;
      if step.stop.None? {
        ReadAppend(a[1..], b, decodeEnvelope, decodeQuery, fetch, encode);
        var ra := Read(a[1..], decodeEnvelope, decodeQuery, fetch, encode);
        var rb := Read(b, decodeEnvelope, decodeQuery, fetch, encode);
        if ra.end == ConnectionEnded {
          assert step.sent + (ra.sent + rb.sent) == (step.sent + ra.sent) + rb.sent;
          assert step.fetched + (ra.fetched + rb.fetched) == (step.fetched + ra.fetched) + rb.fetched;
        }
      }
    }
  }

  /** A session of text frames that are all pings, each with a decodable envelope, echoes every frame in order. */
  lemma {:induction false} ReadEchoesPings(frames: seq<Frame>, decodeEnvelope: string -> Option<WSData>,
                                           decodeQuery: string -> Option<LogQuery>, fetch: Connection.QueryLogOption -> FetchResult,
                                           encode: OutputLogMessage -> Option<string>)
    requires forall k :: 0 <= k < |frames| ==>
      frames[k].msgType == TextMessage && decodeEnvelope(frames[k].raw).Some? && decodeEnvelope(frames[k].raw).value.topic == TopicPing
    ensures var run := Read(frames, decodeEnvelope, decodeQuery, fetch, encode);
      && run.end == ConnectionEnded && run.fetched == []
      && |run.sent| == |frames|
      && forall k :: 0 <= k < |frames| ==> run.sent[k] == Pong(frames[k].raw)
    decreases |frames|
  {
    if frames != [] {
      ReadEchoesPings(frames[1..], decodeEnvelope, decodeQuery, fetch, encode);
      var next := Read(frames[1..], decodeEnvelope, decodeQuery, fetch, encode);
      var run := Read(frames, decodeEnvelope, decodeQuery, fetch, encode);
      assert Step(frames[0], decodeEnvelope, decodeQuery, fetch, encode) == Action([Pong(frames[0].raw)], [], None);
      assert run.sent == [Pong(frames[0].raw)] + next.sent;
      forall k | 1 <= k < |frames| ensures run.sent[k] == Pong(frames[k].raw) {
        assert frames[1..][k - 1] == frames[k];
      }
    }
  }

  /**
   * A single query frame: a rejected query fetches nothing and sends
   * nothing; an accepted one is fetched once with the query's fields,
   * and its relayed messages are what the client receives.
   */
  lemma ReadOneQuery(frame: Frame, decodeEnvelope: string -> Option<WSData>, decodeQuery: string -> Option<LogQuery>,
                     fetch: Connection.QueryLogOption -> FetchResult, encode: OutputLogMessage -> Option<string>)
    requires frame.msgType == TextMessage && decodeEnvelope(frame.raw).Some?
    requires decodeEnvelope(frame.raw).value.topic == TopicQuery
    ensures var run := Read([frame], decodeEnvelope, decodeQuery, fetch, encode);
      var accepted := AcceptQuery(decodeQuery, decodeEnvelope(frame.raw).value.data);
      && (accepted.None? ==> run == ReadRun([], [], ConnectionEnded))
      && (accepted.Some? ==> run.fetched == [accepted.value])
      && (accepted.Some? ==> run.sent == Relay(fetch(accepted.value).pushed, encode))
      && (accepted.Some? ==> (run.end == ConnectionEnded <==> fetch(accepted.value).ending == Returns(None)))
      && (accepted.Some? && fetch(accepted.value).ending.Panics? ==> run.end == FetchPanicked)
  {
    assert [frame][1..] == [];
  }

  /**
   * A query whose fetch panics ends the session: the messages pushed
   * before the panic are relayed, and no later frame is handled.
   */
  lemma ReadEndsAtFetchPanic(frame: Frame, rest: seq<Frame>, decodeEnvelope: string -> Option<WSData>,
                             decodeQuery: string -> Option<LogQuery>, fetch: Connection.QueryLogOption -> FetchResult,
                             encode: OutputLogMessage -> Option<string>)
    requires frame.msgType == TextMessage && decodeEnvelope(frame.raw).Some?
    requires decodeEnvelope(frame.raw).value.topic == TopicQuery
    requires AcceptQuery(decodeQuery, decodeEnvelope(frame.raw).value.data).Some?
    requires fetch(AcceptQuery(decodeQuery, decodeEnvelope(frame.raw).value.data).value).ending.Panics?
    ensures var opt := AcceptQuery(decodeQuery, decodeEnvelope(frame.raw).value.data).value;
      Read([frame] + rest, decodeEnvelope, decodeQuery, fetch, encode)
      == ReadRun(Relay(fetch(opt).pushed, encode), [opt], FetchPanicked)
  {
    ReadAppend([frame], rest, decodeEnvelope, decodeQuery, fetch, encode);
    ReadOneQuery(frame, decodeEnvelope, decodeQuery, fetch, encode);
  }
}
