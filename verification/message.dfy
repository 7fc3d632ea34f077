/**
 * core/message.go and core/driver.go: the payload a producer sends, the
 * stored log row, and the streamed output message. `InputLogContext` is a
 * Go map; ranging over it visits every key once in an order the runtime
 * chooses afresh for each `range`, so each range takes that order as an
 * explicit argument.
 */
module Message {
  import opened Base

  /** A Go `map[string]string` that may be nil. */
  type Context = Option<map<string, string>>

  datatype InputLogPayload = InputLogPayload(
    tag: string,
    timestamp: Int64,
    containerName: string,
    level: string,
    message: string,
    context: Context)

  /** `LogEntry`: one stored row; context is two parallel arrays. */
  datatype LogEntry = LogEntry(
    id: Int64,
    tag: string,
    timestamp: Int64,
    date: string,
    containerName: string,
    level: Int32,
    message: string,
    contextKeys: seq<string>,
    contextValues: seq<string>)

  /** `OutputLogPayload`: a row as streamed back to a consumer. */
  datatype OutputLogPayload = OutputLogPayload(id: Int64, idStr: string, date: string, payload: InputLogPayload)

  /** `OutputLogMessage`: status code, status text and a batch of rows. */
  datatype OutputLogMessage = OutputLogMessage(code: int, message: string, data: seq<OutputLogPayload>)

  /** `order` is an order a `range` over `m` may visit its keys in: every key exactly once. */
  predicate IsRangeOrder(order: seq<string>, m: map<string, string>) {
    && |order| == |m|
    && (forall i :: 0 <= i < |order| ==> order[i] in m)
    && (forall i, j :: 0 <= i < j < |order| ==> order[i] != order[j])
  }

  predicate RangeOrderFor(ctx: Context, order: seq<string>) {
    ctx.Some? ==> IsRangeOrder(order, ctx.value)
  }

  /** `InputLogContext.Keys`: empty for a nil map, otherwise every key once. */
  function Keys(ctx: Context, order: seq<string>): (r: seq<string>)
    requires RangeOrderFor(ctx, order)
    ensures ctx.None? ==> r == []
    ensures ctx.Some? ==> |r| == |ctx.value|
    ensures ctx.Some? ==> forall k :: k in ctx.value <==> k in r
    ensures forall i, j :: 0 <= i < j < |r| ==> r[i] != r[j]
  {
    match ctx
    case None => []
    case Some(m) =>
      RangeOrderCoversKeys(order, m);
      order
  }

  /** `InputLogContext.Values`: empty for a nil map, otherwise one value per key. */
  function Values(ctx: Context, order: seq<string>): (r: seq<string>)
    requires RangeOrderFor(ctx, order)
    ensures ctx.None? ==> r == []
    ensures ctx.Some? ==> |r| == |ctx.value|
    ensures ctx.Some? ==> forall v :: multiset(r)[v] == |KeysWithValue(ctx.value, v)|
  {
    match ctx
    case None => []
    case Some(m) =>
      var r := ValuesAlong(order, m);
      forall v
        ensures multiset(r)[v] == |KeysWithValue(m, v)|
      {
        RangeOrderCoversKeys(order, m);
        ValueCount(order, m, v);
        assert KeysAlong(order, m, v) == KeysWithValue(m, v);
      }
      r
  }

  /** The values of `m` read along `order`. */
  function ValuesAlong(order: seq<string>, m: map<string, string>): (r: seq<string>)
    requires forall i :: 0 <= i < |order| ==> order[i] in m
    ensures |r| == |order|
    ensures forall i :: 0 <= i < |order| ==> r[i] == m[order[i]]
  {
    if order == [] then [] else [m[order[0]]] + ValuesAlong(order[1..], m)
  }

  /** The keys of `m` bound to `v`: how often `v` occurs among the map's values. */
  function KeysWithValue(m: map<string, string>, v: string): set<string> {
    set k | k in m && m[k] == v
  }

  lemma RangeOrderCoversKeys(order: seq<string>, m: map<string, string>)
    requires IsRangeOrder(order, m)
    ensures forall k :: k in m <==> k in order
  {
    var s := set i | 0 <= i < |order| :: order[i];
    assert s <= m.Keys;
    DistinctCard(order);
    SubsetSameCard(s, m.Keys);
    forall k | k in m ensures k in order {
      assert k in s;
    }
  }

  lemma {:induction false} SubsetSameCard<T>(a: set<T>, b: set<T>)
    requires a <= b && |a| == |b|
    ensures a == b
    decreases |a|
  {
    if a == {} {
      assert |b| == 0;
    } else {
      var x :| x in a;
      SubsetSameCard(a - {x}, b - {x});
      assert a == (a - {x}) + {x};
      assert b == (b - {x}) + {x};
    }
  }

  /** A sequence without repetitions has as many distinct elements as positions. */
  lemma {:induction false} DistinctCard(order: seq<string>)
    requires forall i, j :: 0 <= i < j < |order| ==> order[i] != order[j]
    ensures |set i | 0 <= i < |order| :: order[i]| == |order|
    decreases |order|
  {
    if |order| > 0 {
      var rest := order[1..];
      DistinctCard(rest);
      var s := set i | 0 <= i < |order| :: order[i];
      var t := set i | 0 <= i < |rest| :: rest[i];
      assert s == {order[0]} + t;
      assert order[0] !in t;
    }
  }

  /** The keys listed in `order` that `m` binds to `v`. */
  function KeysAlong(order: seq<string>, m: map<string, string>, v: string): set<string> {
    set k | k in order && k in m && m[k] == v
  }

  lemma {:induction false} ValueCount(order: seq<string>, m: map<string, string>, v: string)
    requires forall i :: 0 <= i < |order| ==> order[i] in m
    requires forall i, j :: 0 <= i < j < |order| ==> order[i] != order[j]
    ensures multiset(ValuesAlong(order, m))[v] == |KeysAlong(order, m, v)|
    decreases |order|
  {
    if |order| > 0 {
      var rest := order[1..];
      ValueCount(rest, m, v);
      assert multiset(ValuesAlong(order, m)) == multiset{m[order[0]]} + multiset(ValuesAlong(rest, m));
      KeysAlongStep(order, m, v);
    } else {
      assert KeysAlong(order, m, v) == {};
    }
  }

  lemma KeysAlongStep(order: seq<string>, m: map<string, string>, v: string)
    requires |order| > 0 && order[0] in m && order[0] !in order[1..]
    ensures m[order[0]] == v ==> KeysAlong(order, m, v) == {order[0]} + KeysAlong(order[1..], m, v)
    ensures m[order[0]] == v ==> order[0] !in KeysAlong(order[1..], m, v)
    ensures m[order[0]] != v ==> KeysAlong(order, m, v) == KeysAlong(order[1..], m, v)
  {
    assert order == [order[0]] + order[1..];
  }

  /** Two separate ranges over one map may visit it in different orders, so
      position `i` of `Keys` need not name the key of position `i` of `Values`. */
  lemma KeysValuesMayMispair()
    ensures var m := map["a" := "1", "b" := "2"];
      && IsRangeOrder(["a", "b"], m) && IsRangeOrder(["b", "a"], m)
      && Keys(Some(m), ["a", "b"])[0] == "a"
      && Values(Some(m), ["b", "a"])[0] == "2" != m["a"]
  {
    var m := map["a" := "1", "b" := "2"];
    assert m.Keys == {"a", "b"};
    assert |m| == 2;
  }
}
