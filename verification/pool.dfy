/**
 * clickhouse/pool.go: the connection pool as a sequential state machine.
 * Every `*Connection` the pool opens is one object, shared by the channel
 * and by every caller holding it: the model keeps those objects in
 * `conns`, each named by the id it was given when opened, and the channel
 * and the callers hold ids. Stamping or closing a connection updates the
 * shared object, so every holder of that id sees it. The buffered channel
 * of idle connections is a FIFO sequence of ids; the clock, dialling and
 * the database are parameters. Every channel operation happens while the
 * caller holds the pool mutex, so a receive finds a connection exactly when
 * the queue is not empty, and a send onto a full queue never completes.
 */
module Pool {
  import opened Base

  /** A `Connection` object: its last-used second and closed flag (its `*sql.DB` is left out). */
  datatype Conn = Conn(ts: int, closed: bool)

  /**
   * `CHPool`; `idle` is the channel's contents, head first, as ids, and
   * `conns[id]` is the connection object with that id.
   */
  datatype CHPool = CHPool(
    idle: seq<nat>,
    conns: seq<Conn>,
    dsn: string,
    maxActive: int,
    maxLifeTime: Int64,
    minActive: int,
    nowActive: int,
    isClosed: bool)

  /** The outcome of `openConnection`'s `sql.Open` and `Ping`: a new connection, or the error it reports. */
  datatype DialOutcome = Dialed | DialFailed(err: string)

  const ErrPoolBusy := "pool too busy"
  const ErrPoolClosed := "pool is closed"

  /** Every queued id names a connection object, as every `*Connection` in the channel does. */
  predicate Wf(p: CHPool) {
    forall k :: 0 <= k < |p.idle| ==> p.idle[k] < |p.conns|
  }

  /** `Connection.Close` on connection `id`: it is marked closed with a zero timestamp, and nothing else changes. */
  function CloseConn(p: CHPool, id: nat): (q: CHPool)
    requires id < |p.conns|
    ensures |q.conns| == |p.conns| && q.conns[id] == Conn(0, true)
    ensures forall j :: 0 <= j < |p.conns| && j != id ==> q.conns[j] == p.conns[j]
    ensures q == p.(conns := q.conns)
  {
    p.(conns := p.conns[id := Conn(0, true)])
  }

  /** `c.ts = now` on connection `id`. */
  function Stamp(p: CHPool, id: nat, now: int): (q: CHPool)
    requires id < |p.conns|
    ensures |q.conns| == |p.conns| && q.conns[id] == Conn(now, p.conns[id].closed)
    ensures forall j :: 0 <= j < |p.conns| && j != id ==> q.conns[j] == p.conns[j]
    ensures q == p.(conns := q.conns)
  {
    p.(conns := p.conns[id := p.conns[id].(ts := now)])
  }

  /**
   * The reachable states: the bounds `CreateCHPool` checks hold,
   * `nowActive` counts exactly the idle connections, which fit in the
   * channel's capacity `maxActive`, and every queued id names an object.
   */
  predicate Inv(p: CHPool) {
    && 0 <= p.minActive <= p.maxActive
    && 0 < p.maxActive
    && p.nowActive == |p.idle| <= p.maxActive
    && Wf(p)
  }

  /** The result of `openConnection`: a new connection object, enqueued, or the dial error. */
  function OpenConnection(p: CHPool, now: int, dial: DialOutcome): (r: Result<(CHPool, nat), string>)
    requires Wf(p) && |p.idle| < p.maxActive
    ensures dial.DialFailed? <==> r.Err?
    ensures r.Ok? ==> r.value.1 == |p.conns| && r.value.0.conns == p.conns + [Conn(now, false)]
    ensures r.Ok? ==> r.value.0 == p.(idle := p.idle + [r.value.1], conns := r.value.0.conns, nowActive := p.nowActive + 1)
    ensures r.Ok? ==> Wf(r.value.0)
  {
    match dial
    case DialFailed(e) => Err(e)
    case Dialed =>
      var id := |p.conns|;
      Ok((p.(idle := p.idle + [id], conns := p.conns + [Conn(now, false)], nowActive := p.nowActive + 1), id))
  }

  /** The pool after the first `n` of `CreateCHPool`'s connections are opened; the `i`-th dial is `dial(i)`. */
  function OpenInitial(p: CHPool, now: int, dial: nat -> DialOutcome, n: nat): (r: Result<CHPool, string>)
    requires Inv(p) && p.idle == [] && p.conns == [] && n <= p.minActive
    ensures r.Ok? <==> forall i :: 0 <= i < n ==> dial(i).Dialed?
    ensures r.Ok? ==> r.value.(idle := [], conns := [], nowActive := 0) == p && Inv(r.value)
    ensures r.Ok? ==> |r.value.idle| == n && |r.value.conns| == n
    ensures r.Ok? ==> forall k :: 0 <= k < n ==> r.value.idle[k] == k && r.value.conns[k] == Conn(now, false)
  {
    if n == 0 then Ok(p)
    else match OpenInitial(p, now, dial, n - 1)
      case Err(e) => Err(e)
      case Ok(q) =>
        match OpenConnection(q, now, dial(n - 1))
        case Err(e) => Err(e)
        case Ok(res) => Ok(res.0)
  }

  /**
   * `CreateCHPool`: rejects `max < min`, then a negative `min` or
   * non-positive `max`; otherwise opens `min` connections, returning the
   * first dial error (the connections opened before it stay open).
   */
  function CreateCHPool(min: int, max: int, maxLifeTime: Int64, dsn: string, now: int, dial: nat -> DialOutcome): (r: Result<CHPool, string>)
    ensures max < min ==> r == Err("max must be larger than min")
    ensures min <= max && (min < 0 || max <= 0) ==> r == Err("number of active connection must larger than zero")
    ensures r.Ok? ==> Inv(r.value) && !r.value.isClosed && r.value.nowActive == r.value.minActive == min
    ensures r.Ok? ==> r.value.maxActive == max && r.value.maxLifeTime == maxLifeTime && r.value.dsn == dsn
    ensures 0 <= min <= max && 0 < max ==> (r.Ok? <==> forall i :: 0 <= i < min ==> dial(i).Dialed?)
    ensures r.Ok? ==> |r.value.conns| == min
    ensures r.Ok? ==> forall k :: 0 <= k < min ==> r.value.idle[k] == k && r.value.conns[k] == Conn(now, false)
  {
    if max < min then Err("max must be larger than min")
    else if min < 0 || max <= 0 then Err("number of active connection must larger than zero")
    else OpenInitial(CHPool([], [], dsn, max, maxLifeTime, min, 0, false), now, dial, min)
  }

  /** What a pool operation hands back besides the new state. */
  datatype AcquireOutcome =
    | Acquired(conn: nat)
    | AcquireFailed(err: string)
    | NilDeref          // line 158 stamps a nil connection: the goroutine panics
    | SendBlocks        // a send onto a full channel while holding the mutex never completes

  /**
   * `AcquireWithTimeout` as written: a closed pool answers "pool is
   * closed"; an idle connection is popped; otherwise, below `maxActive`, a
   * connection is opened - and `openConnection` also enqueues it, so it is
   * handed out while staying idle. When nothing is opened, or the dial
   * fails, the nil connection is stamped. The connection handed out is
   * stamped `now`.
   */
  function Acquire(p: CHPool, now: int, dial: DialOutcome): (r: (CHPool, AcquireOutcome))
    requires Wf(p)
    ensures Wf(r.0) && |p.conns| <= |r.0.conns|
    ensures p.isClosed ==> r == (p, AcquireFailed(ErrPoolClosed))
    ensures !p.isClosed && p.idle != [] ==>
      && r.1 == Acquired(p.idle[0])
      && r.0.idle == p.idle[1..] && r.0.nowActive == p.nowActive - 1
      && r.0.conns == Stamp(p, p.idle[0], now).conns
    ensures r.1.Acquired? ==> r.1.conn < |r.0.conns| && r.0.conns[r.1.conn].ts == now
    ensures r.1 != AcquireFailed(ErrPoolBusy)
    ensures Inv(p) ==> r.1 != SendBlocks && Inv(r.0)
    ensures Inv(p) ==> (r.1 == NilDeref <==> !p.isClosed && p.idle == [] && dial.DialFailed?)
    ensures Inv(p) && !p.isClosed && p.idle == [] && dial.Dialed? ==>
      && r.1 == Acquired(|p.conns|)
      && r.0.idle == [|p.conns|]
      && r.0.conns == p.conns + [Conn(now, false)]
  {
    if p.isClosed then (p, AcquireFailed(ErrPoolClosed))
    else if p.idle != [] then
      var id := p.idle[0];
      (Stamp(p.(idle := p.idle[1..], nowActive := p.nowActive - 1), id, now), Acquired(id))
    else if p.nowActive < p.maxActive then
      if |p.idle| >= p.maxActive then (p, SendBlocks)
      else match OpenConnection(p, now, dial)
        case Err(_) => (p, NilDeref)
        case Ok(res) => (Stamp(res.0, res.1, now), Acquired(res.1))
    else (p, NilDeref)
  }

  /**
   * On an empty pool the freshly opened connection is both handed out and
   * left idle, so the next `Acquire` hands the same object to a second
   * caller, whose stamp the first holder sees too.
   */
  lemma AcquireHandsOutIdleConnection(p: CHPool, now: int, later: int, dial2: DialOutcome)
    requires Inv(p) && !p.isClosed && p.idle == []
    ensures var (q, out) := Acquire(p, now, Dialed);
      var (q2, out2) := Acquire(q, later, dial2);
      && out == Acquired(|p.conns|)
      && q.idle == [|p.conns|]
      && out2 == out
      && q2.conns[|p.conns|] == Conn(later, false)
  {
  }

  /**
   * With room for one connection, the first holder's `Release` finds the
   * pool full - the connection it holds is still counted idle - and closes
   * it; the next `Acquire` then hands out that closed connection.
   */
  lemma AcquireHandsOutClosedConnection(p: CHPool, t0: int, t1: int, t2: int, dial3: DialOutcome)
    requires Inv(p) && !p.isClosed && p.idle == [] && p.maxActive == 1
    ensures var (q, out) := Acquire(p, t0, Dialed);
      && out == Acquired(|p.conns|)
      && var (q2, rel) := Release(q, |p.conns|, t1);
      && rel == ClosedIt
      && var (q3, out3) := Acquire(q2, t2, dial3);
      && out3 == out
      && q3.conns[|p.conns|] == Conn(t2, true)
  {
    var (q, out) := Acquire(p, t0, Dialed);
    var (q2, rel) := Release(q, |p.conns|, t1);
    assert q2.idle == [|p.conns|] && q2.conns[|p.conns|].closed;
  }

  /**
   * `Acquire` as evidently intended: the freshly opened connection is
   * handed out without being enqueued, so nothing handed out is still idle.
   */
  function AcquireFixed(p: CHPool, now: int, dial: DialOutcome): (r: (CHPool, AcquireOutcome))
    requires Wf(p)
    ensures Wf(r.0)
    ensures p.isClosed ==> r == (p, AcquireFailed(ErrPoolClosed))
    ensures !p.isClosed && p.idle != [] ==>
      && r.1 == Acquired(p.idle[0])
      && r.0.idle == p.idle[1..] && r.0.nowActive == p.nowActive - 1
      && r.0.conns == Stamp(p, p.idle[0], now).conns
    ensures !p.isClosed && p.idle == [] && p.nowActive < p.maxActive && dial.Dialed? ==>
      && r.1 == Acquired(|p.conns|)
      && r.0 == p.(conns := p.conns + [Conn(now, false)])
    ensures r.1.Acquired? ==> r.1.conn < |r.0.conns|
  {
    if p.isClosed then (p, AcquireFailed(ErrPoolClosed))
    else if p.idle != [] then
      var id := p.idle[0];
      (Stamp(p.(idle := p.idle[1..], nowActive := p.nowActive - 1), id, now), Acquired(id))
    else if p.nowActive < p.maxActive then
      match dial
      case DialFailed(_) => (p, NilDeref)
      case Dialed => (p.(conns := p.conns + [Conn(now, false)]), Acquired(|p.conns|))
    else (p, NilDeref)
  }

  /** No connection is queued twice. */
  predicate DistinctIdle(p: CHPool) {
    forall i, j :: 0 <= i < j < |p.idle| ==> p.idle[i] != p.idle[j]
  }

  /**
   * The corrected `Acquire` never hands out a connection that is still
   * idle, keeps the queue free of repeats and keeps the invariant.
   */
  lemma AcquireFixedExclusive(p: CHPool, now: int, dial: DialOutcome)
    requires Inv(p) && DistinctIdle(p)
    ensures var (q, out) := AcquireFixed(p, now, dial);
      && Inv(q) && DistinctIdle(q)
      && (out.Acquired? ==> out.conn !in q.idle)
  {
    var (q, out) := AcquireFixed(p, now, dial);
    if !p.isClosed && p.idle != [] {
      forall k | 0 <= k < |q.idle| ensures q.idle[k] != out.conn {
        assert q.idle[k] == p.idle[k + 1];
      }
    }
  }

  /** Releasing a connection that is not idle keeps the queue free of repeats. */
  lemma ReleaseKeepsDistinct(p: CHPool, id: nat, now: int)
    requires Inv(p) && DistinctIdle(p) && id < |p.conns| && id !in p.idle
    ensures DistinctIdle(Release(p, id, now).0)
  {
  }

  /** What `Release` did with the connection. */
  datatype ReleaseOutcome = Enqueued | ClosedIt | ReleaseBlocks

  /**
   * `Release`: a closed pool, or one with `nowActive` at `maxActive`,
   * closes the connection; otherwise it is stamped and enqueued.
   */
  function Release(p: CHPool, id: nat, now: int): (r: (CHPool, ReleaseOutcome))
    requires Wf(p) && id < |p.conns|
    ensures Wf(r.0) && |r.0.conns| == |p.conns|
    ensures p.isClosed || p.nowActive >= p.maxActive ==> r == (CloseConn(p, id), ClosedIt)
    ensures r.1 == Enqueued ==>
      && r.0.idle == p.idle + [id] && r.0.nowActive == p.nowActive + 1
      && r.0.conns == Stamp(p, id, now).conns
    ensures Inv(p) ==> r.1 != ReleaseBlocks && Inv(r.0)
    ensures r.0.isClosed == p.isClosed && r.0.maxActive == p.maxActive && r.0.minActive == p.minActive
  {
    if p.isClosed || p.nowActive >= p.maxActive then (CloseConn(p, id), ClosedIt)
    else if |p.idle| >= p.maxActive then (Stamp(p, id, now), ReleaseBlocks)
    else (Stamp(p, id, now).(idle := p.idle + [id], nowActive := p.nowActive + 1), Enqueued)
  }

  /**
   * `Close`: marks the pool closed, then up to `maxActive` times, while
   * `nowActive` is positive, takes an idle connection and closes it (an
   * empty queue makes that round wait out its timeout instead). Returns the
   * new state and the ids closed, in queue order.
   */
  function Close(p: CHPool): (r: (CHPool, seq<nat>))
    requires Wf(p)
    ensures r.0.isClosed && Wf(r.0)
    ensures Inv(p) ==> r.1 == p.idle
    ensures Inv(p) ==> r.0 == p.(idle := [], conns := CloseAll(p.conns, p.idle), nowActive := 0, isClosed := true)
  {
    var q := p.(isClosed := true);
    var (q', closed) := CloseRounds(q, 0);
    if Inv(p) then
      CloseRoundsDrain(q, 0);
      (q', closed)
    else (q', closed)
  }

  /** The connection objects once every id in `ids` is closed. */
  function CloseAll(cs: seq<Conn>, ids: seq<nat>): (r: seq<Conn>)
    requires forall k :: 0 <= k < |ids| ==> ids[k] < |cs|
    ensures |r| == |cs|
    ensures forall j :: 0 <= j < |cs| ==> r[j] == if j in ids then Conn(0, true) else cs[j]
    decreases |ids|
  {
    if ids == [] then cs
    else
      var rest := CloseAll(cs[ids[0] := Conn(0, true)], ids[1..]);
      assert forall j :: j in ids <==> j == ids[0] || j in ids[1..] by {
        assert ids == [ids[0]] + ids[1..];
      }
      rest
  }

  /**
   * Rounds `i`, `i + 1`, ... of `Close`'s loop: they close a prefix of the
   * queue, in order, and count each one off `nowActive`.
   */
  function CloseRounds(p: CHPool, i: int): (r: (CHPool, seq<nat>))
    requires Wf(p)
    ensures r.0.isClosed == p.isClosed && Wf(r.0)
    ensures |r.1| <= |p.idle| && r.1 == p.idle[..|r.1|] && r.0.idle == p.idle[|r.1|..]
    ensures r.0.nowActive == p.nowActive - |r.1|
    decreases p.maxActive - i
  {
    if p.nowActive > 0 && i < p.maxActive then
      if p.idle != [] then
        var id := p.idle[0];
        var (q, closed) := CloseRounds(CloseConn(p.(idle := p.idle[1..], nowActive := p.nowActive - 1), id), i + 1);
        (q, [id] + closed)
      else CloseRounds(p, i + 1)
    else (p, [])
  }

  /** From round `i`, with no more idle connections than rounds left, the loop closes the whole queue. */
  lemma {:induction false} CloseRoundsDrain(p: CHPool, i: int)
    requires 0 <= i && Wf(p) && p.nowActive == |p.idle| <= p.maxActive - i
    ensures CloseRounds(p, i) == (p.(idle := [], conns := CloseAll(p.conns, p.idle), nowActive := 0), p.idle)
    decreases p.maxActive - i
  {
    if p.nowActive > 0 {
      var id := p.idle[0];
      var p' := CloseConn(p.(idle := p.idle[1..], nowActive := p.nowActive - 1), id);
      CloseRoundsDrain(p', i + 1);
      var (q, closed) := CloseRounds(p', i + 1);
      assert CloseRounds(p, i) == (q, [id] + closed);
      assert CloseAll(p'.conns, p'.idle) == CloseAll(p.conns, p.idle);
      assert [id] + p.idle[1..] == p.idle;
    } else {
      assert CloseAll(p.conns, p.idle) == p.conns;
    }
  }

  /** A second `Close` finds nothing left to close. */
  lemma CloseTwice(p: CHPool)
    requires Inv(p)
    ensures var (q, _) := Close(p);
      Close(q) == (q, [])
  {
    var (q, _) := Close(p);
    assert Inv(q);
  }

  /** What one tick of the reclaimer did. */
  datatype TickOutcome = Stopped | Reclaimed(closed: seq<nat>)

  /**
   * One tick of `closeInActiveConnection`: a closed pool stops the ticker;
   * otherwise idle connections are taken from the head while `nowActive`
   * is positive: one idle for more than `maxLifeTime` seconds is closed and
   * the next one taken; the first one that is not is released back, which
   * stamps it and moves it to the tail, and ends the tick.
   */
  function ReclaimTick(p: CHPool, now: int): (r: (CHPool, TickOutcome))
    requires Wf(p)
    ensures p.isClosed <==> r.1 == Stopped
    ensures p.isClosed ==> r.0 == p
    ensures Wf(r.0) && (Inv(p) ==> Inv(r.0))
  {
    if p.isClosed then (p, Stopped)
    else
      var (q, closed) := ReclaimLoop(p, now);
      (q, Reclaimed(closed))
  }

  predicate Expired(p: CHPool, id: nat, now: int)
    requires id < |p.conns|
  {
    now - p.conns[id].ts > p.maxLifeTime as int
  }

  /** The inner loop of a tick; returns the ids it closed. */
  function ReclaimLoop(p: CHPool, now: int): (r: (CHPool, seq<nat>))
    requires !p.isClosed && Wf(p)
    ensures Wf(r.0) && |r.0.conns| == |p.conns|
    ensures Inv(p) ==> Inv(r.0)
    ensures r.0.isClosed == p.isClosed && r.0.maxActive == p.maxActive && r.0.minActive == p.minActive
    decreases |p.idle|
  {
    if p.nowActive == 0 || p.idle == [] then (p, [])
    else
      var id := p.idle[0];
      var p' := p.(idle := p.idle[1..], nowActive := p.nowActive - 1);
      if Expired(p, id, now) then
        var (q, closed) := ReclaimLoop(CloseConn(p', id), now);
        (q, [id] + closed)
      else (Release(p', id, now).0, [])
  }

  /** The ids in `idle` all name connection objects of `p`. */
  predicate Named(p: CHPool, idle: seq<nat>) {
    forall k :: 0 <= k < |idle| ==> idle[k] < |p.conns|
  }

  /** The longest run of connections at the head of `idle` that are expired in `p`. */
  function ExpiredRun(p: CHPool, idle: seq<nat>, now: int): (n: nat)
    requires Named(p, idle)
    ensures n <= |idle|
    ensures forall k :: 0 <= k < n ==> Expired(p, idle[k], now)
    ensures n < |idle| ==> !Expired(p, idle[n], now)
  {
    if idle == [] || !Expired(p, idle[0], now) then 0 else 1 + ExpiredRun(p, idle[1..], now)
  }

  /** The run depends only on the connections it looks at. */
  lemma {:induction false} ExpiredRunFrame(p: CHPool, p2: CHPool, idle: seq<nat>, now: int)
    requires Named(p, idle) && Named(p2, idle) && p2.maxLifeTime == p.maxLifeTime
    requires forall k :: 0 <= k < |idle| ==> p2.conns[idle[k]] == p.conns[idle[k]]
    ensures ExpiredRun(p2, idle, now) == ExpiredRun(p, idle, now)
  {
    if idle != [] {
      ExpiredRunFrame(p, p2, idle[1..], now);
    }
  }

  /** The queue once the first `n` ids are gone and the next, if any, has moved to the tail. */
  function Rotated(idle: seq<nat>, n: nat): seq<nat>
    requires n <= |idle|
  {
    if n == |idle| then [] else idle[n + 1..] + [idle[n]]
  }

  /**
   * The connection objects once the first `n` queued connections are
   * closed and the next one, if any, is stamped `now`.
   */
  function Ticked(cs: seq<Conn>, idle: seq<nat>, n: nat, now: int): seq<Conn>
    requires n <= |idle| && forall k :: 0 <= k < |idle| ==> idle[k] < |cs|
  {
    var closed := CloseAll(cs, idle[..n]);
    if n == |idle| then closed else closed[idle[n] := closed[idle[n]].(ts := now)]
  }

  /**
   * When no connection is queued twice, a tick closes exactly the expired
   * connections at the head of the queue, in order; the first fresh one,
   * if any, is stamped `now` and moved to the tail; every other connection
   * keeps its place and its state.
   */
  lemma {:induction false} ReclaimRotatesFirstFresh(p: CHPool, now: int)
    requires Inv(p) && !p.isClosed && DistinctIdle(p)
    ensures var n := ExpiredRun(p, p.idle, now);
      var (q, closed) := ReclaimLoop(p, now);
      && closed == p.idle[..n]
      && q.idle == Rotated(p.idle, n)
      && q.conns == Ticked(p.conns, p.idle, n, now)
    decreases |p.idle|
  {
    if p.idle != [] {
      var id := p.idle[0];
      var p' := p.(idle := p.idle[1..], nowActive := p.nowActive - 1);
      if Expired(p, id, now) {
        var p'' := CloseConn(p', id);
        ExpiredHeadStep(p, now);
        ReclaimRotatesFirstFresh(p'', now);
        ReclaimSkipsExpired(p, now);
        var m := ExpiredRun(p'', p''.idle, now);
        assert p.idle[..m + 1] == [id] + p.idle[1..][..m];
        RotatedShift(p.idle, m);
        TickedShift(p.conns, p.idle, m, now);
      } else {
        ReclaimStopsAtFresh(p, now);
      }
    }
  }

  /** A tick closes exactly the expired connections at the head of the queue, in order. */
  lemma ReclaimClosesExpiredRun(p: CHPool, now: int)
    requires Inv(p) && !p.isClosed && DistinctIdle(p)
    ensures var closed := ReclaimLoop(p, now).1;
      && |closed| == ExpiredRun(p, p.idle, now)
      && forall k :: 0 <= k < |closed| ==> closed[k] == p.idle[k] && Expired(p, closed[k], now)
  {
    ReclaimRotatesFirstFresh(p, now);
  }

  /** An expired head is closed and the rest of the queue is handled alike. */
  lemma ReclaimSkipsExpired(p: CHPool, now: int)
    requires Inv(p) && !p.isClosed && p.idle != [] && Expired(p, p.idle[0], now)
    ensures var id := p.idle[0];
      var p'' := CloseConn(p.(idle := p.idle[1..], nowActive := p.nowActive - 1), id);
      && Inv(p'') && !p''.isClosed
      && ReclaimLoop(p, now) == (ReclaimLoop(p'', now).0, [id] + ReclaimLoop(p'', now).1)
      && ExpiredRun(p, p.idle, now) == 1 + ExpiredRun(p, p.idle[1..], now)
  {
  }

  /** A fresh head ends the loop: it is stamped `now` and released to the tail. */
  lemma ReclaimStopsAtFresh(p: CHPool, now: int)
    requires Inv(p) && !p.isClosed && p.idle != [] && !Expired(p, p.idle[0], now)
    ensures ExpiredRun(p, p.idle, now) == 0
    ensures var (q, closed) := ReclaimLoop(p, now);
      && closed == []
      && q.idle == p.idle[1..] + [p.idle[0]]
      && q.conns == Stamp(p, p.idle[0], now).conns
  {
    var p' := p.(idle := p.idle[1..], nowActive := p.nowActive - 1);
    assert Release(p', p.idle[0], now).0.idle == p.idle[1..] + [p.idle[0]];
  }

  /**
   * Closing an expired head leaves a queue without repeats that no longer
   * names the head, and the expired run behind it is one shorter.
   */
  lemma ExpiredHeadStep(p: CHPool, now: int)
    requires Inv(p) && !p.isClosed && DistinctIdle(p) && p.idle != [] && Expired(p, p.idle[0], now)
    ensures var id := p.idle[0];
      var p'' := CloseConn(p.(idle := p.idle[1..], nowActive := p.nowActive - 1), id);
      && DistinctIdle(p'') && id !in p''.idle
      && ExpiredRun(p, p.idle, now) == 1 + ExpiredRun(p'', p''.idle, now)
  {
    var id := p.idle[0];
    var p'' := CloseConn(p.(idle := p.idle[1..], nowActive := p.nowActive - 1), id);
    assert DistinctIdle(p'') by {
      forall i, j | 0 <= i < j < |p''.idle| ensures p''.idle[i] != p''.idle[j] {
        assert p''.idle[i] == p.idle[i + 1] && p''.idle[j] == p.idle[j + 1];
      }
    }
    assert id !in p''.idle by {
      forall k | 0 <= k < |p''.idle| ensures p''.idle[k] != id {
        assert p''.idle[k] == p.idle[k + 1];
      }
    }
    ExpiredRunFrame(p, p'', p.idle[1..], now);
  }

  lemma TickedShift(cs: seq<Conn>, idle: seq<nat>, n: nat, now: int)
    requires idle != [] && n < |idle| && forall k :: 0 <= k < |idle| ==> idle[k] < |cs|
    ensures Ticked(cs, idle, n + 1, now) == Ticked(cs[idle[0] := Conn(0, true)], idle[1..], n, now)
  {
    assert idle[..n + 1][0] == idle[0] && idle[..n + 1][1..] == idle[1..][..n];
    assert CloseAll(cs, idle[..n + 1]) == CloseAll(cs[idle[0] := Conn(0, true)], idle[1..][..n]);
  }

  lemma RotatedShift(idle: seq<nat>, n: nat)
    requires idle != [] && n < |idle|
    ensures Rotated(idle, n + 1) == Rotated(idle[1..], n)
  {
    if n + 1 < |idle| {
      assert idle[n + 2..] == idle[1..][n + 1..];
    }
  }
}
