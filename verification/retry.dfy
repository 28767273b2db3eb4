/**
 * `isRetryableError` and `query`: one statement executed over the session,
 * retried with a decreasing budget when the failure is one the session
 * layer recognises as a lost or expired session.
 */
module Retry {
  import opened Wrappers
  import opened JsText
  import opened Driver
  import opened Session

  const ExpiredTokenText: string := "OAuth access token expired"
  const TerminatedText: string := "terminated connection"
  const SessionGoneCode: int := 407002

  /** The retry budget `query` gets when its caller passes none. */
  const DefaultRetries: int := 1

  /** The error's message contains `text`. */
  ghost predicate Mentions(e: DriverError, text: string) {
    e.message.Some? && exists i :: OccursAt(e.message.value, text, i)
  }

  /** `isRetryableError`; the code must be the number 407002, not a string spelling it. */
  function IsRetryable(e: DriverError): (r: bool)
    ensures r <==> Mentions(e, ExpiredTokenText) || Mentions(e, TerminatedText) || e.code == Some(Numeric(SessionGoneCode))
  {
    || (e.message.Some? && (Includes(e.message.value, ExpiredTokenText) || Includes(e.message.value, TerminatedText)))
    || e.code == Some(Numeric(SessionGoneCode))
  }

  /**
   * What the outside world does during one attempt: the token file's
   * content when the attempt reads it, how the attempt it starts or joins
   * ends, and how the statement's execution ends.
   */
  datatype World = World(token: Option<string>, connect: ConnectOutcome, exec: ExecOutcome)

  /** The driver calls a query makes, in order. */
  datatype Event = Destroyed(handle: Handle) | Connecting(attempt: Attempt) | Executing(handle: Handle, sql: string)

  type Outcome = Result<seq<Row>, DriverError>

  /**
   * A finished run: the final session state, what the caller receives,
   * the outcome of each attempt in order, and the driver calls made.
   */
  datatype Run = Run(state: State, result: Outcome, outcomes: seq<Outcome>, trace: seq<Event>)

  /** The rows a successful execution hands back; a missing row list becomes empty. */
  function RowsOf(rows: Option<seq<Row>>): (r: seq<Row>)
    ensures rows.None? ==> r == []
    ensures rows.Some? ==> r == rows.value
  {
    rows.GetOr([])
  }

  function Execute(s: State, h: Handle, sql: string, exec: ExecOutcome, before: seq<Event>): Run {
    var trace := before + [Executing(h, sql)];
    match exec
    case Executed(rows) => Run(s, Ok(RowsOf(rows)), [Ok(RowsOf(rows))], trace)
    case ExecFailed(e) => Run(s, Err(e), [Err(e)], trace)
  }

  function Connect(s: State, a: Attempt, sql: string, w: World, before: seq<Event>): Run {
    var st := Settle(s, a, w.connect);
    match st.result
    case Err(e) => Run(st.state, Err(e), [Err(e)], before)
    case Ok(h) => Execute(st.state, h, sql, w.exec, before)
  }

  /** Driver calls made on entry: destroying a replaced handle, then connecting. */
  function StartEvents(a: Attempt, destroyed: Option<Handle>): seq<Event> {
    (if destroyed.Some? then [Destroyed(destroyed.value)] else []) + [Connecting(a)]
  }

  /** One pass through the `try` block of `query`: get a connection, then execute. */
  function Once(s: State, sql: string, w: World): (r: Run)
    ensures |r.outcomes| == 1 && r.outcomes[0] == r.result
    ensures r.result.Ok? ==> w.exec.Executed? && r.result.value == RowsOf(w.exec.rows)
    ensures r.result.Err? ==>
      (w.exec.ExecFailed? && r.result.error == w.exec.error) ||
      (w.connect.ConnectFailed? && r.result.error == w.connect.error)
    ensures forall i :: 0 <= i < |r.trace| && r.trace[i].Executing? ==> r.trace[i].sql == sql
    ensures r.state.pending.None? || r.state == s
  {
    var e := Enter(s, w.token);
    match e.entry
    case Reuse(h) => Execute(e.state, h, sql, w.exec, [])
    case Join(a) => Connect(e.state, a, sql, w, [])
    case Start(a, d) => Connect(e.state, a, sql, w, StartEvents(a, d))
  }

  /** The number of retries a budget allows. */
  function Budget(retries: int): nat {
    if retries > 0 then retries else 0
  }

  predicate RetryableFailure(o: Outcome) {
    o.Err? && IsRetryable(o.error)
  }

  /**
   * `query(sql, retries)`; attempt `k` sees `world(k)`. Before each retry
   * the handle is dropped, without being destroyed.
   */
  function Query(s: State, sql: string, retries: int, world: nat -> World, k: nat): (r: Run)
    decreases Budget(retries)
    ensures 1 <= |r.outcomes| <= Budget(retries) + 1
    ensures r.result == r.outcomes[|r.outcomes| - 1]
    ensures forall i :: 0 <= i < |r.outcomes| - 1 ==> RetryableFailure(r.outcomes[i])
    ensures RetryableFailure(r.result) ==> |r.outcomes| == Budget(retries) + 1
    ensures forall i :: 0 <= i < |r.trace| && r.trace[i].Executing? ==> r.trace[i].sql == sql
  {
    var first := Once(s, sql, world(k));
    if first.result.Err? && retries > 0 && IsRetryable(first.result.error) then
      var rest := Query(first.state.(connection := None), sql, retries - 1, world, k + 1);
      Run(rest.state, rest.result, first.outcomes + rest.outcomes, first.trace + rest.trace)
    else
      first
  }

  /** The first attempt is one pass through the `try` block on the caller's state. */
  lemma FirstOutcome(s: State, sql: string, retries: int, world: nat -> World, k: nat)
    ensures Query(s, sql, retries, world, k).outcomes[0] == Once(s, sql, world(k)).result
  {
  }

  /** With the default budget a query makes at most two attempts. */
  lemma DefaultAttempts(s: State, sql: string, world: nat -> World)
    ensures |Query(s, sql, DefaultRetries, world, 0).outcomes| <= 2
  {
  }

  /** A failure that is not retryable reaches the caller after a single attempt. */
  lemma NonRetryableNotRetried(s: State, sql: string, retries: int, world: nat -> World, k: nat)
    requires !RetryableFailure(Once(s, sql, world(k)).result)
    ensures Query(s, sql, retries, world, k).outcomes == [Once(s, sql, world(k)).result]
  {
  }

  /**
   * A dropped session: the cached handle fails with a retryable error and
   * the budget is 1. The handle is dropped but never destroyed, the retry
   * starts a fresh attempt, and the caller gets the retry's outcome.
   */
  lemma DroppedSessionRetried(s: State, sql: string, world: nat -> World, k: nat, err: DriverError)
    requires s.Valid() && s.connection.Some? && s.pending.None?
    requires TokenCurrent(world(k).token, s.cachedToken)
    requires world(k).exec == ExecFailed(err) && IsRetryable(err)
    ensures var r := Query(s, sql, 1, world, k);
      var h := s.connection.value;
      var retry := Connect(s.(connection := None, pending := Some(Attempt(s.started, world(k + 1).token)),
                              started := s.started + 1),
                           Attempt(s.started, world(k + 1).token), sql, world(k + 1),
                           [Connecting(Attempt(s.started, world(k + 1).token))]);
      && r.outcomes == [Err(err), retry.result]
      && r.result == retry.result
      && r.trace == [Executing(h, sql)] + retry.trace
      && (forall i :: 0 <= i < |r.trace| ==> !r.trace[i].Destroyed?)
  {
    var s1 := s.(connection := None);
    var a := Attempt(s.started, world(k + 1).token);
    ReusedHandleFails(s, sql, world(k), err);
    QueryStep(s, sql, 1, world, k);
    QueryStep(s1, sql, 0, world, k + 1);
    IdleStarts(s1, sql, world(k + 1));
    ConnectDestroysNothing(s1.(pending := Some(a), started := s.started + 1), a, sql, world(k + 1), [Connecting(a)]);
  }

  /** Executing on a current cached handle that then fails. */
  lemma ReusedHandleFails(s: State, sql: string, w: World, err: DriverError)
    requires s.connection.Some? && TokenCurrent(w.token, s.cachedToken) && w.exec == ExecFailed(err)
    ensures Once(s, sql, w) == Run(s, Err(err), [Err(err)], [Executing(s.connection.value, sql)])
  {
  }

  /** With neither a handle nor an attempt in flight a pass starts a fresh attempt. */
  lemma IdleStarts(s: State, sql: string, w: World)
    requires s.connection.None? && s.pending.None?
    ensures var a := Attempt(s.started, w.token);
      Once(s, sql, w) == Connect(s.(pending := Some(a), started := s.started + 1), a, sql, w, [Connecting(a)])
  {
  }

  /** Settling and executing calls no `destroy`. */
  lemma ConnectDestroysNothing(s: State, a: Attempt, sql: string, w: World, before: seq<Event>)
    requires forall i :: 0 <= i < |before| ==> !before[i].Destroyed?
    ensures var r := Connect(s, a, sql, w, before);
      forall i :: 0 <= i < |r.trace| ==> !r.trace[i].Destroyed?
  {
  }

  /** With no handle cached, a pass never reuses one and calls no `destroy`. */
  lemma OnceWithoutHandle(s: State, sql: string, w: World)
    requires s.connection.None?
    ensures !Enter(s, w.token).entry.Reuse?
    ensures var r := Once(s, sql, w);
      forall i :: 0 <= i < |r.trace| ==> !r.trace[i].Destroyed?
  {
    var e := Enter(s, w.token);
    match e.entry
    case Reuse(_) =>
      assert false;
    case Join(a) =>
      ConnectDestroysNothing(e.state, a, sql, w, []);
    case Start(a, d) =>
      assert StartEvents(a, d) == [Connecting(a)];
      ConnectDestroysNothing(e.state, a, sql, w, StartEvents(a, d));
  }

  lemma NoDestroyedConcat(a: seq<Event>, b: seq<Event>)
    requires forall i :: 0 <= i < |a| ==> !a[i].Destroyed?
    requires forall i :: 0 <= i < |b| ==> !b[i].Destroyed?
    ensures forall i :: 0 <= i < |a + b| ==> !(a + b)[i].Destroyed?
  {
    assert forall i :: |a| <= i < |a + b| ==> (a + b)[i] == b[i - |a|];
  }

  /** A query that starts without a cached handle, and so every retry, calls no `destroy`. */
  lemma {:induction false} NothingDestroyedWithoutHandle(s: State, sql: string, retries: int, world: nat -> World, k: nat)
    requires s.connection.None?
    ensures var r := Query(s, sql, retries, world, k);
      forall i :: 0 <= i < |r.trace| ==> !r.trace[i].Destroyed?
    decreases Budget(retries)
  {
    var once := Once(s, sql, world(k));
    OnceWithoutHandle(s, sql, world(k));
    QueryStep(s, sql, retries, world, k);
    if RetryableFailure(once.result) && retries > 0 {
      var next := once.state.(connection := None);
      NothingDestroyedWithoutHandle(next, sql, retries - 1, world, k + 1);
      NoDestroyedConcat(once.trace, Query(next, sql, retries - 1, world, k + 1).trace);
    }
  }

  /**
   * A retryable failure with budget left, whatever the first pass did: the
   * retry runs on the state with the handle dropped and sees the next
   * world; it never reuses the failed handle, and no handle is destroyed
   * from then on.
   */
  lemma RetryDropsHandle(s: State, sql: string, retries: int, world: nat -> World, k: nat)
    requires retries > 0 && RetryableFailure(Once(s, sql, world(k)).result)
    ensures var once := Once(s, sql, world(k));
      var next := once.state.(connection := None);
      var r := Query(s, sql, retries, world, k);
      && r == Prepend(once.outcomes, once.trace, Query(next, sql, retries - 1, world, k + 1))
      && r.outcomes[1] == Once(next, sql, world(k + 1)).result
      && !Enter(next, world(k + 1).token).entry.Reuse?
      && (forall i :: |once.trace| <= i < |r.trace| ==> !r.trace[i].Destroyed?)
  {
    var once := Once(s, sql, world(k));
    var next := once.state.(connection := None);
    QueryStep(s, sql, retries, world, k);
    FirstOutcome(next, sql, retries - 1, world, k + 1);
    OnceWithoutHandle(next, sql, world(k + 1));
    NothingDestroyedWithoutHandle(next, sql, retries - 1, world, k + 1);
    RetryTail(once.trace, Query(next, sql, retries - 1, world, k + 1).trace);
  }

  lemma RetryTail(a: seq<Event>, b: seq<Event>)
    requires forall i :: 0 <= i < |b| ==> !b[i].Destroyed?
    ensures forall i :: |a| <= i < |a + b| ==> !(a + b)[i].Destroyed?
  {
    assert forall i :: |a| <= i < |a + b| ==> (a + b)[i] == b[i - |a|];
  }

  /** `r` with the attempts and driver calls of earlier attempts put in front. */
  function Prepend(outcomes: seq<Outcome>, trace: seq<Event>, r: Run): Run {
    Run(r.state, r.result, outcomes + r.outcomes, trace + r.trace)
  }

  lemma QueryStep(s: State, sql: string, retries: int, world: nat -> World, k: nat)
    ensures var once := Once(s, sql, world(k));
      Query(s, sql, retries, world, k) ==
        if RetryableFailure(once.result) && retries > 0
        then Prepend(once.outcomes, once.trace, Query(once.state.(connection := None), sql, retries - 1, world, k + 1))
        else once
  {
  }

  lemma PrependTwice(o1: seq<Outcome>, t1: seq<Event>, o2: seq<Outcome>, t2: seq<Event>, r: Run)
    ensures Prepend(o1, t1, Prepend(o2, t2, r)) == Prepend(o1 + o2, t1 + t2, r)
  {
    assert o1 + (o2 + r.outcomes) == (o1 + o2) + r.outcomes;
    assert t1 + (t2 + r.trace) == (t1 + t2) + r.trace;
  }

  /** One retry of the loop in `RunQuery` keeps its invariant. */
  lemma RetryKeeps(goal: Run, outcomes: seq<Outcome>, trace: seq<Event>, s: State, sql: string,
                   budget: int, world: nat -> World, k: nat)
    requires goal == Prepend(outcomes, trace, Query(s, sql, budget, world, k))
    requires RetryableFailure(Once(s, sql, world(k)).result) && budget > 0
    ensures var once := Once(s, sql, world(k));
      goal == Prepend(outcomes + once.outcomes, trace + once.trace,
                      Query(once.state.(connection := None), sql, budget - 1, world, k + 1))
  {
    var once := Once(s, sql, world(k));
    QueryStep(s, sql, budget, world, k);
    PrependTwice(outcomes, trace, once.outcomes, once.trace,
      Query(once.state.(connection := None), sql, budget - 1, world, k + 1));
  }

  /** The loop in `RunQuery` stops when the attempt is not retried. */
  lemma StopReaches(goal: Run, outcomes: seq<Outcome>, trace: seq<Event>, s: State, sql: string,
                    budget: int, world: nat -> World, k: nat)
    requires goal == Prepend(outcomes, trace, Query(s, sql, budget, world, k))
    requires !(RetryableFailure(Once(s, sql, world(k)).result) && budget > 0)
    ensures goal == Prepend(outcomes, trace, Once(s, sql, world(k)))
  {
    QueryStep(s, sql, budget, world, k);
  }

  /** `query` as a loop over the budget, computing what the recursive definition does. */
  method RunQuery(s0: State, sql: string, retries: int, world: nat -> World) returns (r: Run)
    ensures r == Query(s0, sql, retries, world, 0)
  {
    var s := s0;
    var budget := retries;
    var k: nat := 0;
    var outcomes: seq<Outcome> := [];
    var trace: seq<Event> := [];
    ghost var goal := Query(s0, sql, retries, world, 0);
    assert goal == Prepend(outcomes, trace, goal);
    var once := Once(s, sql, world(k));
    while RetryableFailure(once.result) && budget > 0
      invariant goal == Prepend(outcomes, trace, Query(s, sql, budget, world, k))
      invariant once == Once(s, sql, world(k))
      decreases budget
    {
      RetryKeeps(goal, outcomes, trace, s, sql, budget, world, k);
      outcomes := outcomes + once.outcomes;
      trace := trace + once.trace;
      s := once.state.(connection := None);
      budget := budget - 1;
      k := k + 1;
      once := Once(s, sql, world(k));
    }
    StopReaches(goal, outcomes, trace, s, sql, budget, world, k);
    r := Prepend(outcomes, trace, once);
  }
}
