/**
 * `getConnection`: the module-level session state and its transitions.
 * A call first runs synchronously up to its first `await` (`Enter`): it
 * reuses the handle, joins the attempt in flight, or starts a new attempt.
 * An attempt later resolves (`Settle`) with an outcome chosen by the driver.
 */
module Session {
  import opened Wrappers
  import opened JsText
  import opened Driver

  /** A connection attempt; `token` is the token read by the call that started it. */
  datatype Attempt = Attempt(id: nat, token: Option<string>)

  /**
   * The variables `connection`, `connectionPromise` (here the attempt it
   * stands for) and `cachedToken`, and the number of attempts started so
   * far, which names the next one.
   */
  datatype State = State(
    connection: Option<Handle>, pending: Option<Attempt>, cachedToken: Option<string>, started: nat)
  {
    /** The attempt in flight was started earlier. */
    predicate Valid() {
      pending.Some? ==> pending.value.id < started
    }
  }

  const Initial: State := State(None, None, None, 0)

  /** The token read on entry asks for no new handle: there is none, or it is the cached one. */
  predicate TokenCurrent(token: Option<string>, cached: Option<string>) {
    !Truthy(token) || token == cached
  }

  /** What a call does on entry. */
  datatype Entry =
    | Reuse(handle: Handle)
    | Join(attempt: Attempt)
    | Start(attempt: Attempt, destroyed: Option<Handle>)

  datatype Entered = Entered(state: State, entry: Entry)

  /** The synchronous part of `getConnection`, for the token read on entry. */
  function Enter(s: State, token: Option<string>): (r: Entered)
    ensures r.entry.Reuse? <==> s.connection.Some? && TokenCurrent(token, s.cachedToken)
    ensures r.entry.Join? <==> s.connection.None? && s.pending.Some? && TokenCurrent(token, s.cachedToken)
    ensures !r.entry.Start? ==> r.state == s
    ensures r.entry.Reuse? ==> r.entry.handle == s.connection.value
    ensures r.entry.Join? ==> r.entry.attempt == s.pending.value
    ensures r.entry.Start? ==>
      && r.entry.destroyed == s.connection
      && r.entry.attempt == Attempt(s.started, token)
      && r.state == State(None, Some(r.entry.attempt), s.cachedToken, s.started + 1)
    ensures s.Valid() ==> r.state.Valid()
  {
    if s.connection.Some? && TokenCurrent(token, s.cachedToken) then
      Entered(s, Reuse(s.connection.value))
    else if s.pending.Some? && TokenCurrent(token, s.cachedToken) then
      Entered(s, Join(s.pending.value))
    else
      var a := Attempt(s.started, token);
      Entered(State(None, Some(a), s.cachedToken, s.started + 1), Start(a, s.connection))
  }

  datatype Settled = Settled(state: State, result: Result<Handle, DriverError>)

  /**
   * Attempt `a` resolves with `outcome`: on success the handle and the
   * attempt's token are stored; on both paths the starter's `finally`
   * clears the in-flight marker, whichever attempt it stands for.
   */
  function Settle(s: State, a: Attempt, outcome: ConnectOutcome): (r: Settled)
    ensures r.state.pending.None? && r.state.started == s.started && r.state.Valid()
    ensures outcome.Connected? ==>
      r.state.connection == Some(outcome.handle) && r.state.cachedToken == a.token && r.result == Ok(outcome.handle)
    ensures outcome.ConnectFailed? ==>
      r.state.connection == s.connection && r.state.cachedToken == s.cachedToken && r.result == Err(outcome.error)
  {
    match outcome
    case Connected(h) => Settled(State(Some(h), None, a.token, s.started), Ok(h))
    case ConnectFailed(e) => Settled(s.(pending := None), Err(e))
  }

  /** A handle built with `token` is reused by every later call that reads no token or the same one. */
  lemma SettledHandleReused(s: State, a: Attempt, h: Handle, token: Option<string>)
    requires !Truthy(token) || token == a.token
    ensures var st := Settle(s, a, Connected(h)).state;
      Enter(st, token) == Entered(st, Reuse(h))
  {
  }

  /**
   * Token rotation: a call reading a new non-empty token destroys the
   * handle and starts an attempt with that token; once it succeeds, its
   * handle serves the new token and callers without one.
   */
  lemma RotationReconnects(s: State, token: string, h: Handle)
    requires s.connection.Some? && token != "" && Some(token) != s.cachedToken
    ensures var e := Enter(s, Some(token));
      && e.entry == Start(Attempt(s.started, Some(token)), s.connection)
      && var st := Settle(e.state, e.entry.attempt, Connected(h)).state;
      && st.connection == Some(h) && st.cachedToken == Some(token)
      && Enter(st, Some(token)).entry == Reuse(h)
      && Enter(st, None).entry == Reuse(h)
  {
  }

  /** After a failed attempt the next call starts a fresh attempt and never joins the failed one. */
  lemma FailureLeavesReconnectable(s: State, a: Attempt, err: DriverError, token: Option<string>)
    requires s.Valid() && s.connection.None? && a.id < s.started
    ensures var st := Settle(s, a, ConnectFailed(err)).state;
      var e := Enter(st, token).entry;
      e.Start? && e.attempt != a && e.destroyed.None?
  {
  }

  /**
   * A call reading a non-empty token other than the cached one starts a
   * second attempt even while another is in flight.
   */
  lemma NewTokenWhileInFlight(s: State, token: string)
    requires s.Valid() && s.pending.Some? && token != "" && Some(token) != s.cachedToken
    ensures var e := Enter(s, Some(token));
      e.entry.Start? && e.entry.attempt != s.pending.value && e.state.pending == Some(e.entry.attempt)
  {
  }

  /** The entries of calls made one after another before any attempt settles. */
  datatype Entries = Entries(state: State, entries: seq<Entry>)

  function EnterAll(s: State, tokens: seq<Option<string>>): (r: Entries)
    ensures |r.entries| == |tokens|
    decreases |tokens|
  {
    if |tokens| == 0 then Entries(s, [])
    else
      var first := Enter(s, tokens[0]);
      var rest := EnterAll(first.state, tokens[1..]);
      Entries(rest.state, [first.entry] + rest.entries)
  }

  /** The number of entries that started an attempt. */
  function Starts(entries: seq<Entry>): (n: nat)
    ensures n <= |entries|
  {
    if |entries| == 0 then 0
    else (if entries[0].Start? then 1 else 0) + Starts(entries[1..])
  }

  /** While every token read is current, calls keep reusing the handle and the state never changes. */
  lemma {:induction false} ReuseWhileCurrent(s: State, tokens: seq<Option<string>>)
    requires s.connection.Some?
    requires forall i :: 0 <= i < |tokens| ==> TokenCurrent(tokens[i], s.cachedToken)
    ensures EnterAll(s, tokens).state == s
    ensures forall i :: 0 <= i < |tokens| ==> EnterAll(s, tokens).entries[i] == Reuse(s.connection.value)
    ensures Starts(EnterAll(s, tokens).entries) == 0
    decreases |tokens|
  {
    if |tokens| > 0 {
      ReuseWhileCurrent(s, tokens[1..]);
    }
  }

  /** While every token read is current, calls with no handle all join the attempt in flight. */
  lemma {:induction false} JoinWhileCurrent(s: State, tokens: seq<Option<string>>)
    requires s.connection.None? && s.pending.Some?
    requires forall i :: 0 <= i < |tokens| ==> TokenCurrent(tokens[i], s.cachedToken)
    ensures EnterAll(s, tokens).state == s
    ensures forall i :: 0 <= i < |tokens| ==> EnterAll(s, tokens).entries[i] == Join(s.pending.value)
    ensures Starts(EnterAll(s, tokens).entries) == 0
    decreases |tokens|
  {
    if |tokens| > 0 {
      JoinWhileCurrent(s, tokens[1..]);
    }
  }

  /**
   * Single flight when every token read is current (in particular when
   * there is no token file): of many calls made while no handle exists,
   * the first starts the only attempt and the others join it.
   */
  lemma CurrentTokensShareOneAttempt(s: State, tokens: seq<Option<string>>)
    requires s.connection.None? && s.pending.None? && |tokens| > 0
    requires forall i :: 0 <= i < |tokens| ==> TokenCurrent(tokens[i], s.cachedToken)
    ensures var r := EnterAll(s, tokens);
      && r.entries[0] == Start(Attempt(s.started, tokens[0]), None)
      && (forall i :: 1 <= i < |tokens| ==> r.entries[i] == Join(Attempt(s.started, tokens[0])))
      && Starts(r.entries) == 1
  {
    var first := Enter(s, tokens[0]);
    assert forall i :: 0 <= i < |tokens[1..]| ==> TokenCurrent(tokens[1..][i], first.state.cachedToken) by {
      forall i | 0 <= i < |tokens[1..]| ensures TokenCurrent(tokens[1..][i], first.state.cachedToken) {
        assert tokens[1..][i] == tokens[i + 1];
      }
    }
    JoinWhileCurrent(first.state, tokens[1..]);
  }

  /**
   * As written, calls that read a non-empty token other than the cached
   * one each start their own attempt, even when they carry the same
   * token: the join guard compares with the cached token, not with the
   * token of the attempt in flight.
   */
  lemma {:induction false} FreshTokensEachStart(s: State, tokens: seq<Option<string>>)
    requires s.connection.None?
    requires forall i :: 0 <= i < |tokens| ==> Truthy(tokens[i]) && tokens[i] != s.cachedToken
    ensures var r := EnterAll(s, tokens);
      && (forall i :: 0 <= i < |tokens| ==> r.entries[i] == Start(Attempt(s.started + i, tokens[i]), None))
      && Starts(r.entries) == |tokens|
    decreases |tokens|
  {
    if |tokens| > 0 {
      var first := Enter(s, tokens[0]);
      assert first.state.cachedToken == s.cachedToken && first.state.connection.None?;
      FreshTokensEachStart(first.state, tokens[1..]);
      var rest := EnterAll(first.state, tokens[1..]);
      assert EnterAll(s, tokens).entries == [first.entry] + rest.entries;
      ShiftedStarts(s.started, tokens, first.entry, rest.entries);
    }
  }

  /** Entries that start attempts numbered from `base + 1`, behind one more. */
  lemma ShiftedStarts(base: nat, tokens: seq<Option<string>>, e: Entry, rest: seq<Entry>)
    requires |tokens| > 0 && |rest| == |tokens| - 1
    requires forall i :: 0 <= i < |rest| ==> rest[i] == Start(Attempt(base + 1 + i, tokens[1..][i]), None)
    ensures forall i :: 1 <= i < |tokens| ==> ([e] + rest)[i] == Start(Attempt(base + i, tokens[i]), None)
  {
    forall i | 1 <= i < |tokens|
      ensures ([e] + rest)[i] == Start(Attempt(base + i, tokens[i]), None)
    {
      assert ([e] + rest)[i] == rest[i - 1];
      assert tokens[1..][i - 1] == tokens[i];
    }
  }

  /** Two calls with the same token right after startup start two attempts. */
  lemma DuplicateFirstAttempt(token: string)
    requires token != ""
    ensures Starts(EnterAll(Initial, [Some(token), Some(token)]).entries) == 2
  {
    FreshTokensEachStart(Initial, [Some(token), Some(token)]);
  }

  /**
   * The evidently intended entry: a call joins the attempt in flight when
   * it reads no token or the token that attempt was started with.
   */
  function EnterIntended(s: State, token: Option<string>): (r: Entered)
    ensures r.entry.Reuse? <==> s.connection.Some? && TokenCurrent(token, s.cachedToken)
    ensures r.entry.Join? <==>
      !r.entry.Reuse? && s.pending.Some? && (!Truthy(token) || token == s.pending.value.token)
    ensures !r.entry.Start? ==> r.state == s
    ensures r.entry.Reuse? ==> r.entry.handle == s.connection.value
    ensures r.entry.Join? ==> r.entry.attempt == s.pending.value && (r.entry.attempt.token == token || !Truthy(token))
    ensures r.entry.Start? ==>
      && r.entry.destroyed == s.connection
      && r.entry.attempt == Attempt(s.started, token)
      && r.state == State(None, Some(r.entry.attempt), s.cachedToken, s.started + 1)
    ensures s.Valid() ==> r.state.Valid()
  {
    if s.connection.Some? && TokenCurrent(token, s.cachedToken) then
      Entered(s, Reuse(s.connection.value))
    else if s.pending.Some? && (!Truthy(token) || token == s.pending.value.token) then
      Entered(s, Join(s.pending.value))
    else
      var a := Attempt(s.started, token);
      Entered(State(None, Some(a), s.cachedToken, s.started + 1), Start(a, s.connection))
  }

  /** With no attempt in flight the intended entry is the written one. */
  lemma IntendedAgreesWhenIdle(s: State, token: Option<string>)
    requires s.pending.None?
    ensures EnterIntended(s, token) == Enter(s, token)
  {
  }

  function EnterAllIntended(s: State, tokens: seq<Option<string>>): (r: Entries)
    ensures |r.entries| == |tokens|
    decreases |tokens|
  {
    if |tokens| == 0 then Entries(s, [])
    else
      var first := EnterIntended(s, tokens[0]);
      var rest := EnterAllIntended(first.state, tokens[1..]);
      Entries(rest.state, [first.entry] + rest.entries)
  }

  lemma {:induction false} IntendedJoinSameToken(s: State, tokens: seq<Option<string>>)
    requires s.connection.None? && s.pending.Some?
    requires forall i :: 0 <= i < |tokens| ==> tokens[i] == s.pending.value.token
    ensures EnterAllIntended(s, tokens).state == s
    ensures forall i :: 0 <= i < |tokens| ==> EnterAllIntended(s, tokens).entries[i] == Join(s.pending.value)
    ensures Starts(EnterAllIntended(s, tokens).entries) == 0
    decreases |tokens|
  {
    if |tokens| > 0 {
      IntendedJoinSameToken(s, tokens[1..]);
    }
  }

  /**
   * Single flight as intended: of many calls reading the same token while
   * no handle exists, the first starts the only attempt, whatever the token.
   */
  lemma IntendedSingleFlight(s: State, tokens: seq<Option<string>>)
    requires s.connection.None? && s.pending.None? && |tokens| > 0
    requires forall i :: 0 <= i < |tokens| ==> tokens[i] == tokens[0]
    ensures var r := EnterAllIntended(s, tokens);
      && r.entries[0] == Start(Attempt(s.started, tokens[0]), None)
      && (forall i :: 1 <= i < |tokens| ==> r.entries[i] == Join(Attempt(s.started, tokens[0])))
      && Starts(r.entries) == 1
  {
    var first := EnterIntended(s, tokens[0]);
    assert forall i :: 0 <= i < |tokens[1..]| ==> tokens[1..][i] == first.state.pending.value.token by {
      forall i | 0 <= i < |tokens[1..]| ensures tokens[1..][i] == first.state.pending.value.token {
        assert tokens[1..][i] == tokens[i + 1];
      }
    }
    IntendedJoinSameToken(first.state, tokens[1..]);
  }
}
