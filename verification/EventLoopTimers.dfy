/**
 Conservation of timer deliveries, and level-triggered delivery of I/O events,
 over every run with re-entrant callbacks.
 */
module EventLoopTimers {
  import opened Basics
  import opened EventLoop
  import opened EventLoopDispatch

  // ---------- counting ----------

  function Deliveries(trace: seq<Observation>, token: int): nat {
    if trace == [] then 0
    else (if trace[0].Called? && trace[0].event.token == token then 1 else 0) + Deliveries(trace[1..], token)
  }

  /** Successful SetReady calls on the token that carry the timer bit. */
  function Rearms(trace: seq<Observation>, token: int): nat {
    if trace == [] then 0
    else (if trace[0].Readied? && trace[0].token == token && trace[0].events & TIMER_EVENT != NO_EVENTS then 1 else 0)
         + Rearms(trace[1..], token)
  }

  /** How often the token was issued: at most once, see `IssuedOnce`. */
  function Issues(trace: seq<Observation>, token: int): nat {
    if trace == [] then 0
    else (if trace[0].Registered? && trace[0].token == token then 1 else 0) + Issues(trace[1..], token)
  }

  function Arms(trace: seq<Observation>, token: int): nat {
    Issues(trace, token) + Rearms(trace, token)
  }

  function Armed(s: Loop, token: int): nat {
    if IsDue(s, token) then 1 else 0
  }

  function Pending(events: seq<Event>, token: int): nat {
    if events == [] then 0 else (if events[0].token == token then 1 else 0) + Pending(events[1..], token)
  }

  lemma {:induction false} CountsConcat(a: seq<Observation>, b: seq<Observation>, token: int)
    ensures Deliveries(a + b, token) == Deliveries(a, token) + Deliveries(b, token)
    ensures Rearms(a + b, token) == Rearms(a, token) + Rearms(b, token)
    ensures Issues(a + b, token) == Issues(a, token) + Issues(b, token)
  {
    if a == [] {
      assert a + b == b;
    } else {
      assert (a + b)[1..] == a[1..] + b;
      CountsConcat(a[1..], b, token);
    }
  }

  lemma {:induction false} PendingConcat(a: seq<Event>, b: seq<Event>, token: int)
    ensures Pending(a + b, token) == Pending(a, token) + Pending(b, token)
  {
    if a == [] {
      assert a + b == b;
    } else {
      assert (a + b)[1..] == a[1..] + b;
      PendingConcat(a[1..], b, token);
    }
  }

  lemma {:induction false} PendingInSnapshot(s: Loop, bound: int, token: int)
    ensures Pending(SnapshotBelow(s, bound), token) == if 1 <= token < bound && IsDue(s, token) then 1 else 0
    decreases bound
  {
    if bound > 1 {
      PendingInSnapshot(s, bound - 1, token);
      if IsDue(s, bound - 1) {
        PendingConcat(SnapshotBelow(s, bound - 1), [EventOf(s, bound - 1)], token);
      }
    }
  }

  // ---------- the conservation law ----------

  /**
   With `before` deliveries in stock, the trace never delivers more than the
   stock plus the arms so far, and `after` deliveries may still be in stock.
   */
  ghost predicate Conserves(trace: seq<Observation>, token: int, before: nat, after: nat) {
    && (forall n :: 0 <= n <= |trace| ==> Deliveries(trace[..n], token) <= before + Arms(trace[..n], token))
    && Deliveries(trace, token) + after <= before + Arms(trace, token)
  }

  lemma ConservesCompose(a: seq<Observation>, b: seq<Observation>, token: int, x: nat, y: nat, z: nat)
    requires Conserves(a, token, x, y) && Conserves(b, token, y, z)
    ensures Conserves(a + b, token, x, z)
  {
    var c := a + b;
    forall n | 0 <= n <= |c|
      ensures Deliveries(c[..n], token) <= x + Arms(c[..n], token)
    {
      if n <= |a| {
        assert c[..n] == a[..n];
      } else {
        assert c[..n] == a + b[..n - |a|];
        CountsConcat(a, b[..n - |a|], token);
      }
    }
    CountsConcat(a, b, token);
  }

  lemma ConservesNothing(token: int, x: nat)
    ensures Conserves([], token, x, x)
  {
  }

  lemma ConservesOne(o: Observation, token: int, x: nat, y: nat)
    requires Deliveries([o], token) + y <= x + Arms([o], token)
    ensures Conserves([o], token, x, y)
  {
  }

  /** The token belongs to a timer, or to nothing yet. */
  ghost predicate TimerToken(s: Loop, trace: seq<Observation>, token: int) {
    && (token in s.regs ==> s.regs[token].timer)
    && (forall r :: Registered(token, r) in trace ==> r.timer)
  }

  lemma TimerTokenSplit(s: Loop, a: seq<Observation>, m: Loop, b: seq<Observation>, token: int)
    requires s.Valid() && Evolves(s, a, m) && TimerToken(s, a + b, token)
    ensures TimerToken(s, a, token) && TimerToken(m, b, token)
  {
  }

  /** The operations that are not a dispatch make one observation and change the stock by it. */
  lemma SetReadyStock(s: Loop, target: int, events: Mask, token: int)
    requires s.Valid() && (token in s.regs ==> s.regs[token].timer)
    ensures var (s', trace) := Perform(s, SetReady(target, events));
            Deliveries(trace, token) + Armed(s', token) <= Armed(s, token) + Arms(trace, token)
  {
  }

  lemma OtherStock(s: Loop, act: Act, token: int)
    requires s.Valid() && !act.Dispatch? && !act.SetReady?
    ensures var (s', trace) := Perform(s, act);
            Deliveries(trace, token) + Armed(s', token) <= Armed(s, token) + Arms(trace, token)
  {
  }

  lemma {:induction false} PerformConserves(s: Loop, act: Act, token: int)
    requires s.Valid() && TimerToken(s, Perform(s, act).1, token)
    ensures Conserves(Perform(s, act).1, token, Armed(s, token), Armed(Perform(s, act).0, token))
    decreases act
  {
    hide Conserves;
    var (s', trace) := Perform(s, act);
    if act.Dispatch? {
      DisarmEvolves(s);
      var quiet := Disarm(s);
      PendingInSnapshot(s, s.next, token);
      assert Pending(Snapshot(s), token) + Armed(quiet, token) == Armed(s, token);
      DeliverConserves(quiet, Snapshot(s), act.bodies, token);
    } else {
      if act.SetReady? {
        SetReadyStock(s, act.token, act.events, token);
      } else {
        OtherStock(s, act, token);
      }
      assert trace == [trace[0]];
      ConservesOne(trace[0], token, Armed(s, token), Armed(s', token));
    }
  }

  lemma {:induction false} RunConserves(s: Loop, acts: seq<Act>, token: int)
    requires s.Valid() && TimerToken(s, Run(s, acts).1, token)
    ensures Conserves(Run(s, acts).1, token, Armed(s, token), Armed(Run(s, acts).0, token))
    decreases acts
  {
    if acts != [] {
      var (s1, first) := Perform(s, acts[0]);
      var (s2, rest) := Run(s1, acts[1..]);
      PerformEvolves(s, acts[0]);
      TimerTokenSplit(s, first, s1, rest, token);
      PerformConserves(s, acts[0], token);
      RunConserves(s1, acts[1..], token);
      ConservesCompose(first, rest, token, Armed(s, token), Armed(s1, token), Armed(s2, token));
    }
  }

  /** A turn: the call itself, then what the callback did. */
  lemma TurnConserves(turn: Turn, token: int, left: nat, x: nat, y: nat)
    requires Conserves(turn.trace, token, x, y)
    ensures Conserves(turn.Observations(), token, left + x + (if turn.event.token == token then 1 else 0), left + y)
  {
    var extra := if turn.event.token == token then 1 else 0;
    ConservesMore(turn.trace, token, x, y, left);
    if turn.called.Some? {
      var call := Called(turn.event, turn.called.value);
      ConservesOne(call, token, left + x + extra, left + x);
      ConservesCompose([call], turn.trace, token, left + x + extra, left + x, left + y);
    } else {
      ConservesMore(turn.trace, token, x, y, left + extra);
    }
  }

  /** A turn, then the rest of the delivery. */
  lemma TurnCompose(turn: Turn, rest: seq<Observation>, token: int, left: nat, x: nat, y: nat, z: nat)
    requires Conserves(turn.trace, token, x, y) && Conserves(rest, token, left + y, z)
    ensures Conserves(turn.Observations() + rest, token, left + x + (if turn.event.token == token then 1 else 0), z)
  {
    hide Conserves;
    TurnConserves(turn, token, left, x, y);
    var stock := left + x + if turn.event.token == token then 1 else 0;
    ConservesCompose(turn.Observations(), rest, token, stock, left + y, z);
  }

  /** Snapshotted events still pending count as stock, beside the armed ones. */
  lemma {:induction false} DeliverConserves(s: Loop, pending: seq<Event>, bodies: seq<Script>, token: int)
    requires s.Valid() && TimerToken(s, Flatten(Deliver(s, pending, bodies).1), token)
    ensures var (s', turns) := Deliver(s, pending, bodies);
            Conserves(Flatten(turns), token, Pending(pending, token) + Armed(s, token), Armed(s', token))
    decreases bodies, |pending|
  {
    hide Conserves, Evolves, Armed, TimerToken;
    if pending == [] {
      ConservesNothing(token, Armed(s, token));
    } else {
      var (s', turns) := Deliver(s, pending, bodies);
      var s1, bodies1 := FirstTurn(s, pending, bodies);
      var first, rest := turns[0].Observations(), Flatten(turns[1..]);
      assert Flatten(turns) == first + rest;
      EvolvesValid(s, first, s1);
      TimerTokenSplit(s, first, s1, rest, token);
      if pending[0].token in s.regs && bodies != [] {
        TimerTokenTail(s, turns[0], token);
        RunConserves(s, bodies[0].acts, token);
      } else {
        ConservesNothing(token, Armed(s, token));
      }
      DeliverConserves(s1, pending[1..], bodies1, token);
      TurnCompose(turns[0], rest, token, Pending(pending[1..], token), Armed(s, token), Armed(s1, token), Armed(s', token));
    }
  }

  lemma TimerTokenTail(s: Loop, turn: Turn, token: int)
    requires TimerToken(s, turn.Observations(), token)
    ensures TimerToken(s, turn.trace, token)
  {
  }

  lemma ConservesMore(trace: seq<Observation>, token: int, x: nat, y: nat, extra: nat)
    requires Conserves(trace, token, x, y)
    ensures Conserves(trace, token, extra + x, extra + y)
  {
  }

  lemma {:induction false} IssuedOnce(trace: seq<Observation>, token: int)
    requires AscendingTokens(trace)
    ensures Issues(trace, token) <= 1
    ensures Issues(trace, token) == 0 <==> forall r :: Registered(token, r) !in trace
  {
    if trace != [] {
      var rest := trace[1..];
      forall i, j | 0 <= i < j < |rest| && rest[i].Registered? && rest[j].Registered?
        ensures rest[i].token < rest[j].token
      {
        assert rest[i] == trace[i + 1] && rest[j] == trace[j + 1];
      }
      IssuedOnce(rest, token);
      assert trace == [trace[0]] + rest;
      forall r | Registered(token, r) in rest
        ensures !(trace[0].Registered? && trace[0].token == token)
      {
        var j :| 0 <= j < |rest| && rest[j] == Registered(token, r);
        assert trace[j + 1] == rest[j];
      }
      if trace[0].Registered? && trace[0].token == token {
        assert Registered(token, trace[0].registration) in trace;
      }
    }
  }

  // ---------- level-triggered I/O ----------

  /** Nobody unregistered the token or set its readiness. */
  ghost predicate Untouched(trace: seq<Observation>, token: int) {
    Unregistered(token) !in trace && forall events :: Readied(token, events) !in trace
  }

  /** An I/O registration the trace does not touch is the same before and after. */
  ghost predicate Stays(s: Loop, s': Loop, token: int) {
    token in s.regs && !s.regs[token].timer && token in s'.regs && s'.regs[token] == s.regs[token]
  }

  lemma UntouchedSplit(a: seq<Observation>, b: seq<Observation>, token: int)
    requires Untouched(a + b, token)
    ensures Untouched(a, token) && Untouched(b, token)
  {
  }

  lemma {:induction false} PerformStays(s: Loop, act: Act, token: int)
    requires s.Valid() && Stays(s, s, token) && Untouched(Perform(s, act).1, token)
    ensures Stays(s, Perform(s, act).0, token)
    decreases act
  {
    match act
    case Register(_, _, _) =>
    case RegisterTimer(_, _) =>
    case Unregister(t) =>
      assert Unregistered(t) in Perform(s, act).1;
    case SetReady(t, events) =>
      assert t in s.regs ==> Readied(t, events) in Perform(s, act).1;
    case Dispatch(bodies) =>
      DisarmEvolves(s);
      DeliverStays(Disarm(s), Snapshot(s), bodies, token);
  }

  lemma {:induction false} RunStays(s: Loop, acts: seq<Act>, token: int)
    requires s.Valid() && Stays(s, s, token) && Untouched(Run(s, acts).1, token)
    ensures Stays(s, Run(s, acts).0, token)
    decreases acts
  {
    if acts != [] {
      var (s1, first) := Perform(s, acts[0]);
      UntouchedSplit(first, Run(s1, acts[1..]).1, token);
      PerformEvolves(s, acts[0]);
      PerformStays(s, acts[0], token);
      RunStays(s1, acts[1..], token);
    }
  }

  lemma {:induction false} DeliverStays(s: Loop, pending: seq<Event>, bodies: seq<Script>, token: int)
    requires s.Valid() && Stays(s, s, token) && Untouched(Flatten(Deliver(s, pending, bodies).1), token)
    ensures Stays(s, Deliver(s, pending, bodies).0, token)
    decreases bodies, |pending|
  {
    if pending != [] {
      var turns := Deliver(s, pending, bodies).1;
      var s1, bodies1 := FirstTurn(s, pending, bodies);
      UntouchedSplit(turns[0].Observations(), Flatten(turns[1..]), token);
      if pending[0].token in s.regs && bodies != [] {
        UntouchedSplit([Called(turns[0].event, turns[0].called.value)], turns[0].trace, token);
        RunStays(s, bodies[0].acts, token);
      }
      DeliverStays(s1, pending[1..], bodies1, token);
    }
  }

  /** Consecutive DispatchOnce calls, each with its own callback behaviour. */
  function Rounds(s: Loop, rounds: seq<seq<Script>>): (all: seq<seq<Turn>>)
    ensures |all| == |rounds|
    decreases |rounds|
  {
    if rounds == [] then []
    else
      var (s', turns, _) := DispatchOnce(s, rounds[0]);
      [turns] + Rounds(s', rounds[1..])
  }

  lemma {:induction false} TurnTraceUntouched(turns: seq<Turn>, token: int, i: nat)
    requires Untouched(Flatten(turns), token) && i < |turns|
    ensures Untouched(turns[i].trace, token)
  {
    UntouchedSplit(turns[0].Observations(), Flatten(turns[1..]), token);
    if i == 0 {
      if turns[0].called.Some? {
        UntouchedSplit([Called(turns[0].event, turns[0].called.value)], turns[0].trace, token);
      }
    } else {
      TurnTraceUntouched(turns[1..], token, i - 1);
    }
  }

  lemma DueIsDelivered(s: Loop, bodies: seq<Script>, token: int)
    requires s.Valid() && IsDue(s, token)
    requires Untouched(Flatten(DispatchOnce(s, bodies).1), token)
    ensures exists i :: 0 <= i < |DispatchOnce(s, bodies).1|
                        && DispatchOnce(s, bodies).1[i].event == EventOf(s, token)
                        && DispatchOnce(s, bodies).1[i].called == Some(s.regs[token].callback)
  {
    DispatchDeliversSnapshot(s, bodies);
    var turns := DispatchOnce(s, bodies).1;
    var i :| 0 <= i < |Snapshot(s)| && Snapshot(s)[i].token == token;
    forall j | 0 <= j < i ensures Unregistered(token) !in turns[j].trace {
      TurnTraceUntouched(turns, token, j);
    }
    assert !UnregisteredBefore(turns, i, token);
    assert turns[i].event == EventOf(s, token) && turns[i].called == Some(s.regs[token].callback);
  }

  /**
   A ready I/O registration that nobody touches is delivered in every one of
   k consecutive dispatches, with the same nonzero mask and callback.
   */
  lemma {:induction false} LevelTriggered(s: Loop, rounds: seq<seq<Script>>, token: int, k: nat)
    requires s.Valid() && IsDue(s, token) && !s.regs[token].timer
    requires k < |rounds|
    requires forall j :: 0 <= j <= k ==> Untouched(Flatten(Rounds(s, rounds)[j]), token)
    ensures exists i :: 0 <= i < |Rounds(s, rounds)[k]|
                        && Rounds(s, rounds)[k][i].event == EventOf(s, token)
                        && Rounds(s, rounds)[k][i].event.events != NO_EVENTS
                        && Rounds(s, rounds)[k][i].called == Some(s.regs[token].callback)
    decreases k
  {
    var (s', turns, _) := DispatchOnce(s, rounds[0]);
    var all := Rounds(s, rounds);
    var later := Rounds(s', rounds[1..]);
    assert all == [turns] + later && all[0] == turns;
    if k == 0 {
      DueIsDelivered(s, rounds[0], token);
    } else {
      DisarmEvolves(s);
      DeliverEvolves(Disarm(s), Snapshot(s), rounds[0]);
      DeliverStays(Disarm(s), Snapshot(s), rounds[0], token);
      assert forall j :: 0 <= j < |later| ==> later[j] == all[j + 1];
      LevelTriggered(s', rounds[1..], token, k - 1);
      assert all[k] == later[k - 1];
    }
  }

  // ---------- an armed timer fires ----------

  lemma {:induction false} UntouchedNotRearmed(trace: seq<Observation>, token: int)
    requires Untouched(trace, token)
    ensures Rearms(trace, token) == 0
  {
    if trace != [] {
      assert trace == [trace[0]] + trace[1..];
      UntouchedSplit([trace[0]], trace[1..], token);
      UntouchedNotRearmed(trace[1..], token);
      assert trace[0].Readied? ==> Readied(trace[0].token, trace[0].events) in trace;
    }
  }

  lemma {:induction false} CalledIsDelivered(turns: seq<Turn>, i: nat)
    requires i < |turns| && turns[i].called.Some?
    ensures Deliveries(Flatten(turns), turns[i].event.token) >= 1
  {
    var token := turns[i].event.token;
    CountsConcat(turns[0].Observations(), Flatten(turns[1..]), token);
    if i == 0 {
      CountsConcat([Called(turns[0].event, turns[0].called.value)], turns[0].trace, token);
    } else {
      CalledIsDelivered(turns[1..], i - 1);
    }
  }

  /** A dispatch that does not touch a timer delivers it no more often than it was armed. */
  lemma UntouchedStock(s: Loop, bodies: seq<Script>, token: int)
    requires s.Valid() && token in s.regs && s.regs[token].timer
    requires Untouched(Perform(s, Dispatch(bodies)).1, token)
    ensures var (s', trace) := Perform(s, Dispatch(bodies));
            Deliveries(trace, token) + Armed(s', token) <= Armed(s, token)
  {
    hide Perform, IsDue;
    var act := Dispatch(bodies);
    var trace := Perform(s, act).1;
    PerformEvolves(s, act);
    assert TimerToken(s, trace, token);
    PerformConserves(s, act, token);
    UntouchedNotRearmed(trace, token);
    IssuedOnce(trace, token);
  }

  /**
   A due timer that nobody touches meanwhile is delivered exactly once by a
   dispatch, nested dispatches included, and is disarmed by it.
   */
  lemma ArmedTimerFiresOnce(s: Loop, bodies: seq<Script>, token: int)
    requires s.Valid() && IsDue(s, token) && s.regs[token].timer
    requires Untouched(Flatten(DispatchOnce(s, bodies).1), token)
    ensures var (s', turns, status) := DispatchOnce(s, bodies);
            && Deliveries(Flatten(turns), token) == 1 && !IsDue(s', token)
            && exists i :: 0 <= i < |turns| && turns[i].event == EventOf(s, token)
                           && turns[i].called == Some(s.regs[token].callback)
  {
    hide Deliver, Snapshot, Disarm, Untouched, Flatten, Deliveries;
    var (s', turns, _) := DispatchOnce(s, bodies);
    assert Perform(s, Dispatch(bodies)) == (s', Flatten(turns));
    UntouchedStock(s, bodies, token);
    DueIsDelivered(s, bodies, token);
    var i :| 0 <= i < |turns| && turns[i].event == EventOf(s, token)
             && turns[i].called == Some(s.regs[token].callback);
    CalledIsDelivered(turns, i);
  }

  /** A new timer is armed: the next dispatch delivers it once, with the timer bit, to its callback. */
  lemma NewTimerFiresOnce(s: Loop, delay: nat, callback: nat, bodies: seq<Script>)
    requires s.Valid()
    requires var armed := Perform(s, RegisterTimer(delay, Some(callback))).0;
             Untouched(Flatten(DispatchOnce(armed, bodies).1), s.next)
    ensures var armed := Perform(s, RegisterTimer(delay, Some(callback))).0;
            var (s', turns, status) := DispatchOnce(armed, bodies);
            && Deliveries(Flatten(turns), s.next) == 1 && !IsDue(s', s.next) && status == Ok
            && exists i :: 0 <= i < |turns| && turns[i].event == Event(s.next, 0, TIMER_EVENT)
                           && turns[i].called == Some(callback)
  {
    var act := RegisterTimer(delay, Some(callback));
    var armed := Perform(s, act).0;
    PerformEvolves(s, act);
    assert armed.regs[s.next] == TimerRegistration(delay, callback);
    ArmedTimerFiresOnce(armed, bodies, s.next);
    OkIffSomeCallback(armed, bodies);
  }
}
