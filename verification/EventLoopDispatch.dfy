/**
 What one DispatchOnce delivers, whatever the callbacks do meanwhile.
 */
module EventLoopDispatch {
  import opened Basics
  import opened EventLoop

  // ---------- the snapshot ----------

  /** The entry-time snapshot, described without an algorithm. */
  ghost predicate IsSnapshot(s: Loop, events: seq<Event>) {
    && (forall i, j :: 0 <= i < j < |events| ==> events[i].token < events[j].token)
    && (forall i :: 0 <= i < |events| ==> IsDue(s, events[i].token) && events[i] == EventOf(s, events[i].token))
    && (forall t :: IsDue(s, t) ==> exists i :: 0 <= i < |events| && events[i].token == t)
  }

  ghost predicate AscendingDue(s: Loop, events: seq<Event>, bound: int) {
    && (forall i, j :: 0 <= i < j < |events| ==> events[i].token < events[j].token)
    && (forall i :: 0 <= i < |events| ==>
          1 <= events[i].token < bound && IsDue(s, events[i].token) && events[i] == EventOf(s, events[i].token))
  }

  lemma {:induction false} SnapshotBelowSound(s: Loop, bound: int)
    ensures AscendingDue(s, SnapshotBelow(s, bound), bound)
    decreases bound
  {
    if bound > 1 {
      SnapshotBelowSound(s, bound - 1);
    }
  }

  lemma {:induction false} SnapshotBelowComplete(s: Loop, bound: int, token: int)
    requires 1 <= token < bound && IsDue(s, token)
    ensures exists i :: 0 <= i < |SnapshotBelow(s, bound)| && SnapshotBelow(s, bound)[i].token == token
    decreases bound
  {
    var e := SnapshotBelow(s, bound);
    if token == bound - 1 {
      assert e[|e| - 1].token == token;
    } else {
      SnapshotBelowComplete(s, bound - 1, token);
      var i :| 0 <= i < |SnapshotBelow(s, bound - 1)| && SnapshotBelow(s, bound - 1)[i].token == token;
      assert e[i].token == token;
    }
  }

  lemma SnapshotMeaning(s: Loop)
    requires s.Valid()
    ensures IsSnapshot(s, Snapshot(s))
  {
    SnapshotBelowSound(s, s.next);
    forall t | IsDue(s, t)
      ensures exists i :: 0 <= i < |Snapshot(s)| && Snapshot(s)[i].token == t
    {
      SnapshotBelowComplete(s, s.next, t);
      var i :| 0 <= i < |SnapshotBelow(s, s.next)| && SnapshotBelow(s, s.next)[i].token == t;
      assert Snapshot(s)[i].token == t;
    }
  }

  // ---------- how a run changes the registrations ----------

  function Registrations(trace: seq<Observation>): nat {
    if trace == [] then 0 else (if trace[0].Registered? then 1 else 0) + Registrations(trace[1..])
  }

  lemma {:induction false} RegistrationsConcat(a: seq<Observation>, b: seq<Observation>)
    ensures Registrations(a + b) == Registrations(a) + Registrations(b)
  {
    if a == [] {
      assert a + b == b;
    } else {
      assert (a + b)[1..] == a[1..] + b;
      RegistrationsConcat(a[1..], b);
    }
  }

  /** Every registration gets a larger token than all the earlier ones. */
  ghost predicate AscendingTokens(trace: seq<Observation>) {
    forall i, j :: 0 <= i < j < |trace| && trace[i].Registered? && trace[j].Registered? ==>
      trace[i].token < trace[j].token
  }

  /**
   Tokens below the counter only disappear, and exactly by being unregistered;
   survivors keep their identity; new tokens are at or above the counter.
   */
  ghost predicate Evolves(s: Loop, trace: seq<Observation>, s': Loop) {
    && s'.Valid()
    && s'.next == s.next + Registrations(trace)
    && (forall t :: t < s.next ==> (t in s'.regs <==> t in s.regs && Unregistered(t) !in trace))
    && (forall t :: t in s.regs && t in s'.regs ==> s.regs[t].SameIdentity(s'.regs[t]))
    && (forall t, r :: Registered(t, r) in trace ==> s.next <= t < s'.next)
    && (forall t :: s.next <= t && t in s'.regs ==>
          exists r :: Registered(t, r) in trace && r.SameIdentity(s'.regs[t]))
    && AscendingTokens(trace)
  }

  lemma AscendingConcat(s: Loop, a: seq<Observation>, m: Loop, b: seq<Observation>, s': Loop)
    requires Evolves(s, a, m) && Evolves(m, b, s')
    ensures AscendingTokens(a + b)
  {
  }

  lemma NewTokensCompose(s: Loop, a: seq<Observation>, m: Loop, b: seq<Observation>, s': Loop, t: int)
    requires Evolves(s, a, m) && Evolves(m, b, s') && s.next <= t && t in s'.regs
    ensures exists r :: Registered(t, r) in a + b && r.SameIdentity(s'.regs[t])
  {
    if t < m.next {
      var r :| Registered(t, r) in a && r.SameIdentity(m.regs[t]);
      assert Registered(t, r) in a + b && r.SameIdentity(s'.regs[t]);
    } else {
      var r :| Registered(t, r) in b && r.SameIdentity(s'.regs[t]);
      assert Registered(t, r) in a + b;
    }
  }

  lemma EvolvesCompose(s: Loop, a: seq<Observation>, m: Loop, b: seq<Observation>, s': Loop)
    requires s.Valid() && Evolves(s, a, m) && Evolves(m, b, s')
    ensures Evolves(s, a + b, s')
  {
    hide Registrations, AscendingTokens;
    RegistrationsConcat(a, b);
    AscendingConcat(s, a, m, b, s');
    forall t | s.next <= t && t in s'.regs
      ensures exists r :: Registered(t, r) in a + b && r.SameIdentity(s'.regs[t])
    {
      NewTokensCompose(s, a, m, b, s', t);
    }
    assert forall o :: o in a + b <==> o in a || o in b;
  }

  lemma InsertEvolves(s: Loop, r: Registration)
    requires s.Valid() && (r.timer ==> r.events == TIMER_EVENT)
    ensures Evolves(s, [Registered(s.next, r)], Insert(s, r))
  {
  }

  lemma SetReadyEvolves(s: Loop, token: int, ready: Mask)
    requires s.Valid()
    ensures Evolves(s, Perform(s, SetReady(token, ready)).1, Perform(s, SetReady(token, ready)).0)
  {
  }

  lemma UnregisterEvolves(s: Loop, token: int)
    requires s.Valid()
    ensures Evolves(s, Perform(s, Unregister(token)).1, Perform(s, Unregister(token)).0)
  {
  }

  /** Skipping a turn changes nothing, and neither does a refusal or a call as such. */
  lemma NothingEvolves(s: Loop, o: Observation)
    requires s.Valid() && (o.Called? || o.Refused?)
    ensures Evolves(s, [], s) && Evolves(s, [o], s)
  {
  }

  lemma DisarmEvolves(s: Loop)
    requires s.Valid()
    ensures Evolves(s, [], Disarm(s))
  {
  }

  lemma {:induction false} PerformEvolves(s: Loop, act: Act)
    requires s.Valid()
    ensures Evolves(s, Perform(s, act).1, Perform(s, act).0)
    decreases act
  {
    hide Evolves;
    NothingEvolves(s, Refused);
    match act
    case Register(handle, events, callback) =>
      if events != NO_EVENTS && callback.Some? {
        InsertEvolves(s, IoRegistration(handle, events, callback.value));
      }
    case RegisterTimer(delay, callback) =>
      if callback.Some? {
        InsertEvolves(s, TimerRegistration(delay, callback.value));
      }
    case Unregister(token) =>
      UnregisterEvolves(s, token);
    case SetReady(token, events) =>
      SetReadyEvolves(s, token, events);
    case Dispatch(bodies) =>
      DisarmEvolves(s);
      EvolvesValid(s, [], Disarm(s));
      DeliverEvolves(Disarm(s), Snapshot(s), bodies);
      var (s', turns) := Deliver(Disarm(s), Snapshot(s), bodies);
      EvolvesCompose(s, [], Disarm(s), Flatten(turns), s');
      assert [] + Flatten(turns) == Flatten(turns);
  }

  lemma {:induction false} RunEvolves(s: Loop, acts: seq<Act>)
    requires s.Valid()
    ensures Evolves(s, Run(s, acts).1, Run(s, acts).0)
    decreases acts
  {
    hide Evolves;
    NothingEvolves(s, Refused);
    if acts != [] {
      var (s1, first) := Perform(s, acts[0]);
      PerformEvolves(s, acts[0]);
      EvolvesValid(s, first, s1);
      RunEvolves(s1, acts[1..]);
      var (s2, rest) := Run(s1, acts[1..]);
      EvolvesCompose(s, first, s1, rest, s2);
    }
  }

  lemma {:induction false} DeliverEvolves(s: Loop, pending: seq<Event>, bodies: seq<Script>)
    requires s.Valid()
    ensures Evolves(s, Flatten(Deliver(s, pending, bodies).1), Deliver(s, pending, bodies).0)
    decreases bodies, |pending|
  {
    hide Evolves;
    NothingEvolves(s, Refused);
    if pending != [] {
      var (s', turns) := Deliver(s, pending, bodies);
      var s1, bodies1 := s, bodies;
      if pending[0].token in s.regs && bodies != [] {
        RunEvolves(s, bodies[0].acts);
        s1, bodies1 := Run(s, bodies[0].acts).0, bodies[1..];
      }
      assert s1.Valid() by { EvolvesValid(s, turns[0].trace, s1); }
      DeliverEvolves(s1, pending[1..], bodies1);
      assert turns[1..] == Deliver(s1, pending[1..], bodies1).1;
      TurnEvolves(s, turns[0], s1);
      EvolvesCompose(s, turns[0].Observations(), s1, Flatten(turns[1..]), s');
    }
  }

  lemma EvolvesValid(s: Loop, trace: seq<Observation>, s': Loop)
    requires Evolves(s, trace, s')
    ensures s'.Valid()
  {
  }

  lemma TurnEvolves(s: Loop, turn: Turn, s1: Loop)
    requires s.Valid() && Evolves(s, turn.trace, s1)
    ensures Evolves(s, turn.Observations(), s1)
  {
  }

  // ---------- turns ----------

  /** The state and the bodies after the first turn of a delivery. */
  lemma FirstTurn(s: Loop, pending: seq<Event>, bodies: seq<Script>) returns (s1: Loop, bodies1: seq<Script>)
    requires s.Valid() && pending != []
    ensures var (s', turns) := Deliver(s, pending, bodies);
            && |turns| > 0
            && turns[0].event == pending[0]
            && Deliver(s1, pending[1..], bodies1) == (s', turns[1..])
            && Evolves(s, turns[0].Observations(), s1)
            && (if pending[0].token in s.regs && bodies != []
                then bodies1 == bodies[1..] && Run(s, bodies[0].acts) == (s1, turns[0].trace)
                else bodies1 == bodies && s1 == s && turns[0].trace == [])
  {
    hide Evolves;
    var (s', turns) := Deliver(s, pending, bodies);
    s1, bodies1 := s, bodies;
    if pending[0].token in s.regs && bodies != [] {
      s1, bodies1 := Run(s, bodies[0].acts).0, bodies[1..];
      RunEvolves(s, bodies[0].acts);
    }
    assert turns == [turns[0]] + Deliver(s1, pending[1..], bodies1).1;
    NothingEvolves(s, Refused);
    TurnEvolves(s, turns[0], s1);
  }

  /** Some turn before the i-th unregistered `token`. */
  ghost predicate UnregisteredBefore(turns: seq<Turn>, i: nat, token: int)
    requires i <= |turns|
  {
    exists j :: 0 <= j < i && Unregistered(token) in turns[j].trace
  }

  lemma {:induction false} DeliverTurns(s: Loop, pending: seq<Event>, bodies: seq<Script>)
    requires s.Valid()
    requires forall i :: 0 <= i < |pending| ==> pending[i].token < s.next
    ensures var turns := Deliver(s, pending, bodies).1;
            && |turns| == |pending|
            && forall i :: 0 <= i < |turns| ==>
                 && turns[i].event == pending[i]
                 && (turns[i].called.Some? <==>
                       pending[i].token in s.regs && !UnregisteredBefore(turns, i, pending[i].token))
                 && (turns[i].called.Some? ==> turns[i].called.value == s.regs[pending[i].token].callback)
    decreases bodies, |pending|
  {
    if pending != [] {
      var turns := Deliver(s, pending, bodies).1;
      var s1, bodies1 := FirstTurn(s, pending, bodies);
      DeliverTurns(s1, pending[1..], bodies1);
      var rest := turns[1..];
      forall i | 1 <= i < |turns|
        ensures turns[i].event == pending[i]
        ensures turns[i].called.Some? <==>
                  pending[i].token in s.regs && !UnregisteredBefore(turns, i, pending[i].token)
        ensures turns[i].called.Some? ==> turns[i].called.value == s.regs[pending[i].token].callback
      {
        var token := pending[i].token;
        assert turns[i] == rest[i - 1] && pending[i] == pending[1..][i - 1];
        ShiftUnregistered(turns, i, token);
      }
    }
  }

  lemma ShiftUnregistered(turns: seq<Turn>, i: nat, token: int)
    requires 1 <= i <= |turns|
    ensures UnregisteredBefore(turns, i, token) <==>
              Unregistered(token) in turns[0].trace || UnregisteredBefore(turns[1..], i - 1, token)
  {
  }

  /**
   The calls of one DispatchOnce are exactly the entry-time snapshot minus the
   tokens unregistered in earlier turns.  Every call reaches the registration
   that was snapshotted, and nothing registered meanwhile is in the snapshot.
   */
  lemma DispatchDeliversSnapshot(s: Loop, bodies: seq<Script>)
    requires s.Valid()
    ensures var (s', turns, status) := DispatchOnce(s, bodies);
            && IsSnapshot(s, Snapshot(s))
            && |turns| == |Snapshot(s)|
            && (forall i :: 0 <= i < |turns| ==>
                  && turns[i].event == Snapshot(s)[i]
                  && turns[i].event.token in s.regs
                  && (turns[i].called.Some? <==> !UnregisteredBefore(turns, i, turns[i].event.token))
                  && (turns[i].called.Some? ==>
                        turns[i].called.value == s.regs[turns[i].event.token].callback))
            && (forall t, r :: Registered(t, r) in Flatten(turns) ==> t >= s.next && t !in s.regs)
  {
    SnapshotMeaning(s);
    SnapshotBelowSound(s, s.next);
    DeliverTurns(Disarm(s), Snapshot(s), bodies);
    DeliverEvolves(Disarm(s), Snapshot(s), bodies);
  }

  /** A successful SetReady replaces what is due for its token and nothing else. */
  lemma LastReadinessWins(s: Loop, token: int, events: Mask)
    requires token in s.regs
    ensures var s' := Perform(s, SetReady(token, events)).0;
            && s'.regs.Keys == s.regs.Keys
            && s'.regs[token].Due() == events & s.regs[token].events
            && (forall t :: t in s.regs && t != token ==> s'.regs[t].Due() == s.regs[t].Due())
  {
    hide Deliver, Snapshot, Disarm, Flatten, Insert;
  }

  /** DispatchOnce reports Ok exactly when it invoked a callback. */
  lemma OkIffSomeCallback(s: Loop, bodies: seq<Script>)
    requires s.Valid()
    ensures var (s', turns, status) := DispatchOnce(s, bodies);
            && (status == Ok <==> exists i :: 0 <= i < |turns| && turns[i].called.Some?)
            && (status != Ok ==> status == WouldBlock && s' == Disarm(s) == s)
  {
    DispatchDeliversSnapshot(s, bodies);
    var (s', turns, status) := DispatchOnce(s, bodies);
    if turns != [] {
      assert !UnregisteredBefore(turns, 0, turns[0].event.token);
      assert turns[0].called.Some?;
    } else {
      assert forall t :: !IsDue(s, t);
      assert Disarm(s).regs == s.regs;
    }
  }

  /**
   Over every run from the fresh loop no token is issued twice, the counter is
   one more than the registrations made, and every live token was issued.
   */
  lemma TokensNeverReused(acts: seq<Act>)
    ensures var (s, trace) := Run(InitialLoop, acts);
            && s.Valid()
            && s.next == 1 + Registrations(trace)
            && AscendingTokens(trace)
            && (forall t, r :: Registered(t, r) in trace ==> 1 <= t < s.next)
            && (forall t :: t in s.regs ==> exists r :: Registered(t, r) in trace)
  {
    RunEvolves(InitialLoop, acts);
  }
}
