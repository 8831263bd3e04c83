/**
 I/O registrations from the moment they are made: silent until somebody makes
 them ready, and then delivered with what they asked for.
 */
module EventLoopIo {
  import opened Basics
  import opened EventLoop
  import opened EventLoopDispatch
  import opened EventLoopTimers

  /** A token already issued that, if registered, asks for `events` and has none of them ready. */
  ghost predicate Asleep(s: Loop, token: int, events: Mask) {
    token < s.next && (token in s.regs ==> s.regs[token].events == events && s.regs[token].Due() == NO_EVENTS)
  }

  /** Nobody made the token ready for any of the events. */
  ghost predicate NeverWoken(trace: seq<Observation>, token: int, events: Mask) {
    forall ready :: Readied(token, ready) in trace ==> ready & events == NO_EVENTS
  }

  lemma NeverWokenSplit(a: seq<Observation>, b: seq<Observation>, token: int, events: Mask)
    requires NeverWoken(a + b, token, events)
    ensures NeverWoken(a, token, events) && NeverWoken(b, token, events)
  {
  }

  ghost predicate Absent(pending: seq<Event>, token: int) {
    forall i :: 0 <= i < |pending| ==> pending[i].token != token
  }

  lemma {:induction false} PerformAsleep(s: Loop, act: Act, token: int, events: Mask)
    requires s.Valid() && Asleep(s, token, events) && NeverWoken(Perform(s, act).1, token, events)
    ensures Asleep(Perform(s, act).0, token, events) && Deliveries(Perform(s, act).1, token) == 0
    decreases act
  {
    match act
    case Register(_, _, _) =>
    case RegisterTimer(_, _) =>
    case Unregister(_) =>
    case SetReady(t, ready) =>
      assert t in s.regs ==> Readied(t, ready) in Perform(s, act).1;
    case Dispatch(bodies) =>
      DisarmEvolves(s);
      SnapshotBelowSound(s, s.next);
      DeliverAsleep(Disarm(s), Snapshot(s), bodies, token, events);
  }

  lemma {:induction false} RunAsleep(s: Loop, acts: seq<Act>, token: int, events: Mask)
    requires s.Valid() && Asleep(s, token, events) && NeverWoken(Run(s, acts).1, token, events)
    ensures Asleep(Run(s, acts).0, token, events) && Deliveries(Run(s, acts).1, token) == 0
    decreases acts
  {
    if acts != [] {
      var (s1, first) := Perform(s, acts[0]);
      var rest := Run(s1, acts[1..]).1;
      NeverWokenSplit(first, rest, token, events);
      PerformEvolves(s, acts[0]);
      PerformAsleep(s, acts[0], token, events);
      RunAsleep(s1, acts[1..], token, events);
      CountsConcat(first, rest, token);
    }
  }

  lemma {:induction false} DeliverAsleep(
    s: Loop, pending: seq<Event>, bodies: seq<Script>, token: int, events: Mask)
    requires s.Valid() && Asleep(s, token, events) && Absent(pending, token)
    requires NeverWoken(Flatten(Deliver(s, pending, bodies).1), token, events)
    ensures var (s', turns) := Deliver(s, pending, bodies);
            Asleep(s', token, events) && Deliveries(Flatten(turns), token) == 0
    decreases bodies, |pending|
  {
    hide Evolves;
    if pending != [] {
      var turns := Deliver(s, pending, bodies).1;
      var s1, bodies1 := FirstTurn(s, pending, bodies);
      EvolvesValid(s, turns[0].Observations(), s1);
      NeverWokenSplit(turns[0].Observations(), Flatten(turns[1..]), token, events);
      CountsConcat(turns[0].Observations(), Flatten(turns[1..]), token);
      if turns[0].called.Some? {
        var call := [Called(turns[0].event, turns[0].called.value)];
        NeverWokenSplit(call, turns[0].trace, token, events);
        CountsConcat(call, turns[0].trace, token);
      }
      if pending[0].token in s.regs && bodies != [] {
        RunAsleep(s, bodies[0].acts, token, events);
      }
      DeliverAsleep(s1, pending[1..], bodies1, token, events);
    }
  }

  /** The registration is what was asked for, under the next token, with nothing ready; nothing else changes. */
  ghost predicate IsNewIo(s: Loop, s1: Loop, handle: int, events: Mask, callback: nat) {
    && s1.next == s.next + 1 && s1.regs.Keys == s.regs.Keys + {s.next}
    && (forall t :: t in s.regs ==> t != s.next && s1.regs[t] == s.regs[t])
    && s1.regs[s.next].handle == handle && s1.regs[s.next].events == events
    && s1.regs[s.next].callback == callback && !s1.regs[s.next].timer
    && !IsDue(s1, s.next)
  }

  lemma RegisterMakesNewIo(s: Loop, handle: int, events: Mask, callback: nat)
    requires s.Valid() && events != NO_EVENTS
    ensures var (s1, trace) := Perform(s, Register(handle, events, Some(callback)));
            IsNewIo(s, s1, handle, events, callback) && trace == [Registered(s.next, s1.regs[s.next])]
  {
    hide Deliver, Snapshot, Disarm, Flatten;
  }

  /**
   A registration becomes what it asked for, under the next token, with nothing
   ready; whatever is done afterwards, callbacks and nested dispatches included,
   it is never delivered and never due as long as nobody makes one of its
   events ready.
   */
  lemma NewIoIsSilent(s: Loop, handle: int, events: Mask, callback: nat, acts: seq<Act>)
    requires s.Valid() && events != NO_EVENTS
    ensures var s1 := Perform(s, Register(handle, events, Some(callback))).0;
            var (s', later) := Run(s1, acts);
            && IsNewIo(s, s1, handle, events, callback)
            && (NeverWoken(later, s.next, events) ==> Deliveries(later, s.next) == 0 && !IsDue(s', s.next))
  {
    hide Perform, Run, NeverWoken, Deliveries, Evolves;
    var act := Register(handle, events, Some(callback));
    var (s1, trace) := Perform(s, act);
    RegisterMakesNewIo(s, handle, events, callback);
    PerformEvolves(s, act);
    EvolvesValid(s, trace, s1);
    if NeverWoken(Run(s1, acts).1, s.next, events) {
      RunAsleep(s1, acts, s.next, events);
    }
  }

  /** The dispatch succeeds, and just one of its turns is the event's, which calls the callback. */
  ghost predicate OneTurn(turns: seq<Turn>, status: Status, event: Event, callback: nat) {
    && status == Ok
    && (exists i :: 0 <= i < |turns| && turns[i].event == event && turns[i].called == Some(callback))
    && (forall i, j :: 0 <= i < j < |turns| ==> turns[i].event.token < turns[j].event.token)
  }

  /** A due token that a dispatch does not touch gets exactly one of its turns. */
  lemma DueGetsOneTurn(s: Loop, bodies: seq<Script>, token: int)
    requires s.Valid() && IsDue(s, token) && Untouched(Flatten(DispatchOnce(s, bodies).1), token)
    ensures var (_, turns, status) := DispatchOnce(s, bodies);
            OneTurn(turns, status, EventOf(s, token), s.regs[token].callback)
  {
    hide Deliver, Snapshot, Disarm, Flatten, Untouched, UnregisteredBefore;
    DueIsDelivered(s, bodies, token);
    DispatchDeliversSnapshot(s, bodies);
    OkIffSomeCallback(s, bodies);
  }

  /**
   Once somebody makes one of its events ready, the next dispatch that does not
   touch it delivers it, in one turn, with its handle and the events that are
   both ready and asked for, to its callback.
   */
  lemma NewIoIsDelivered(s: Loop, handle: int, events: Mask, callback: nat, ready: Mask, bodies: seq<Script>)
    requires s.Valid() && ready & events != NO_EVENTS
    requires var s1 := Perform(s, Register(handle, events, Some(callback))).0;
             var s2 := Perform(s1, SetReady(s.next, ready)).0;
             Untouched(Flatten(DispatchOnce(s2, bodies).1), s.next)
    ensures var s1 := Perform(s, Register(handle, events, Some(callback))).0;
            var s2 := Perform(s1, SetReady(s.next, ready)).0;
            var (_, turns, status) := DispatchOnce(s2, bodies);
            OneTurn(turns, status, Event(s.next, handle, ready & events), callback)
  {
    hide Perform, DispatchOnce, Flatten, Untouched, IsDue, EventOf, Loop.Valid, OneTurn, Evolves;
    SomeAsked(ready, events);
    RegisterMakesNewIo(s, handle, events, callback);
    var act := Register(handle, events, Some(callback));
    var (s1, trace) := Perform(s, act);
    PerformEvolves(s, act);
    EvolvesValid(s, trace, s1);
    ReadyIsDue(s1, s.next, ready);
    DueGetsOneTurn(Perform(s1, SetReady(s.next, ready)).0, bodies, s.next);
  }

  lemma ReadyIsDue(s: Loop, token: int, ready: Mask)
    requires s.Valid() && token in s.regs && ready & s.regs[token].events != NO_EVENTS
    ensures var s' := Perform(s, SetReady(token, ready)).0;
            && s'.Valid() && IsDue(s', token) && s'.regs[token].callback == s.regs[token].callback
            && EventOf(s', token) == Event(token, s.regs[token].handle, ready & s.regs[token].events)
  {
    hide Perform;
    SetReadyEvolves(s, token, ready);
    LastReadinessWins(s, token, ready);
  }

  lemma SomeAsked(ready: Mask, events: Mask)
    requires ready & events != NO_EVENTS
    ensures events != NO_EVENTS
  {
  }
}
