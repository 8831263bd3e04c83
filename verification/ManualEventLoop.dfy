/**
 The event loop as the object it is: a token counter and a registration map
 updated in place, with the two loops of DispatchOnce.
 */
module ManualEventLoop {
  import opened Basics
  import opened EventLoop
  import opened EventLoopDispatch

  // ---------- how far the two loops have come ----------

  /** The run has performed the first i operations and observed `trace`. */
  ghost predicate RunReached(s0: Loop, acts: seq<Act>, s: Loop, i: nat, trace: seq<Observation>)
    requires i <= |acts|
  {
    Run(s0, acts) == (Run(s, acts[i..]).0, trace + Run(s, acts[i..]).1)
  }

  lemma RunStarts(s0: Loop, acts: seq<Act>)
    ensures RunReached(s0, acts, s0, 0, [])
  {
    assert acts[0..] == acts && [] + Run(s0, acts).1 == Run(s0, acts).1;
  }

  lemma RunStep(s0: Loop, acts: seq<Act>, s: Loop, i: nat, trace: seq<Observation>)
    requires i < |acts| && RunReached(s0, acts, s, i, trace)
    ensures RunReached(s0, acts, Perform(s, acts[i]).0, i + 1, trace + Perform(s, acts[i]).1)
  {
    var (s1, observed) := Perform(s, acts[i]);
    assert acts[i..][1..] == acts[i + 1..];
    var later := Run(s1, acts[i + 1..]).1;
    assert trace + (observed + later) == (trace + observed) + later;
  }

  /** The second phase has finished the first i turns and started `k` bodies. */
  ghost predicate DeliveryReached(
    s0: Loop, events: seq<Event>, bodies: seq<Script>, s: Loop, i: nat, k: nat, turns: seq<Turn>)
    requires i <= |events| && k <= |bodies|
  {
    var (s', later) := Deliver(s, events[i..], bodies[k..]);
    Deliver(s0, events, bodies) == (s', turns + later)
  }

  lemma DeliveryStarts(s0: Loop, events: seq<Event>, bodies: seq<Script>)
    ensures DeliveryReached(s0, events, bodies, s0, 0, 0, [])
  {
    assert events[0..] == events && bodies[0..] == bodies;
    assert [] + Deliver(s0, events, bodies).1 == Deliver(s0, events, bodies).1;
  }

  lemma DeliveryStep(
    s0: Loop, events: seq<Event>, bodies: seq<Script>, s: Loop, i: nat, k: nat, turns: seq<Turn>)
    requires i < |events| && k <= |bodies| && DeliveryReached(s0, events, bodies, s, i, k, turns)
    ensures
      var token := events[i].token;
      if token !in s.regs then
        DeliveryReached(s0, events, bodies, s, i + 1, k, turns + [Turn(events[i], None, [])])
      else
        var called := Some(s.regs[token].callback);
        if k == |bodies| then
          DeliveryReached(s0, events, bodies, s, i + 1, k, turns + [Turn(events[i], called, [])])
        else
          var (s1, trace) := Run(s, bodies[k].acts);
          DeliveryReached(s0, events, bodies, s1, i + 1, k + 1, turns + [Turn(events[i], called, trace)])
  {
    var (s', later) := Deliver(s, events[i..], bodies[k..]);
    assert events[i..][1..] == events[i + 1..];
    assert k < |bodies| ==> bodies[k..][1..] == bodies[k + 1..];
    assert turns + later == (turns + [later[0]]) + later[1..];
  }

  class ManualTransportEventLoop {
    var nextToken: int
    var registrations: map<int, Registration>

    ghost function Value(): Loop
      reads this
    {
      Loop(nextToken, registrations)
    }

    ghost predicate Valid()
      reads this
    {
      Value().Valid()
    }

    constructor ()
      ensures Valid() && Value() == InitialLoop
    {
      nextToken, registrations := 1, map[];
    }

    method Register(handle: int, events: Mask, callback: Option<nat>) returns (status: Status, token: int)
      requires Valid()
      modifies this
      ensures Valid()
      ensures Value() == Perform(old(Value()), Act.Register(handle, events, callback)).0
      ensures status == if events == NO_EVENTS || callback.None? then InvalidArgument else Ok
      ensures registrations == if status == Ok
                               then old(registrations)[token := Registration(handle, events, callback.value, 0, 0, false)]
                               else old(registrations)
      ensures token == if status == Ok then old(nextToken) else 0
    {
      token := 0;
      if events == NO_EVENTS || callback.None? {
        return InvalidArgument, token;
      }
      token := nextToken;
      nextToken := nextToken + 1;
      registrations := registrations[token := IoRegistration(handle, events, callback.value)];
      return Ok, token;
    }

    method RegisterTimer(delay: nat, callback: Option<nat>) returns (status: Status, token: int)
      requires Valid()
      modifies this
      ensures Valid()
      ensures Value() == Perform(old(Value()), Act.RegisterTimer(delay, callback)).0
      ensures status == if callback.None? then InvalidArgument else Ok
      ensures registrations == if status == Ok
                               then old(registrations)[token := Registration(0, 4, callback.value, 4, delay, true)]
                               else old(registrations)
      ensures token == if status == Ok then old(nextToken) else 0
    {
      token := 0;
      if callback.None? {
        return InvalidArgument, token;
      }
      token := nextToken;
      nextToken := nextToken + 1;
      registrations := registrations[token := TimerRegistration(delay, callback.value)];
      return Ok, token;
    }

    /** Idempotent: an unknown token is no error. */
    method Unregister(token: int) returns (status: Status)
      requires Valid()
      modifies this
      ensures Valid() && status == Ok
      ensures Value() == Perform(old(Value()), Act.Unregister(token)).0
      ensures registrations == old(registrations) - {token} && nextToken == old(nextToken)
    {
      registrations := registrations - {token};
      return Ok;
    }

    method SetReady(token: int, events: Mask) returns (status: Status)
      requires Valid()
      modifies this
      ensures Valid()
      ensures Value() == Perform(old(Value()), Act.SetReady(token, events)).0
      ensures status == if token in old(registrations) then Ok else NotOpen
    {
      if token !in registrations {
        return NotOpen;
      }
      registrations := registrations[token := registrations[token].(ready := events)];
      return Ok;
    }

    /** The first loop: collect the due events in token order and disarm the due timers. */
    method TakeSnapshot() returns (events: seq<Event>)
      requires Valid()
      modifies this
      ensures events == Snapshot(old(Value()))
      ensures Value() == Disarm(old(Value()))
    {
      ghost var entry := Value();
      events := [];
      assert DisarmBelow(entry, 1).regs == entry.regs;
      for token := 1 to nextToken
        invariant nextToken == entry.next
        invariant events == SnapshotBelow(entry, token)
        invariant registrations == DisarmBelow(entry, token).regs
      {
        if token in registrations && registrations[token].Due() != NO_EVENTS {
          var registration := registrations[token];
          events := events + [Event(token, registration.handle, registration.Due())];
          if registration.timer {
            registrations := registrations[token := registration.(ready := NO_EVENTS)];
          }
        }
        assert registrations == DisarmBelow(entry, token + 1).regs;
      }
    }

    /** The body of the i-th callback invoked is the i-th script. */
    method DispatchOnce(bodies: seq<Script>) returns (status: Status, ghost turns: seq<Turn>)
      requires Valid()
      modifies this
      ensures Valid()
      ensures (Value(), turns, status) == EventLoop.DispatchOnce(old(Value()), bodies)
      decreases bodies, 0
    {
      ghost var entry := Value();
      DisarmEvolves(entry);
      var events := TakeSnapshot();
      turns := [];
      var invoked := 0;
      DeliveryStarts(Value(), events, bodies);
      for i := 0 to |events|
        invariant Valid()
        invariant 0 <= invoked <= |bodies|
        invariant DeliveryReached(Disarm(entry), events, bodies, Value(), i, invoked, turns)
      {
        DeliveryStep(Disarm(entry), events, bodies, Value(), i, invoked, turns);
        ghost var called, trace := None, [];
        if events[i].token in registrations {
          called := Some(registrations[events[i].token].callback);
          if invoked < |bodies| {
            trace := Play(bodies[invoked].acts);
            invoked := invoked + 1;
          }
        }
        turns := turns + [Turn(events[i], called, trace)];
      }
      assert events[|events|..] == [] && turns + [] == turns;
      return if events == [] then WouldBlock else Ok, turns;
    }

    /** User code running against the loop: a sequence of operations. */
    method Play(acts: seq<Act>) returns (ghost trace: seq<Observation>)
      requires Valid()
      modifies this
      ensures Valid()
      ensures (Value(), trace) == Run(old(Value()), acts)
      decreases acts, 0
    {
      trace := [];
      ghost var entry := Value();
      RunStarts(entry, acts);
      for i := 0 to |acts|
        invariant Valid()
        invariant RunReached(entry, acts, Value(), i, trace)
      {
        RunStep(entry, acts, Value(), i, trace);
        trace := trace + Perform(Value(), acts[i]).1;
        Step(acts[i]);
      }
      assert acts[|acts|..] == [] && trace + [] == trace;
    }

    method Step(act: Act)
      requires Valid()
      modifies this
      ensures Valid()
      ensures Value() == Perform(old(Value()), act).0
      decreases act, 0
    {
      match act {
        case Register(handle, events, callback) =>
          var _, _ := Register(handle, events, callback);
        case RegisterTimer(delay, callback) =>
          var _, _ := RegisterTimer(delay, callback);
        case Unregister(token) =>
          var _ := Unregister(token);
        case SetReady(token, events) =>
          var _ := SetReady(token, events);
        case Dispatch(bodies) =>
          var _, turns := DispatchOnce(bodies);
      }
    }
  }
}
