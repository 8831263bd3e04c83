/**
 Every moment of a run, inside callbacks and nested dispatches included: a
 machine that takes one step at a time and keeps the active dispatches on a
 stack, and the timer bound at each of its states.
 */
module EventLoopMoments {
  import opened Basics
  import opened EventLoop
  import opened EventLoopDispatch
  import opened EventLoopTimers

  /** What is active: user code with operations to go, or a dispatch with events and bodies to go. */
  datatype Frame = Acts(acts: seq<Act>) | Turns(pending: seq<Event>, bodies: seq<Script>)

  /** The innermost frame comes first. */
  datatype Machine = Machine(s: Loop, stack: seq<Frame>, trace: seq<Observation>)

  function Start(acts: seq<Act>): Machine {
    Machine(InitialLoop, [Acts(acts)], [])
  }

  function See(m: Machine, s: Loop, seen: seq<Observation>, stack: seq<Frame>): Machine {
    Machine(s, stack, m.trace + seen)
  }

  function Step(m: Machine): Machine {
    if m.stack == [] then m
    else
      var outer := m.stack[1..];
      match m.stack[0]
      case Acts(acts) =>
        if acts == [] then m.(stack := outer)
        else if acts[0].Dispatch? then
          m.(s := Disarm(m.s), stack := [Turns(Snapshot(m.s), acts[0].bodies), Acts(acts[1..])] + outer)
        else
          var (s', seen) := Perform(m.s, acts[0]);
          See(m, s', seen, [Acts(acts[1..])] + outer)
      case Turns(pending, bodies) =>
        if pending == [] then m.(stack := outer)
        else if pending[0].token !in m.s.regs then m.(stack := [Turns(pending[1..], bodies)] + outer)
        else
          var seen := [Called(pending[0], m.s.regs[pending[0].token].callback)];
          if bodies == [] then See(m, m.s, seen, [Turns(pending[1..], bodies)] + outer)
          else See(m, m.s, seen, [Acts(bodies[0].acts), Turns(pending[1..], bodies[1..])] + outer)
  }

  function Steps(m: Machine, n: nat): Machine
    decreases n
  {
    if n == 0 then m else Steps(Step(m), n - 1)
  }

  lemma {:induction false} StepsCompose(m: Machine, a: nat, b: nat)
    ensures Steps(Steps(m, a), b) == Steps(m, a + b)
    decreases a
  {
    hide Step;
    if a > 0 {
      StepsCompose(Step(m), a - 1, b);
    }
  }

  lemma {:induction false} TraceGrows(m: Machine, n: nat)
    ensures m.trace <= Steps(m, n).trace
    ensures m.stack == [] ==> Steps(m, n) == m
    decreases n
  {
    if n > 0 {
      TraceGrows(Step(m), n - 1);
    }
  }

  // ---------- the machine runs what Run defines ----------

  /** From `m` the machine gets to `m'` in some number of steps. */
  ghost predicate Reaches(m: Machine, m': Machine) {
    exists n: nat :: Steps(m, n) == m'
  }

  lemma ReachesCompose(a: Machine, b: Machine, c: Machine)
    requires Reaches(a, b) && Reaches(b, c)
    ensures Reaches(a, c)
  {
    var n: nat :| Steps(a, n) == b;
    var k: nat :| Steps(b, k) == c;
    StepsCompose(a, n, k);
  }

  lemma ReachesStep(m: Machine)
    ensures Reaches(m, Step(m))
  {
    assert Steps(m, 1) == Steps(Step(m), 0);
  }

  lemma {:induction false} RunReached(s: Loop, acts: seq<Act>, outer: seq<Frame>, trace: seq<Observation>)
    ensures var (s', seen) := Run(s, acts);
            Reaches(Machine(s, [Acts(acts)] + outer, trace), Machine(s', outer, trace + seen))
    decreases acts
  {
    hide Reaches;
    var m := Machine(s, [Acts(acts)] + outer, trace);
    ReachesStep(m);
    assert m.stack[1..] == outer;
    if acts == [] {
      assert trace + [] == trace;
    } else {
      var (s1, seen) := Perform(s, acts[0]);
      var (s2, rest) := Run(s1, acts[1..]);
      var next := Machine(s1, [Acts(acts[1..])] + outer, trace + seen);
      if acts[0].Dispatch? {
        DeliverReached(Disarm(s), Snapshot(s), acts[0].bodies, [Acts(acts[1..])] + outer, trace);
        assert Step(m).stack == [Turns(Snapshot(s), acts[0].bodies)] + ([Acts(acts[1..])] + outer);
        ReachesCompose(m, Step(m), next);
      }
      RunReached(s1, acts[1..], outer, trace + seen);
      assert (trace + seen) + rest == trace + (seen + rest);
      ReachesCompose(m, next, Machine(s2, outer, trace + (seen + rest)));
    }
  }

  lemma {:induction false} DeliverReached(
    s: Loop, pending: seq<Event>, bodies: seq<Script>, outer: seq<Frame>, trace: seq<Observation>)
    ensures var (s', turns) := Deliver(s, pending, bodies);
            Reaches(Machine(s, [Turns(pending, bodies)] + outer, trace), Machine(s', outer, trace + Flatten(turns)))
    decreases bodies, |pending|
  {
    hide Reaches;
    var m := Machine(s, [Turns(pending, bodies)] + outer, trace);
    ReachesStep(m);
    assert m.stack[1..] == outer;
    if pending == [] {
      assert trace + [] == trace;
    } else {
      var (s', turns) := Deliver(s, pending, bodies);
      var s1, bodies1 := s, bodies;
      var first := turns[0].Observations();
      if pending[0].token in s.regs && bodies != [] {
        s1, bodies1 := Run(s, bodies[0].acts).0, bodies[1..];
        var call := [Called(pending[0], s.regs[pending[0].token].callback)];
        RunReached(s, bodies[0].acts, [Turns(pending[1..], bodies1)] + outer, trace + call);
        assert Step(m).stack == [Acts(bodies[0].acts)] + ([Turns(pending[1..], bodies1)] + outer);
        assert (trace + call) + turns[0].trace == trace + first;
        ReachesCompose(m, Step(m), Machine(s1, [Turns(pending[1..], bodies1)] + outer, trace + first));
      } else {
        assert Step(m) == Machine(s, [Turns(pending[1..], bodies)] + outer, trace + first);
      }
      DeliverReached(s1, pending[1..], bodies1, outer, trace + first);
      assert turns[1..] == Deliver(s1, pending[1..], bodies1).1;
      assert (trace + first) + Flatten(turns[1..]) == trace + Flatten(turns);
      ReachesCompose(m, Machine(s1, [Turns(pending[1..], bodies1)] + outer, trace + first),
                     Machine(s', outer, trace + Flatten(turns)));
    }
  }

  /** The machine ends exactly where Run does, with the same trace. */
  lemma MachineIsRun(acts: seq<Act>)
    ensures var (s, trace) := Run(InitialLoop, acts);
            Reaches(Start(acts), Machine(s, [], trace))
  {
    RunReached(InitialLoop, acts, [], []);
    assert [Acts(acts)] + [] == [Acts(acts)];
    assert [] + Run(InitialLoop, acts).1 == Run(InitialLoop, acts).1;
  }

  /** At every moment the trace is a prefix of the run's, and the machine stops where the run does. */
  lemma MomentsBelongToRun(acts: seq<Act>, k: nat)
    ensures var (s, trace) := Run(InitialLoop, acts);
            var m := Steps(Start(acts), k);
            m.trace <= trace && (m.stack == [] ==> m.s == s && m.trace == trace)
  {
    hide Step;
    var (s, trace) := Run(InitialLoop, acts);
    MachineIsRun(acts);
    var n: nat :| Steps(Start(acts), n) == Machine(s, [], trace);
    if k <= n {
      StepsCompose(Start(acts), k, n - k);
      TraceGrows(Steps(Start(acts), k), n - k);
    } else {
      StepsCompose(Start(acts), n, k - n);
      TraceGrows(Machine(s, [], trace), k - n);
    }
  }

  // ---------- the timer bound at every moment ----------

  /** The token's events still pending in all the active dispatches. */
  function PendingIn(stack: seq<Frame>, token: int): nat {
    if stack == [] then 0
    else (if stack[0].Turns? then Pending(stack[0].pending, token) else 0) + PendingIn(stack[1..], token)
  }

  lemma PendingTop(frame: Frame, outer: seq<Frame>, token: int)
    ensures PendingIn([frame] + outer, token)
         == (if frame.Turns? then Pending(frame.pending, token) else 0) + PendingIn(outer, token)
  {
    assert ([frame] + outer)[1..] == outer;
  }

  /** Whoever registered under the token registered a timer. */
  ghost predicate OnlyTimer(trace: seq<Observation>, token: int) {
    forall r :: Registered(token, r) in trace ==> r.timer
  }

  /** Deliveries made, snapshotted and armed never exceed the arms. */
  ghost predicate Bounded(m: Machine, token: int) {
    Deliveries(m.trace, token) + PendingIn(m.stack, token) + Armed(m.s, token) <= Arms(m.trace, token)
  }

  ghost predicate Inv(m: Machine, token: int) {
    && Evolves(InitialLoop, m.trace, m.s)
    && (OnlyTimer(m.trace, token) ==> Bounded(m, token))
  }

  lemma SeeEvolves(m: Machine, seen: seq<Observation>, s': Loop)
    requires Evolves(InitialLoop, m.trace, m.s) && Evolves(m.s, seen, s')
    ensures Evolves(InitialLoop, m.trace + seen, s')
  {
    hide Evolves;
    EvolvesCompose(InitialLoop, m.trace, m.s, seen, s');
  }

  lemma TimerInTrace(m: Machine, token: int)
    requires Evolves(InitialLoop, m.trace, m.s) && OnlyTimer(m.trace, token)
    ensures token in m.s.regs ==> m.s.regs[token].timer
  {
  }

  lemma OnlyTimerPrefix(a: seq<Observation>, b: seq<Observation>, token: int)
    requires OnlyTimer(a + b, token)
    ensures OnlyTimer(a, token)
  {
    forall r | Registered(token, r) in a ensures r.timer {
      assert Registered(token, r) in a + b;
    }
  }

  lemma ActInv(m: Machine, token: int)
    requires Inv(m, token) && m.stack != [] && m.stack[0].Acts?
    ensures Inv(Step(m), token)
  {
    hide Evolves, IsDue, OnlyTimer, Snapshot, Disarm;
    var acts, outer := m.stack[0].acts, m.stack[1..];
    EvolvesValid(InitialLoop, m.trace, m.s);
    assert m.stack == [m.stack[0]] + outer;
    PendingTop(m.stack[0], outer, token);
    if acts != [] {
      if acts[0].Dispatch? {
        DispatchStock(m, token);
        DisarmEvolves(m.s);
        SeeEvolves(m, [], Disarm(m.s));
        assert m.trace + [] == m.trace;
        var turns := Turns(Snapshot(m.s), acts[0].bodies);
        assert [turns, Acts(acts[1..])] + outer == [turns] + ([Acts(acts[1..])] + outer);
        PendingTop(turns, [Acts(acts[1..])] + outer, token);
        PendingTop(Acts(acts[1..]), outer, token);
      } else {
        var (s', seen) := Perform(m.s, acts[0]);
        PerformEvolves(m.s, acts[0]);
        SeeEvolves(m, seen, s');
        PendingTop(Acts(acts[1..]), outer, token);
        CountsConcat(m.trace, seen, token);
        if OnlyTimer(m.trace + seen, token) {
          OnlyTimerPrefix(m.trace, seen, token);
          TimerInTrace(m, token);
          SimpleStock(m.s, acts[0], token);
        }
      }
    }
  }

  lemma SimpleStock(s: Loop, act: Act, token: int)
    requires s.Valid() && !act.Dispatch? && (token in s.regs ==> s.regs[token].timer)
    ensures var (s', trace) := Perform(s, act);
            Deliveries(trace, token) + Armed(s', token) <= Armed(s, token) + Arms(trace, token)
  {
    if act.SetReady? {
      SetReadyStock(s, act.token, act.events, token);
    } else {
      OtherStock(s, act, token);
    }
  }

  /** A snapshot turns an armed timer into a pending one. */
  lemma DispatchStock(m: Machine, token: int)
    requires Evolves(InitialLoop, m.trace, m.s)
    ensures OnlyTimer(m.trace, token) ==>
              Pending(Snapshot(m.s), token) + Armed(Disarm(m.s), token) == Armed(m.s, token)
  {
    if OnlyTimer(m.trace, token) {
      TimerInTrace(m, token);
      PendingInSnapshot(m.s, m.s.next, token);
    }
  }

  lemma TurnInv(m: Machine, token: int)
    requires Inv(m, token) && m.stack != [] && m.stack[0].Turns?
    ensures Inv(Step(m), token)
  {
    hide Evolves, IsDue, OnlyTimer, Armed;
    var pending, bodies, outer := m.stack[0].pending, m.stack[0].bodies, m.stack[1..];
    EvolvesValid(InitialLoop, m.trace, m.s);
    assert m.stack == [m.stack[0]] + outer;
    PendingTop(m.stack[0], outer, token);
    if pending != [] {
      PendingTop(Turns(pending[1..], bodies), outer, token);
      if pending[0].token in m.s.regs {
        var seen := [Called(pending[0], m.s.regs[pending[0].token].callback)];
        NothingEvolves(m.s, seen[0]);
        SeeEvolves(m, seen, m.s);
        CountsConcat(m.trace, seen, token);
        if OnlyTimer(m.trace + seen, token) {
          OnlyTimerPrefix(m.trace, seen, token);
        }
        if bodies != [] {
          var rest := Turns(pending[1..], bodies[1..]);
          assert [Acts(bodies[0].acts), rest] + outer == [Acts(bodies[0].acts)] + ([rest] + outer);
          PendingTop(Acts(bodies[0].acts), [rest] + outer, token);
          PendingTop(rest, outer, token);
        }
      }
    }
  }

  lemma {:induction false} StepsInv(m: Machine, token: int, n: nat)
    requires Inv(m, token)
    ensures Inv(Steps(m, n), token)
    decreases n
  {
    hide Inv, Step;
    if n > 0 {
      StepInv(m, token);
      StepsInv(Step(m), token, n - 1);
    }
  }

  lemma StepInv(m: Machine, token: int)
    requires Inv(m, token)
    ensures Inv(Step(m), token)
  {
    hide Inv;
    if m.stack != [] {
      if m.stack[0].Acts? {
        ActInv(m, token);
      } else {
        TurnInv(m, token);
      }
    }
  }

  /**
   At every moment of every run, inside nested dispatches too: the deliveries
   of a timer so far, its snapshotted events still pending in any active
   dispatch, and its armed state never exceed one plus its re-arms so far.
   */
  lemma TimerBoundAtEveryMoment(acts: seq<Act>, n: nat, token: int)
    requires OnlyTimer(Steps(Start(acts), n).trace, token)
    ensures var m := Steps(Start(acts), n);
            Deliveries(m.trace, token) + PendingIn(m.stack, token) + Armed(m.s, token) <= 1 + Rearms(m.trace, token)
  {
    var m := Steps(Start(acts), n);
    assert Inv(Start(acts), token) by {
      assert Start(acts).stack[1..] == [];
      NothingEvolves(InitialLoop, Refused);
    }
    StepsInv(Start(acts), token, n);
    IssuedOnce(m.trace, token);
  }

  /**
   The whole of it for one run: the bound holds at every moment of the machine,
   for every prefix of the trace, and at the end.
   */
  lemma TimerDeliveriesBounded(acts: seq<Act>, token: int)
    requires OnlyTimer(Run(InitialLoop, acts).1, token)
    ensures forall k: nat ::
              var m := Steps(Start(acts), k);
              Deliveries(m.trace, token) + PendingIn(m.stack, token) + Armed(m.s, token) <= 1 + Rearms(m.trace, token)
    ensures var (s, trace) := Run(InitialLoop, acts);
            && (forall n :: 0 <= n <= |trace| ==> Deliveries(trace[..n], token) <= 1 + Rearms(trace[..n], token))
            && Deliveries(trace, token) + Armed(s, token) <= 1 + Rearms(trace, token)
  {
    hide Steps, PendingIn, Armed;
    var (s, trace) := Run(InitialLoop, acts);
    forall k: nat
      ensures var m := Steps(Start(acts), k);
              Deliveries(m.trace, token) + PendingIn(m.stack, token) + Armed(m.s, token) <= 1 + Rearms(m.trace, token)
    {
      MomentsBelongToRun(acts, k);
      var seen := Steps(Start(acts), k).trace;
      assert trace == seen + trace[|seen|..];
      OnlyTimerPrefix(seen, trace[|seen|..], token);
      TimerBoundAtEveryMoment(acts, k, token);
    }
    PrefixesBounded(acts, token);
  }

  lemma PrefixesBounded(acts: seq<Act>, token: int)
    requires OnlyTimer(Run(InitialLoop, acts).1, token)
    ensures var (s, trace) := Run(InitialLoop, acts);
            && (forall n :: 0 <= n <= |trace| ==> Deliveries(trace[..n], token) <= 1 + Rearms(trace[..n], token))
            && Deliveries(trace, token) + Armed(s, token) <= 1 + Rearms(trace, token)
  {
    var (s, trace) := Run(InitialLoop, acts);
    RunEvolves(InitialLoop, acts);
    RunConserves(InitialLoop, acts, token);
    forall n | 0 <= n <= |trace|
      ensures Deliveries(trace[..n], token) <= 1 + Rearms(trace[..n], token)
    {
      assert AscendingTokens(trace[..n]);
      IssuedOnce(trace[..n], token);
    }
    IssuedOnce(trace, token);
  }
}
