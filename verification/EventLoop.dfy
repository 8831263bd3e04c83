/**
 The manual event loop on values: its state, its operations, and dispatch.

 User code is adversarial.  What a callback does in one invocation is a finite
 list of loop operations, and a nested DispatchOnce carries the lists of the
 callbacks it will invoke in turn, so a `Script` is a finite tree and every
 terminating behaviour of every set of closures is some tree.  A registration
 stores only the identity of its callback.
 */
module EventLoop {
  import opened Basics

  type Mask = bv32

  const NO_EVENTS: Mask := 0
  const TIMER_EVENT: Mask := 4

  datatype Event = Event(token: int, handle: int, events: Mask)

  datatype Registration = Registration(
    handle: int, events: Mask, callback: nat, ready: Mask, delay: nat, timer: bool)
  {
    /** The mask DispatchOnce would deliver now. */
    function Due(): Mask {
      ready & events
    }

    /** Everything about a registration that SetReady and dispatch cannot change. */
    predicate SameIdentity(other: Registration) {
      && handle == other.handle && events == other.events && callback == other.callback
      && delay == other.delay && timer == other.timer
    }
  }

  datatype Loop = Loop(next: int, regs: map<int, Registration>)
  {
    /** Tokens come from the counter, and timers listen to the timer event alone. */
    ghost predicate Valid() {
      && 1 <= next
      && (forall t :: t in regs ==> 1 <= t < next)
      && (forall t :: t in regs && regs[t].timer ==> regs[t].events == TIMER_EVENT)
    }
  }

  const InitialLoop := Loop(1, map[])

  datatype Act =
    | Register(handle: int, events: Mask, callback: Option<nat>)
    | RegisterTimer(delay: nat, callback: Option<nat>)
    | Unregister(token: int)
    | SetReady(token: int, events: Mask)
    | Dispatch(bodies: seq<Script>)

  /** What one invocation of a callback does. */
  datatype Script = Script(acts: seq<Act>)

  /** What an observer of the loop sees, in order. */
  datatype Observation =
    | Registered(token: int, registration: Registration)
    | Refused
    | Unregistered(token: int)
    | Readied(token: int, events: Mask)
    | Unknown(token: int)
    | Called(event: Event, callback: nat)

  /** One snapshot entry's turn in the second phase: whom it called, and what that did. */
  datatype Turn = Turn(event: Event, called: Option<nat>, trace: seq<Observation>)
  {
    function Observations(): seq<Observation> {
      if called.Some? then [Called(event, called.value)] + trace else trace
    }
  }

  function IoRegistration(handle: int, events: Mask, callback: nat): Registration {
    Registration(handle, events, callback, NO_EVENTS, 0, false)
  }

  function TimerRegistration(delay: nat, callback: nat): Registration {
    Registration(0, TIMER_EVENT, callback, TIMER_EVENT, delay, true)
  }

  function Insert(s: Loop, registration: Registration): Loop {
    Loop(s.next + 1, s.regs[s.next := registration])
  }

  // ---------- the first phase of DispatchOnce ----------

  predicate IsDue(s: Loop, token: int) {
    token in s.regs && s.regs[token].Due() != NO_EVENTS
  }

  function EventOf(s: Loop, token: int): Event
    requires token in s.regs
  {
    Event(token, s.regs[token].handle, s.regs[token].Due())
  }

  /** The due events of the tokens in [1, bound), in ascending order. */
  function SnapshotBelow(s: Loop, bound: int): seq<Event>
    decreases bound
  {
    if bound <= 1 then []
    else
      var earlier := SnapshotBelow(s, bound - 1);
      if IsDue(s, bound - 1) then earlier + [EventOf(s, bound - 1)] else earlier
  }

  function Snapshot(s: Loop): seq<Event> {
    SnapshotBelow(s, s.next)
  }

  /** The due timers among the tokens below `bound` are disarmed. */
  function DisarmBelow(s: Loop, bound: int): Loop {
    s.(regs := map t | t in s.regs ::
      if t < bound && s.regs[t].timer && IsDue(s, t) then s.regs[t].(ready := NO_EVENTS) else s.regs[t])
  }

  function Disarm(s: Loop): Loop {
    DisarmBelow(s, s.next)
  }

  // ---------- operations, the second phase, and whole runs ----------

  function Perform(s: Loop, act: Act): (Loop, seq<Observation>)
    decreases act
  {
    match act
    case Register(handle, events, callback) =>
      if events == NO_EVENTS || callback.None? then (s, [Refused])
      else
        var r := IoRegistration(handle, events, callback.value);
        (Insert(s, r), [Registered(s.next, r)])
    case RegisterTimer(delay, callback) =>
      if callback.None? then (s, [Refused])
      else
        var r := TimerRegistration(delay, callback.value);
        (Insert(s, r), [Registered(s.next, r)])
    case Unregister(token) =>
      (s.(regs := s.regs - {token}), [Unregistered(token)])
    case SetReady(token, events) =>
      if token in s.regs
      then (s.(regs := s.regs[token := s.regs[token].(ready := events)]), [Readied(token, events)])
      else (s, [Unknown(token)])
    case Dispatch(bodies) =>
      var (s', turns) := Deliver(Disarm(s), Snapshot(s), bodies);
      (s', Flatten(turns))
  }

  function Run(s: Loop, acts: seq<Act>): (Loop, seq<Observation>)
    decreases acts
  {
    if acts == [] then (s, [])
    else
      var (s1, first) := Perform(s, acts[0]);
      var (s2, rest) := Run(s1, acts[1..]);
      (s2, first + rest)
  }

  /** The second phase over the pending events; the i-th callback invoked runs the i-th body. */
  function Deliver(s: Loop, pending: seq<Event>, bodies: seq<Script>): (Loop, seq<Turn>)
    decreases bodies, |pending|
  {
    if pending == [] then (s, [])
    else if pending[0].token !in s.regs then
      var (s', turns) := Deliver(s, pending[1..], bodies);
      (s', [Turn(pending[0], None, [])] + turns)
    else
      var called := Some(s.regs[pending[0].token].callback);
      if bodies == [] then
        var (s', turns) := Deliver(s, pending[1..], bodies);
        (s', [Turn(pending[0], called, [])] + turns)
      else
        var (s1, trace) := Run(s, bodies[0].acts);
        var (s', turns) := Deliver(s1, pending[1..], bodies[1..]);
        (s', [Turn(pending[0], called, trace)] + turns)
  }

  function Flatten(turns: seq<Turn>): seq<Observation> {
    if turns == [] then [] else turns[0].Observations() + Flatten(turns[1..])
  }

  /** One DispatchOnce, with its status. */
  function DispatchOnce(s: Loop, bodies: seq<Script>): (Loop, seq<Turn>, Status) {
    var (s', turns) := Deliver(Disarm(s), Snapshot(s), bodies);
    (s', turns, if Snapshot(s) == [] then WouldBlock else Ok)
  }
}
