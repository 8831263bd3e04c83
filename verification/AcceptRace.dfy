/**
 TcpServer Accept in one thread against Close in another.

 Accept is split where it blocks or calls the system: entry, wait, open check,
 accept.  Close, a later Open, and the reuse of a closed number by another
 listener happen atomically in between.
 */
module AcceptRace {
  import opened Basics
  import OperatingSystem
  import TcpServer

  const INVALID := OperatingSystem.INVALID

  datatype Phase =
    | Entry
    | Waiting(listener: int)
    | Waited(listener: int)
    | Checked(listener: int)
    | Returned(status: Status, connection: Option<int>)

  /**
   `listening` are the handles that are live listening sockets.  `closed` says
   that a Close of the waiting listener completed before the accept step, and
   `reused` that its number was handed out again after that.
   */
  datatype Race = Race(
    open: bool, socket: int, listening: set<int>, phase: Phase, closed: bool, reused: bool)
  {
    predicate Pending() {
      phase.Waiting? || phase.Waited? || phase.Checked?
    }

    predicate Hits(h: int) {
      Pending() && phase.listener == h
    }
  }

  datatype Step =
    | Enter                   // connection.reset, open check, read of the field
    | Wait(value: int)        // select returns
    | Check                   // second look at the open flag
    | Accept(client: int, again: bool, configured: bool) // accept, and making the client non-blocking
    | Close
    | Reopen(handle: int)     // Open of the same server, by another thread
    | Elsewhere(handle: int)  // another listener obtains the number
    | Released(handle: int)   // another listener closes it

  function Listen(r: Race, h: int): Race {
    r.(listening := r.listening + {h}, reused := r.reused || (r.closed && r.Hits(h)))
  }

  function Do(r: Race, step: Step): Race {
    match step
    case Enter =>
      if !r.phase.Entry? then r
      else if !r.open then r.(phase := Returned(NotOpen, None))
      else r.(phase := Waiting(r.socket))
    case Wait(value) =>
      if !r.phase.Waiting? then r
      else if value == 0 then r.(phase := Returned(Timeout, None))
      else if value < 0 then r.(phase := Returned(OpenFailed, None))
      else r.(phase := Waited(r.phase.listener))
    case Check =>
      if !r.phase.Waited? then r
      else if !r.open then r.(phase := Returned(OpenFailed, None))
      else r.(phase := Checked(r.phase.listener))
    case Accept(client, again, configured) =>
      if !r.phase.Checked? then r
      else if r.phase.listener !in r.listening then r.(phase := Returned(OpenFailed, None))
      else if client < 0 then r.(phase := Returned(if again then WouldBlock else OpenFailed, None))
      else if !configured then r.(phase := Returned(OpenFailed, None))
      else r.(phase := Returned(Ok, Some(client)))
    case Close =>
      r.(open := false, socket := INVALID, listening := r.listening - {r.socket},
         closed := r.closed || r.Hits(r.socket), reused := r.reused && !r.Hits(r.socket))
    case Reopen(h) =>
      if r.open || h < 0 || h in r.listening then r else Listen(r, h).(open := true, socket := h)
    case Elsewhere(h) =>
      if h < 0 || h in r.listening then r else Listen(r, h)
    case Released(h) =>
      if h == r.socket then r
      else r.(listening := r.listening - {h}, reused := r.reused && !r.Hits(h))
  }

  function Run(r: Race, steps: seq<Step>): Race
    decreases |steps|
  {
    if steps == [] then r else Run(Do(r, steps[0]), steps[1..])
  }

  /** A call is about to be made on some server. */
  ghost predicate Initial(r: Race) {
    && r.phase.Entry? && !r.closed && !r.reused
    && (r.open <==> r.socket != INVALID) && (r.open ==> r.socket in r.listening && r.socket >= 0)
  }

  /** The listener of a pending Accept is live unless it was closed and not reused. */
  ghost predicate Inv(r: Race) {
    && (r.open <==> r.socket != INVALID) && (r.open ==> r.socket in r.listening && r.socket >= 0)
    && (r.phase.Entry? ==> !r.closed && !r.reused)
    && (r.Pending() && !r.closed ==> r.socket == r.phase.listener)
    && (r.Pending() ==> r.phase.listener >= 0 && (r.phase.listener in r.listening <==> !r.closed || r.reused))
    && (r.phase.Returned? ==>
          && (r.phase.status == Ok <==> r.phase.connection.Some?)
          && (r.phase.status == Ok ==> !r.closed || r.reused))
  }

  lemma DoInv(r: Race, step: Step)
    requires Inv(r)
    ensures Inv(Do(r, step))
  {
  }

  lemma {:induction false} RunInv(r: Race, steps: seq<Step>)
    requires Inv(r)
    ensures Inv(Run(r, steps))
    decreases |steps|
  {
    if steps != [] {
      DoInv(r, steps[0]);
      RunInv(Do(r, steps[0]), steps[1..]);
    }
  }

  /** Accept with nobody in between: its four steps, fed with the same replies. */
  function Alone(socket: int, select': int, client: int, again: bool, configured: bool): Phase {
    var r := Race(true, socket, {socket}, Entry, false, false);
    Do(Do(Do(Do(r, Enter), Wait(select')), Check), Accept(client, again, configured)).phase
  }

  /** The split Accept and the sequential one agree on every three replies of the system. */
  lemma AloneIsSequential(
    os: OperatingSystem.Os, id: OperatingSystem.Id, conn: OperatingSystem.Id, options: TcpServer.Options,
    s: TcpServer.Server, r0: OperatingSystem.Reply, r1: OperatingSystem.Reply, r2: OperatingSystem.Reply)
    requires s.stream.open && s.stream.socket >= 0
    ensures var (_, status, stream) := TcpServer.Accept(os.(script := [r0, r1, r2]), id, options, s, conn);
            var client := if 0 <= r1.value && r1.value !in os.live then r1.value else INVALID;
            Alone(s.stream.socket, r0.value, client, r1.again, r2.value == 0)
              == Returned(status, if stream.Some? then Some(stream.value.socket) else None)
  {
    var os0 := os.(script := [r0, r1, r2]);
    var (os1, value) := OperatingSystem.Select(os0, id, s.stream.socket, options.acceptTimeout);
    assert os1.script == [r1, r2] && value == r0.value && os1.live == os.live;
    if value > 0 {
      var os2 := OperatingSystem.Note(os1, OperatingSystem.Used(id, s.stream.socket, OperatingSystem.Accepted));
      var (os3, client) := OperatingSystem.Acquire(os2, conn, None);
      assert os3.script == [r2];
    }
  }

  /**
   Under every interleaving: a Close that completes before the accept step
   makes Accept fail with a null connection, unless the listener's number was
   reused meanwhile.
   */
  lemma CloseBeatsAccept(r: Race, steps: seq<Step>)
    requires Initial(r)
    ensures var end := Run(r, steps);
            end.phase.Returned? && end.closed && !end.reused ==>
              end.phase.status != Ok && end.phase.connection.None?
    ensures var end := Run(r, steps);
            end.phase.Returned? ==> (end.phase.status == Ok <==> end.phase.connection.Some?)
  {
    RunInv(r, steps);
  }

  /**
   The condition is exact: from any reachable state before the accept step,
   that step can succeed if and only if the listener was not closed or its
   number was reused.
   */
  lemma AcceptCanSucceedIff(r: Race, steps: seq<Step>)
    requires Initial(r) && Run(r, steps).phase.Checked?
    ensures var now := Run(r, steps);
            (exists client, again, configured ::
               Do(now, Accept(client, again, configured)).phase == Returned(Ok, Some(client)))
            <==> !now.closed || now.reused
  {
    RunInv(r, steps);
    var now := Run(r, steps);
    assert Inv(now);
    if !now.closed || now.reused {
      assert Do(now, Accept(0, false, true)).phase == Returned(Ok, Some(0));
    }
  }

  /** The exception is real: a reused number is accepted from after Close. */
  lemma ReusedListenerIsAccepted()
    ensures var r := Race(true, 3, {3}, Entry, false, false);
            var end := Run(r, [Enter, Wait(1), Check, Close, Elsewhere(3), Accept(9, false, true)]);
            Initial(r) && end.phase == Returned(Ok, Some(9)) && end.closed && end.reused
  {
  }

  /** Accept is still before its second look at the open flag, or has failed. */
  ghost predicate Shut(r: Race) {
    && !r.open
    && (r.phase.Waiting? || r.phase.Waited?
        || (r.phase.Returned? && r.phase.status != Ok && r.phase.connection.None?))
  }

  lemma {:induction false} ShutStays(r: Race, steps: seq<Step>)
    requires Shut(r) && forall i :: 0 <= i < |steps| ==> !steps[i].Reopen?
    ensures Shut(Run(r, steps))
    decreases |steps|
  {
    if steps != [] {
      assert Shut(Do(r, steps[0]));
      ShutStays(Do(r, steps[0]), steps[1..]);
    }
  }

  /**
   What the second look at the open flag is for: after a Close that completes
   while Accept is waiting, and until this server is opened again, Accept never
   gets past that look and can only fail, whatever numbers are reused.
   */
  lemma CloseWhileWaiting(r: Race, before: seq<Step>, after: seq<Step>)
    requires var m := Run(r, before); m.phase.Waiting? || m.phase.Waited?
    requires forall i :: 0 <= i < |after| ==> !after[i].Reopen?
    ensures var end := Run(Do(Run(r, before), Close), after);
            && !end.phase.Checked?
            && (end.phase.Returned? ==> end.phase.status != Ok && end.phase.connection.None?)
  {
    ShutStays(Do(Run(r, before), Close), after);
  }
}
