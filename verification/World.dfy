/**
 Any mix of TCP clients, listeners, accepted streams, UDP and serial objects on
 one operating system, and every run of calls on them.
 */
module World {
  import opened Basics
  import opened OperatingSystem
  import opened StreamIo
  import TcpStream
  import TcpServer
  import Udp
  import UdpOpen
  import Serial

  datatype Object =
    | Client(tcp: TcpStream.Options, own: Stream)
    | Listener(listener: TcpServer.Options, server: TcpServer.Server)
    | Peer(readTimeout: nat, writeTimeout: nat, own: Stream)
    | Datagrams(udp: Udp.Options, endpoint: Udp.Udp)
    | Line(serial: Serial.Options, own: Stream)
  {
    function Handle(): Stream {
      match this
      case Client(_, s) => s
      case Listener(_, s) => s.stream
      case Peer(_, _, s) => s
      case Datagrams(_, u) => u.stream
      case Line(_, s) => s
    }

    /** As constructed: closed.  Accepted streams come from Accept alone. */
    predicate Fresh() {
      match this
      case Client(_, s) => s == CLOSED
      case Listener(_, s) => s == TcpServer.CLOSED_SERVER
      case Peer(_, _, _) => false
      case Datagrams(_, u) => u == Udp.CLOSED_UDP
      case Line(_, s) => s == CLOSED
    }

    predicate IsStream() {
      Client? || Peer? || Line?
    }

    function WriteTimeout(): nat
      requires IsStream()
    {
      match this
      case Client(o, _) => o.writeTimeout
      case Peer(_, t, _) => t
      case Line(o, _) => o.writeTimeout
    }

    function ReadTimeout(): nat
      requires IsStream()
    {
      match this
      case Client(o, _) => o.readTimeout
      case Peer(t, _, _) => t
      case Line(o, _) => o.readTimeout
    }
  }

  datatype Command =
    | Create(item: Object)
    | Open(id: Id)
    | Close(id: Id)
    | Destroy(id: Id)
    | Read(id: Id, isNull: bool, size: nat)
    | Write(id: Id, input: Input)
    | Accept(id: Id)
    | Send(id: Id, input: Input)
    | Receive(id: Id, isNull: bool, size: nat)

  datatype Outcome = Outcome(command: Command, status: Status, bytes: seq<byte>)

  datatype World = World(os: Os, objects: map<Id, Object>, nextId: Id, outcomes: seq<Outcome>)

  function Initial(script: seq<Reply>): World {
    World(Os(script, map[], {}, 0, []), map[], 0, [])
  }

  // ---------- the calls ----------

  function OpenObject(os: Os, id: Id, item: Object): (Os, Object, Status) {
    match item
    case Client(o, s) => var (os', s', status, _) := TcpStream.Open(os, id, o, s); (os', Client(o, s'), status)
    case Listener(o, s) => var (os', s', status) := TcpServer.Open(os, id, o, s); (os', Listener(o, s'), status)
    case Peer(_, _, s) => (os, item, TcpServer.OpenAccepted(s))
    case Datagrams(o, u) => var (os', u', status) := Udp.Open(os, id, o, u); (os', Datagrams(o, u'), status)
    case Line(o, s) => var (os', s', status) := Serial.Open(os, id, o, s); (os', Line(o, s'), status)
  }

  function CloseObject(os: Os, id: Id, item: Object): (Os, Object) {
    match item
    case Client(o, s) => var (os', s') := StreamIo.Close(os, id, s); (os', Client(o, s'))
    case Listener(o, s) => var (os', s') := TcpServer.CloseServer(os, id, s); (os', Listener(o, s'))
    case Peer(r, w, s) => var (os', s') := StreamIo.Close(os, id, s); (os', Peer(r, w, s'))
    case Datagrams(o, u) => var (os', u') := Udp.CloseUdp(os, id, u); (os', Datagrams(o, u'))
    case Line(o, s) => var (os', s') := StreamIo.Close(os, id, s); (os', Line(o, s'))
  }

  function Report(w: World, os: Os, id: Id, item: Object, outcome: Outcome): World {
    w.(os := os, objects := w.objects[id := item], outcomes := w.outcomes + [outcome])
  }

  /** One call; a call that does not apply to the object is not made. */
  function Do(w: World, c: Command): World {
    if c.Create? then
      if c.item.Fresh()
      then w.(objects := w.objects[w.nextId := c.item], nextId := w.nextId + 1)
      else w
    else if c.id !in w.objects then w
    else
      var item := w.objects[c.id];
      match c
      case Open(id) =>
        var (os, item', status) := OpenObject(w.os, id, item);
        Report(w, os, id, item', Outcome(c, status, []))
      case Close(id) =>
        var (os, item') := CloseObject(w.os, id, item);
        Report(w, os, id, item', Outcome(c, Ok, []))
      case Destroy(id) =>
        w.(os := CloseObject(w.os, id, item).0, objects := w.objects - {id})
      case Read(id, isNull, size) =>
        if !item.IsStream() then w
        else
          var (os, s, status, bytes) := ReadSome(w.os, id, item.own, isNull, size, item.ReadTimeout(), !item.Line?);
          Report(w, os, id, item.(own := s), Outcome(c, status, bytes))
      case Write(id, input) =>
        if !item.IsStream() then w
        else
          var (os, status) := WriteAll(w.os, id, item.own, input, item.WriteTimeout());
          Report(w, os, id, item, Outcome(c, status, []))
      case Accept(id) =>
        if !item.Listener? then w
        else
          var o := item.listener;
          var (os, status, stream) := TcpServer.Accept(w.os, id, o, item.server, w.nextId);
          var w' := Report(w, os, id, item, Outcome(c, status, []));
          if stream.None? then w'
          else w'.(objects := w'.objects[w.nextId := Peer(o.readTimeout, o.writeTimeout, stream.value)],
                   nextId := w.nextId + 1)
      case Send(id, input) =>
        if !item.Datagrams? then w
        else
          var (os, status) := Udp.Send(w.os, id, item.udp, item.endpoint, input);
          Report(w, os, id, item, Outcome(c, status, []))
      case Receive(id, isNull, size) =>
        if !item.Datagrams? then w
        else
          var (os, status, bytes) := Udp.Receive(w.os, id, item.udp, item.endpoint, isNull, size);
          Report(w, os, id, item, Outcome(c, status, bytes))
  }

  function Run(w: World, commands: seq<Command>): World
    decreases |commands|
  {
    if commands == [] then w else Run(Do(w, commands[0]), commands[1..])
  }

  // ---------- ownership over every run ----------

  /** Each object holds its own handle, nothing is held by nobody, and no address list is outstanding. */
  ghost predicate Good(w: World) {
    && Consistent(w.os) && w.os.lists == {}
    && (forall id :: id in w.objects ==> id < w.nextId && Owns(w.os, id, w.objects[id].Handle()))
    && (forall id: Id :: id !in w.objects ==> Mine(w.os, id) == map[])
  }

  /** Only the named object's state changed. */
  lemma OneObject(w: World, os': Os, id: Id, item': Object, outcomes': seq<Outcome>, flow: Flow)
    requires Good(w) && id in w.objects
    requires Tidy(w.os, os', id, item'.Handle(), flow)
    ensures Good(w.(os := os', objects := w.objects[id := item'], outcomes := outcomes'))
  {
    var w' := w.(os := os', objects := w.objects[id := item'], outcomes := outcomes');
    forall other: Id | other != id ensures Mine(os', other) == Mine(w.os, other) {
      MineOfOther(w.os, os', {id}, other, flow);
    }
    forall other | other in w'.objects ensures other < w'.nextId && Owns(os', other, w'.objects[other].Handle()) {
      if other != id {
        assert Owns(w.os, other, w.objects[other].Handle());
      }
    }
  }

  lemma OpenObjectTidy(os: Os, id: Id, item: Object)
    requires Owns(os, id, item.Handle())
    ensures var (os', item', _) := OpenObject(os, id, item);
            Tidy(os, os', id, item'.Handle())
  {
    match item
    case Client(o, s) => TcpStream.OpenTidy(os, id, o, s);
    case Listener(o, s) => TcpServer.OpenContract(os, id, o, s);
    case Peer(_, _, s) => ContainedRefl(os, {id});
    case Datagrams(o, u) => UdpOpen.OpenContract(os, id, o, u);
    case Line(o, s) => Serial.OpenContract(os, id, o, s);
  }

  lemma CloseObjectTidy(os: Os, id: Id, item: Object)
    requires Owns(os, id, item.Handle())
    ensures var (os', item') := CloseObject(os, id, item);
            Tidy(os, os', id, item'.Handle()) && item'.Handle() == CLOSED
  {
    CloseTidy(os, id, item.Handle());
  }

  lemma DestroyGood(w: World, id: Id)
    requires Good(w) && id in w.objects
    ensures Good(Do(w, Destroy(id)))
  {
    var (os', closed) := CloseObject(w.os, id, w.objects[id]);
    CloseObjectTidy(w.os, id, w.objects[id]);
    OneObject(w, os', id, closed, w.outcomes, Quiet);
    var w1 := w.(os := os', objects := w.objects[id := closed], outcomes := w.outcomes);
    var w' := Do(w, Destroy(id));
    assert Good(w1);
    forall other | other in w'.objects ensures other < w'.nextId && Owns(os', other, w'.objects[other].Handle()) {
      assert w'.objects[other] == w1.objects[other];
    }
    forall other: Id | other !in w'.objects ensures Mine(os', other) == map[] {
      assert other == id || other !in w1.objects;
    }
  }

  lemma AcceptGood(w: World, id: Id)
    requires Good(w) && id in w.objects && w.objects[id].Listener?
    ensures Good(Do(w, Accept(id)))
  {
    hide Contained, Consistent, Mine, Others, TcpServer.Accept;
    var item := w.objects[id];
    var conn := w.nextId;
    assert conn !in w.objects;
    TcpServer.AcceptContract(w.os, id, item.listener, item.server, conn);
    var (os', status, stream) := TcpServer.Accept(w.os, id, item.listener, item.server, conn);
    var w' := Do(w, Accept(id));
    forall other: Id | other != id && other != conn ensures Mine(os', other) == Mine(w.os, other) {
      MineOfOther(w.os, os', {id, conn}, other);
    }
    forall other | other in w'.objects ensures other < w'.nextId && Owns(os', other, w'.objects[other].Handle()) {
      if other != id && other != conn {
        assert Owns(w.os, other, w.objects[other].Handle());
      }
    }
  }

  lemma DoGood(w: World, c: Command)
    requires Good(w)
    ensures Good(Do(w, c))
  {
    hide Contained, Consistent, Mine, Others;
    hide ReadSome, WriteAll, OpenObject, CloseObject, TcpServer.Accept, Udp.Send, Udp.Receive;
    if c.Create? {
      CreateGood(w, c.item);
    } else if c.id in w.objects {
      var item := w.objects[c.id];
      assert Owns(w.os, c.id, item.Handle());
      match c
      case Open(id) =>
        OpenObjectTidy(w.os, id, item);
        var (os, item', status) := OpenObject(w.os, id, item);
        OneObject(w, os, id, item', w.outcomes + [Outcome(c, status, [])], Quiet);
      case Close(id) =>
        CloseObjectTidy(w.os, id, item);
        var (os, item') := CloseObject(w.os, id, item);
        OneObject(w, os, id, item', w.outcomes + [Outcome(c, Ok, [])], Quiet);
      case Destroy(id) => DestroyGood(w, id);
      case Read(id, isNull, size) =>
        if item.IsStream() {
          ReadGood(w, id, isNull, size);
        }
      case Write(id, input) =>
        if item.IsStream() {
          WriteGood(w, id, input);
        }
      case Accept(id) =>
        if item.Listener? {
          AcceptGood(w, id);
        }
      case Send(id, input) =>
        if item.Datagrams? {
          Udp.SendTidy(w.os, id, item.udp, item.endpoint, input);
          var (os, status) := Udp.Send(w.os, id, item.udp, item.endpoint, input);
          OneObject(w, os, id, item, w.outcomes + [Outcome(c, status, [])], Quiet);
        }
      case Receive(id, isNull, size) =>
        if item.Datagrams? {
          Udp.ReceiveTidy(w.os, id, item.udp, item.endpoint, isNull, size);
          var (os, status, bytes) := Udp.Receive(w.os, id, item.udp, item.endpoint, isNull, size);
          OneObject(w, os, id, item, w.outcomes + [Outcome(c, status, bytes)], Receiving);
        }
    }
  }

  lemma CreateGood(w: World, item: Object)
    requires Good(w)
    ensures Good(Do(w, Create(item)))
  {
  }

  lemma ReadGood(w: World, id: Id, isNull: bool, size: nat)
    requires Good(w) && id in w.objects && w.objects[id].IsStream()
    ensures Good(Do(w, Read(id, isNull, size)))
  {
    hide Contained, Consistent, Mine, Others, ReadSome;
    var item := w.objects[id];
    ReadSomeTidy(w.os, id, item.own, isNull, size, item.ReadTimeout(), !item.Line?);
    var (os, s, status, bytes) := ReadSome(w.os, id, item.own, isNull, size, item.ReadTimeout(), !item.Line?);
    OneObject(w, os, id, item.(own := s), w.outcomes + [Outcome(Read(id, isNull, size), status, bytes)], Receiving);
  }

  lemma WriteGood(w: World, id: Id, input: Input)
    requires Good(w) && id in w.objects && w.objects[id].IsStream()
    ensures Good(Do(w, Write(id, input)))
  {
    hide Contained, Consistent, Mine, Others, WriteAll;
    var item := w.objects[id];
    WriteAllTidy(w.os, id, item.own, input, item.WriteTimeout());
    var (os, status) := WriteAll(w.os, id, item.own, input, item.WriteTimeout());
    OneObject(w, os, id, item, w.outcomes + [Outcome(Write(id, input), status, [])], Sending);
  }

  lemma {:induction false} RunGood(w: World, commands: seq<Command>)
    requires Good(w)
    ensures Good(Run(w, commands))
    decreases |commands|
  {
    if commands != [] {
      DoGood(w, commands[0]);
      RunGood(Do(w, commands[0]), commands[1..]);
    }
  }

  /** Some open object holds the handle. */
  ghost predicate HeldBySome(w: World, h: int) {
    exists id :: id in w.objects && w.objects[id].Handle() == Stream(h, true)
  }

  /**
   Over every run of every mix of objects, whatever the system answers and
   however it reuses handle numbers: the log obeys the ownership rules, the
   live handles are exactly those of the open objects, no two objects share
   one, and every address list was freed.
   */
  lemma LiveHandlesAreOwned(script: seq<Reply>, commands: seq<Command>)
    ensures var w := Run(Initial(script), commands);
            && Replay(w.os.log) == Some(Books(w.os)) && w.os.lists == {}
            && (forall h :: h in w.os.live <==> HeldBySome(w, h))
            && (forall i, j :: i in w.objects && j in w.objects && i != j
                  && w.objects[i].Handle().open && w.objects[j].Handle().open
                  ==> w.objects[i].Handle().socket != w.objects[j].Handle().socket)
            && (w.objects == map[] ==> w.os.live == map[])
  {
    var w0 := Initial(script);
    assert Books(w0.os) == Ledger(map[], {});
    RunGood(w0, commands);
    var w := Run(w0, commands);
    forall h | h in w.os.live ensures HeldBySome(w, h) {
      var id := w.os.live[h].owner;
      assert h in Mine(w.os, id);
      assert id in w.objects && w.objects[id].Handle() == Stream(h, true);
    }
    forall h | HeldBySome(w, h) ensures h in w.os.live {
      var id :| id in w.objects && w.objects[id].Handle() == Stream(h, true);
      assert h in Mine(w.os, id);
    }
    forall i, j | i in w.objects && j in w.objects && i != j
                  && w.objects[i].Handle().open && w.objects[j].Handle().open
      ensures w.objects[i].Handle().socket != w.objects[j].Handle().socket
    {
      assert w.objects[i].Handle().socket in Mine(w.os, i);
      assert w.objects[j].Handle().socket in Mine(w.os, j);
    }
    if w.objects == map[] {
      assert forall h :: h !in w.os.live;
    }
  }

  // ---------- every sink and source over every run ----------

  /**
   The sink of a stream object is the concatenation of what its WriteAll calls
   contributed, in order: all of the input on Ok, otherwise a shorter prefix.
   */
  ghost predicate Explains(outcomes: seq<Outcome>, id: Id, sink: seq<byte>)
    decreases |outcomes|
  {
    if outcomes == [] then sink == []
    else
      var last, earlier := outcomes[|outcomes| - 1], outcomes[..|outcomes| - 1];
      if last.command.Write? && last.command.id == id
      then exists k ::
        && 0 <= k <= |sink|
        && Contributes(last.status, last.command.input, k)
        && sink[|sink| - k..] == last.command.input.Data()[..k]
        && Explains(earlier, id, sink[..|sink| - k])
      else Explains(earlier, id, sink)
  }

  /** The bytes an object's reads and receives returned, in order. */
  function Returned(outcomes: seq<Outcome>, id: Id): seq<byte> {
    if outcomes == [] then []
    else
      var last := outcomes[|outcomes| - 1];
      Returned(outcomes[..|outcomes| - 1], id)
      + (if (last.command.Read? || last.command.Receive?) && last.command.id == id then last.bytes else [])
  }

  ghost predicate Explained(w: World, id: Id) {
    var totals := Tally(w.os.log, id);
    Explains(w.outcomes, id, totals.sent) && totals.received == Returned(w.outcomes, id)
  }

  function FlowOfCommand(c: Command): Flow {
    if c.Write? then Sending else if c.Read? || c.Receive? then Receiving else Quiet
  }

  lemma OutcomeAppend(outcomes: seq<Outcome>, o: Outcome, id: Id, sink: seq<byte>)
    requires Explains(outcomes, id, sink)
    ensures !(o.command.Write? && o.command.id == id) ==> Explains(outcomes + [o], id, sink)
    ensures Returned(outcomes + [o], id) == Returned(outcomes, id)
              + (if (o.command.Read? || o.command.Receive?) && o.command.id == id then o.bytes else [])
  {
  }

  lemma ExplainsWrite(outcomes: seq<Outcome>, o: Outcome, sink: seq<byte>, k: nat)
    requires o.command.Write? && Explains(outcomes, o.command.id, sink) && Contributes(o.status, o.command.input, k)
    ensures Explains(outcomes + [o], o.command.id, sink + o.command.input.Data()[..k])
  {
  }

  /** Which objects made calls during a command, and what payload it may have moved. */
  lemma DoContained(w: World, c: Command) returns (ids: set<Id>)
    requires Good(w)
    ensures Contained(w.os, Do(w, c).os, ids, FlowOfCommand(c))
    ensures FlowOfCommand(c) != Quiet ==> ids == {c.id}
  {
    hide Contained, Consistent, Mine, Others;
    hide ReadSome, WriteAll, OpenObject, CloseObject, TcpServer.Accept, Udp.Send, Udp.Receive;
    if c.Create? {
      ids := {};
      ContainedRefl(w.os, ids);
    } else {
      ids := {c.id};
      ContainedRefl(w.os, ids, FlowOfCommand(c));
      if c.id in w.objects {
        var item := w.objects[c.id];
        assert Owns(w.os, c.id, item.Handle());
        match c
        case Open(id) => OpenObjectTidy(w.os, id, item);
        case Close(id) => CloseObjectTidy(w.os, id, item);
        case Destroy(id) => CloseObjectTidy(w.os, id, item);
        case Read(id, isNull, size) =>
          if item.IsStream() {
            ReadSomeTidy(w.os, id, item.own, isNull, size, item.ReadTimeout(), !item.Line?);
          }
        case Write(id, input) =>
          if item.IsStream() {
            WriteAllTidy(w.os, id, item.own, input, item.WriteTimeout());
          }
        case Accept(id) =>
          if item.Listener? {
            assert w.nextId !in w.objects;
            ids := {id, w.nextId};
            TcpServer.AcceptContract(w.os, id, item.listener, item.server, w.nextId);
          }
        case Send(id, input) =>
          if item.Datagrams? {
            Udp.SendTidy(w.os, id, item.udp, item.endpoint, input);
          }
        case Receive(id, isNull, size) =>
          if item.Datagrams? {
            Udp.ReceiveTidy(w.os, id, item.udp, item.endpoint, isNull, size);
          }
      }
    }
  }

  lemma DoOutcomes(w: World, c: Command) returns (o: Option<Outcome>)
    ensures var w' := Do(w, c);
            if o.None? then w'.outcomes == w.outcomes && (FlowOfCommand(c) != Quiet ==> w' == w)
            else w'.outcomes == w.outcomes + [o.value] && o.value.command == c
  {
    var w' := Do(w, c);
    if w'.outcomes == w.outcomes {
      o := None;
    } else {
      o := Some(w'.outcomes[|w.outcomes|]);
    }
  }

  /** What the object a command names gains by it. */
  lemma OwnGain(w: World, c: Command) returns (k: nat)
    requires FlowOfCommand(c) != Quiet && Do(w, c) != w
    ensures var w' := Do(w, c);
            && w'.outcomes != []
            && var o := w'.outcomes[|w'.outcomes| - 1];
            && (c.Write? ==> Contributes(o.status, c.input, k))
            && (c.Write? ==> Tally(w'.os.log, c.id).sent == Tally(w.os.log, c.id).sent + c.input.Data()[..k])
            && (!c.Write? ==> Tally(w'.os.log, c.id).received == Tally(w.os.log, c.id).received + o.bytes)
  {
    hide Tally;
    var item := w.objects[c.id];
    k := 0;
    match c
    case Write(id, input) =>
      k := WriteAllSink(w.os, id, item.own, input, item.WriteTimeout());
    case Read(id, isNull, size) =>
      ReadSomeSource(w.os, id, item.own, isNull, size, item.ReadTimeout(), !item.Line?);
    case Receive(id, isNull, size) =>
      Udp.ReceiveSource(w.os, id, item.udp, item.endpoint, isNull, size);
  }

  lemma DoExplained(w: World, c: Command, id: Id)
    requires Good(w) && Explained(w, id)
    ensures Explained(Do(w, c), id)
  {
    hide Tally, Consistent, Mine, Others;
    var w' := Do(w, c);
    var flow := FlowOfCommand(c);
    var ids := DoContained(w, c);
    var o := DoOutcomes(w, c);
    FlowTally(w.os.log, w'.os.log, id, flow);
    if flow != Quiet && c.id != id {
      TallyFrame(w.os.log, w'.os.log, ids, id);
    }
    if o.Some? {
      var sink := Tally(w.os.log, id).sent;
      OutcomeAppend(w.outcomes, o.value, id, sink);
      if flow != Quiet && c.id == id {
        var k := OwnGain(w, c);
        assert w'.outcomes[|w'.outcomes| - 1] == o.value;
        if c.Write? {
          ExplainsWrite(w.outcomes, o.value, sink, k);
        }
      }
    }
  }

  lemma {:induction false} RunExplained(w: World, commands: seq<Command>, id: Id)
    requires Good(w) && Explained(w, id)
    ensures Explained(Run(w, commands), id)
    decreases |commands|
  {
    if commands != [] {
      DoGood(w, commands[0]);
      DoExplained(w, commands[0], id);
      RunExplained(Do(w, commands[0]), commands[1..], id);
    }
  }

  /**
   Over every run and for every object: its sink is explained by its own
   WriteAll calls, and its reads returned exactly the bytes the system handed
   over, in order.
   */
  lemma PayloadIsConserved(script: seq<Reply>, commands: seq<Command>, id: Id)
    ensures var w := Run(Initial(script), commands);
            && Explains(w.outcomes, id, Tally(w.os.log, id).sent)
            && Tally(w.os.log, id).received == Returned(w.outcomes, id)
  {
    var w0 := Initial(script);
    assert Books(w0.os) == Ledger(map[], {});
    RunExplained(w0, commands, id);
  }
}
