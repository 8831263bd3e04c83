/**
 The transports as objects: fields updated in place over one shared operating
 system, with the candidate, bind and write loops written as loops.
 */
module Transports {
  import opened Basics
  import opened Buffers
  import opened OperatingSystem
  import opened StreamIo
  import TcpStream
  import TcpServer
  import Udp
  import UdpOpen
  import Serial

  class System {
    var state: Os

    constructor (script: seq<Reply>)
      ensures state == Os(script, map[], {}, 0, [])
      ensures Consistent(state)
    {
      state := Os(script, map[], {}, 0, []);
    }
  }

  /** The write loop of TCP and serial streams. */
  method SendAll(system: System, id: Id, h: int, input: seq<byte>, timeout: nat) returns (status: Status)
    modifies system
    ensures (system.state, status) == WriteLoop(old(system.state), id, h, input, 0, timeout)
  {
    var written := 0;
    while written < |input|
      invariant written <= |input|
      invariant WriteLoop(system.state, id, h, input, written, timeout)
             == WriteLoop(old(system.state), id, h, input, 0, timeout)
      decreases |system.state.script|
    {
      var (waited, value) := Select(system.state, id, h, timeout);
      if value <= 0 {
        system.state := waited;
        return WaitStatus(value, false);
      }
      var (after, sent) := Send(waited, id, h, input[written..]);
      system.state := after;
      match sent {
        case Count(n) =>
          if n == 0 {
            return WriteFailed;
          }
          written := written + n;
        case Again =>
        case Failed =>
          return WriteFailed;
      }
    }
    return Ok;
  }

  /** The read path of TCP and serial streams; the caller stores the stream's new state. */
  method ReadInto(
    system: System, id: Id, s: Stream, output: array?<byte>, size: nat, timeout: nat, tcp: bool)
    returns (status: Status, bytesRead: nat, s': Stream)
    requires output != null ==> size <= output.Length
    modifies system, output
    ensures var (os', s'', status', bytes) := ReadSome(old(system.state), id, s, output == null, size, timeout, tcp);
            && system.state == os' && s' == s'' && status == status' && bytesRead == |bytes|
            && (bytes != [] ==> output != null && bytesRead <= output.Length && output[..bytesRead] == bytes)
    ensures output != null ==> forall i :: bytesRead <= i < output.Length ==> output[i] == old(output[i])
  {
    if !s.open {
      return NotOpen, 0, s;
    }
    if output == null && size != 0 {
      return InvalidArgument, 0, s;
    }
    if size == 0 {
      return Ok, 0, s;
    }
    var (waited, value) := Select(system.state, id, s.socket, timeout);
    system.state := waited;
    if value <= 0 {
      return WaitStatus(value, true), 0, s;
    }
    var (after, receipt) := Receive(system.state, id, s.socket, size);
    system.state := after;
    match receipt {
      case Data(bytes) =>
        if bytes == [] && tcp {
          var (closed, hungUp) := Close(system.state, id, s);
          system.state := closed;
          return ConnectionClosed, 0, hungUp;
        }
        CopyOut(output, bytes);
        return Ok, |bytes|, s;
      case NoData =>
        return WouldBlock, 0, s;
      case Broken =>
        return ReadFailed, 0, s;
    }
  }

  // ---------- TCP client ----------

  /** The candidate loop has made `attempts` at the first i addresses. */
  ghost predicate TcpReached(
    os0: Os, id: Id, addresses: seq<Address>, timeout: nat,
    os: Os, i: nat, status: Status, attempts: seq<TcpStream.Attempt>)
    requires i <= |addresses|
  {
    var (os', s, final, later) := TcpStream.TryAll(os, id, addresses[i..], timeout, status);
    TcpStream.TryAll(os0, id, addresses, timeout, OpenFailed) == (os', s, final, attempts + later)
  }

  lemma TcpStarts(os0: Os, id: Id, addresses: seq<Address>, timeout: nat)
    ensures TcpReached(os0, id, addresses, timeout, os0, 0, OpenFailed, [])
  {
    assert addresses[0..] == addresses;
    var attempts := TcpStream.TryAll(os0, id, addresses, timeout, OpenFailed).3;
    assert [] + attempts == attempts;
  }

  lemma TcpStep(
    os0: Os, id: Id, addresses: seq<Address>, timeout: nat,
    os: Os, i: nat, status: Status, attempts: seq<TcpStream.Attempt>)
    requires i < |addresses| && TcpReached(os0, id, addresses, timeout, os, i, status, attempts)
    ensures
      var (os1, attempt) := TcpStream.TryAddress(os, id, addresses[i], timeout);
      if attempt.Kept? then
        TcpStream.TryAll(os0, id, addresses, timeout, OpenFailed)
          == (os1, Stream(attempt.socket, true), Ok, attempts + [attempt])
      else
        var carried := if attempt.Pending? then attempt.status else status;
        TcpReached(os0, id, addresses, timeout, os1, i + 1, carried, attempts + [attempt])
  {
    var (os1, attempt) := TcpStream.TryAddress(os, id, addresses[i], timeout);
    assert addresses[i..][1..] == addresses[i + 1..];
    if !attempt.Kept? {
      var carried := if attempt.Pending? then attempt.status else status;
      var later := TcpStream.TryAll(os1, id, addresses[i + 1..], timeout, carried).3;
      assert attempts + ([attempt] + later) == (attempts + [attempt]) + later;
    }
  }

  class TcpStreamTransport {
    const system: System
    const id: Id
    const options: TcpStream.Options
    var socket: int
    var open: bool

    ghost function Value(): Stream
      reads this
    {
      Stream(socket, open)
    }

    ghost predicate Valid()
      reads this, system
    {
      Owns(system.state, id, Value())
    }

    constructor (system: System, id: Id, options: TcpStream.Options)
      requires Consistent(system.state) && Mine(system.state, id) == map[]
      ensures Valid() && Value() == CLOSED
      ensures this.system == system && this.id == id && this.options == options
    {
      this.system, this.id, this.options := system, id, options;
      socket, open := INVALID, false;
    }

    /** The candidate loop: the first address that connects wins, else the last pending status. */
    method TryCandidates(addresses: seq<Address>)
      returns (finalStatus: Status, s: Stream, ghost attempts: seq<TcpStream.Attempt>)
      modifies system
      ensures (system.state, s, finalStatus, attempts)
           == TcpStream.TryAll(old(system.state), id, addresses, options.connectTimeout, OpenFailed)
    {
      hide TcpStream.TryAddress;
      ghost var start := system.state;
      finalStatus, s, attempts := OpenFailed, CLOSED, [];
      TcpStarts(start, id, addresses, options.connectTimeout);
      for i := 0 to |addresses|
        invariant s == CLOSED
        invariant TcpReached(start, id, addresses, options.connectTimeout, system.state, i, finalStatus, attempts)
      {
        TcpStep(start, id, addresses, options.connectTimeout, system.state, i, finalStatus, attempts);
        var (after, attempt) := TcpStream.TryAddress(system.state, id, addresses[i], options.connectTimeout);
        system.state, attempts := after, attempts + [attempt];
        match attempt {
          case Kept(candidate) =>
            return Ok, Stream(candidate, true), attempts;
          case Pending(failure) =>
            finalStatus := failure;
          case Skipped =>
        }
      }
      assert addresses[|addresses|..] == [] && attempts + [] == attempts;
    }

    method Open() returns (status: Status, ghost attempts: seq<TcpStream.Attempt>)
      requires Valid()
      modifies this, system
      ensures Valid() && Tidy(old(system.state), system.state, id, Value())
      ensures (system.state, Value(), status, attempts)
           == TcpStream.Open(old(system.state), id, options, old(Value()))
    {
      hide Contained, Consistent, Mine, Others, TcpStream.TryAll, Resolve, Free;
      TcpStream.OpenTidy(system.state, id, options, Value());
      attempts := [];
      if open {
        return AlreadyOpen, attempts;
      }
      if options.host == "" || options.port == 0 {
        return InvalidArgument, attempts;
      }
      var (resolved, found) := Resolve(system.state, None);
      system.state := resolved;
      if found.None? {
        return OpenFailed, attempts;
      }
      var (list, addresses) := found.value;
      var s;
      status, s, attempts := TryCandidates(addresses);
      socket, open := s.socket, s.open;
      system.state := Free(system.state, list);
    }

    method Close() returns (status: Status)
      requires Valid()
      modifies this, system
      ensures Valid() && status == Ok && Tidy(old(system.state), system.state, id, CLOSED)
      ensures (system.state, Value()) == StreamIo.Close(old(system.state), id, old(Value()))
    {
      CloseTidy(system.state, id, Value());
      if socket != INVALID {
        system.state := Release(system.state, id, socket);
      }
      socket, open := INVALID, false;
      return Ok;
    }

    method ReadSome(output: array?<byte>, outputSize: nat) returns (status: Status, bytesRead: nat)
      requires Valid() && outputSize <= INT_MAX
      requires output != null ==> outputSize <= output.Length
      modifies this, system, output
      ensures Valid() && Tidy(old(system.state), system.state, id, Value(), Receiving)
      ensures var (os', s', status', bytes) :=
                StreamIo.ReadSome(
                  old(system.state), id, old(Value()), output == null, outputSize, options.readTimeout, true);
              && system.state == os' && Value() == s' && status == status' && bytesRead == |bytes|
              && (bytes != [] ==> output != null && bytesRead <= output.Length && output[..bytesRead] == bytes)
      ensures output != null ==> forall i :: bytesRead <= i < output.Length ==> output[i] == old(output[i])
    {
      ReadSomeTidy(system.state, id, Value(), output == null, outputSize, options.readTimeout, true);
      var s;
      status, bytesRead, s := ReadInto(system, id, Stream(socket, open), output, outputSize, options.readTimeout, true);
      socket, open := s.socket, s.open;
    }

    method WriteAll(input: Input) returns (status: Status)
      requires Valid() && |input.Data()| <= INT_MAX
      modifies system
      ensures Valid() && Tidy(old(system.state), system.state, id, Value(), Sending)
      ensures (system.state, status)
           == StreamIo.WriteAll(old(system.state), id, Value(), input, options.writeTimeout)
    {
      WriteAllTidy(system.state, id, Value(), input, options.writeTimeout);
      if !open {
        return NotOpen;
      }
      if input.Invalid() {
        return InvalidArgument;
      }
      status := SendAll(system, id, socket, input.Data(), options.writeTimeout);
    }
  }

  // ---------- accepted streams and the listener ----------

  class AcceptedTcpStream {
    const system: System
    const id: Id
    const readTimeout: nat
    const writeTimeout: nat
    var socket: int
    var open: bool

    ghost function Value(): Stream
      reads this
    {
      Stream(socket, open)
    }

    ghost predicate Valid()
      reads this, system
    {
      Owns(system.state, id, Value())
    }

    constructor (system: System, id: Id, socket: int, readTimeout: nat, writeTimeout: nat)
      requires Owns(system.state, id, Stream(socket, true))
      ensures Valid() && Value() == Stream(socket, true) && this.system == system && this.id == id
      ensures this.readTimeout == readTimeout && this.writeTimeout == writeTimeout
    {
      this.system, this.id, this.readTimeout, this.writeTimeout := system, id, readTimeout, writeTimeout;
      this.socket, open := socket, true;
    }

    /** Never opens: a closed accepted stream stays closed. */
    method Open() returns (status: Status)
      ensures status == TcpServer.OpenAccepted(Value()) && status != Ok
    {
      return if open then AlreadyOpen else OpenFailed;
    }

    method Close() returns (status: Status)
      requires Valid()
      modifies this, system
      ensures Valid() && status == Ok && Tidy(old(system.state), system.state, id, CLOSED)
      ensures (system.state, Value()) == StreamIo.Close(old(system.state), id, old(Value()))
    {
      CloseTidy(system.state, id, Value());
      if socket != INVALID {
        system.state := Release(system.state, id, socket);
      }
      socket, open := INVALID, false;
      return Ok;
    }

    method ReadSome(output: array?<byte>, outputSize: nat) returns (status: Status, bytesRead: nat)
      requires Valid() && outputSize <= INT_MAX
      requires output != null ==> outputSize <= output.Length
      modifies this, system, output
      ensures Valid() && Tidy(old(system.state), system.state, id, Value(), Receiving)
      ensures var (os', s', status', bytes) :=
                StreamIo.ReadSome(old(system.state), id, old(Value()), output == null, outputSize, readTimeout, true);
              && system.state == os' && Value() == s' && status == status' && bytesRead == |bytes|
              && (bytes != [] ==> output != null && bytesRead <= output.Length && output[..bytesRead] == bytes)
      ensures output != null ==> forall i :: bytesRead <= i < output.Length ==> output[i] == old(output[i])
    {
      ReadSomeTidy(system.state, id, Value(), output == null, outputSize, readTimeout, true);
      var s;
      status, bytesRead, s := ReadInto(system, id, Stream(socket, open), output, outputSize, readTimeout, true);
      socket, open := s.socket, s.open;
    }

    method WriteAll(input: Input) returns (status: Status)
      requires Valid() && |input.Data()| <= INT_MAX
      modifies system
      ensures Valid() && Tidy(old(system.state), system.state, id, Value(), Sending)
      ensures (system.state, status) == StreamIo.WriteAll(old(system.state), id, Value(), input, writeTimeout)
    {
      WriteAllTidy(system.state, id, Value(), input, writeTimeout);
      if !open {
        return NotOpen;
      }
      if input.Invalid() {
        return InvalidArgument;
      }
      status := SendAll(system, id, socket, input.Data(), writeTimeout);
    }
  }

  class TcpServerTransport {
    const system: System
    const id: Id
    const options: TcpServer.Options
    var socket: int
    var open: bool
    var localPort: nat

    ghost function Value(): TcpServer.Server
      reads this
    {
      TcpServer.Server(Stream(socket, open), localPort)
    }

    ghost predicate Valid()
      reads this, system
    {
      Owns(system.state, id, Value().stream)
    }

    constructor (system: System, id: Id, options: TcpServer.Options)
      requires Consistent(system.state) && Mine(system.state, id) == map[]
      ensures Valid() && Value() == TcpServer.CLOSED_SERVER
      ensures this.system == system && this.id == id && this.options == options
    {
      this.system, this.id, this.options := system, id, options;
      socket, open, localPort := INVALID, false, 0;
    }

    method Open() returns (status: Status)
      requires Valid()
      modifies this, system
      ensures Valid() && Tidy(old(system.state), system.state, id, Value().stream)
      ensures status == Ok ==> TcpServer.ServesFirst(old(system.state), id, Value(), Mine(system.state, id))
      ensures (system.state, Value(), status) == TcpServer.Open(old(system.state), id, options, old(Value()))
    {
      hide Contained, Consistent, Mine, Others, Resolve, Free, TcpServer.TryAddress, TcpServer.LocalPort,
           TcpServer.ServesFirst, TcpServer.NoneUsable;
      TcpServer.OpenContract(system.state, id, options, Value());
      if open {
        return AlreadyOpen;
      }
      if options.backlog <= 0 {
        return InvalidArgument;
      }
      var (resolved, found) := Resolve(system.state, None);
      system.state := resolved;
      if found.None? {
        return OpenFailed;
      }
      var (list, addresses) := found.value;
      assert addresses[0..] == addresses;
      var i := 0;
      while i < |addresses|
        invariant i <= |addresses| && Value() == old(Value())
        invariant TcpServer.TryAll(system.state, id, addresses[i..]) == TcpServer.TryAll(resolved, id, addresses)
      {
        assert addresses[i..][1..] == addresses[i + 1..];
        var (after, kept) := TcpServer.TryAddress(system.state, id, addresses[i]);
        system.state := after;
        if kept.Some? {
          var (named, port) := TcpServer.LocalPort(system.state, id, kept.value);
          socket, open, localPort := kept.value, true, port;
          system.state := Free(named, list);
          return Ok;
        }
        i := i + 1;
      }
      system.state := Free(system.state, list);
      return OpenFailed;
    }

    method Close() returns (status: Status)
      requires Valid()
      modifies this, system
      ensures Valid() && status == Ok && Tidy(old(system.state), system.state, id, CLOSED)
      ensures (system.state, Value()) == TcpServer.CloseServer(old(system.state), id, old(Value()))
      ensures !open && socket == INVALID && localPort == 0
    {
      CloseTidy(system.state, id, Value().stream);
      if socket != INVALID {
        system.state := Release(system.state, id, socket);
      }
      socket, open, localPort := INVALID, false, 0;
      return Ok;
    }

    /** The caller's connection is null unless the result is Ok. */
    method Accept(conn: Id) returns (status: Status, connection: AcceptedTcpStream?)
      requires Valid() && conn != id && Mine(system.state, conn) == map[]
      modifies system
      ensures Valid() && Contained(old(system.state), system.state, {id, conn})
      ensures system.state.lists == old(system.state).lists
      ensures status == Ok <==> connection != null
      ensures connection != null ==>
                fresh(connection) && connection.system == system && connection.id == conn
                && connection.Valid() && connection.open
                && connection.readTimeout == options.readTimeout && connection.writeTimeout == options.writeTimeout
      ensures var (os', status', stream) := TcpServer.Accept(old(system.state), id, options, Value(), conn);
              && system.state == os' && status == status'
              && (connection != null ==> stream == Some(connection.Value()))
    {
      hide Contained, Consistent, Mine, Others, Select, Acquire, Ask;
      TcpServer.AcceptContract(system.state, id, options, Value(), conn);
      if !open {
        return NotOpen, null;
      }
      var (waited, value) := Select(system.state, id, socket, options.acceptTimeout);
      system.state := waited;
      if value == 0 {
        return Timeout, null;
      }
      if value < 0 {
        return OpenFailed, null;
      }
      system.state := Note(system.state, Used(id, socket, Accepted));
      var again := Pop(system.state).1.again;
      var (accepted, client) := Acquire(system.state, conn, None);
      system.state := accepted;
      if client == INVALID {
        return if again then WouldBlock else OpenFailed, null;
      }
      var (asked, configured) := Ask(system.state, conn, client, Configured);
      system.state := asked;
      if !configured {
        system.state := Release(system.state, conn, client);
        return OpenFailed, null;
      }
      connection := new AcceptedTcpStream(system, conn, client, options.readTimeout, options.writeTimeout);
      return Ok, connection;
    }
  }

  // ---------- UDP ----------

  class UdpTransport {
    const system: System
    const id: Id
    const options: Udp.Options
    var socket: int
    var open: bool
    var remoteConfigured: bool

    ghost function Value(): Udp.Udp
      reads this
    {
      Udp.Udp(Stream(socket, open), remoteConfigured)
    }

    ghost predicate Valid()
      reads this, system
    {
      Owns(system.state, id, Value().stream)
    }

    constructor (system: System, id: Id, options: Udp.Options)
      requires Consistent(system.state) && Mine(system.state, id) == map[]
      ensures Valid() && Value() == Udp.CLOSED_UDP
      ensures this.system == system && this.id == id && this.options == options
    {
      this.system, this.id, this.options := system, id, options;
      socket, open, remoteConfigured := INVALID, false, false;
    }

    /** The inner loop, with the list freed however it ends. */
    method BindLocal(h: int, family: Family) returns (bound: bool)
      modifies system
      ensures (system.state, bound) == Udp.BindLocal(old(system.state), id, h, family)
    {
      hide Resolve, Ask, Free;
      var (resolved, found) := Resolve(system.state, Some(family));
      system.state := resolved;
      if found.None? {
        return false;
      }
      var (list, locals) := found.value;
      assert locals[0..] == locals;
      bound := false;
      var i := 0;
      while i < |locals| && !bound
        invariant i <= |locals|
        invariant !bound ==> Udp.BindLoop(system.state, id, h, locals[i..]) == Udp.BindLoop(resolved, id, h, locals)
        invariant bound ==> Udp.BindLoop(resolved, id, h, locals).0 == system.state
                            && Udp.BindLoop(resolved, id, h, locals).1.Some?
        decreases |locals| - i, !bound
      {
        assert locals[i..][1..] == locals[i + 1..];
        var (after, ok) := Ask(system.state, id, h, Bound(locals[i]));
        system.state := after;
        if ok {
          bound := true;
        } else {
          i := i + 1;
        }
      }
      system.state := Free(system.state, list);
    }

    /** The body of the outer loop; a candidate that fails is closed. */
    method TryCandidate(address: Address, hasRemote: bool) returns (kept: Option<int>)
      modifies system
      ensures (system.state, kept) == Udp.TryAddress(old(system.state), id, address, hasRemote)
    {
      var (acquired, candidate) := Acquire(system.state, id, Some(address.family));
      system.state := acquired;
      if candidate == INVALID {
        return None;
      }
      var (asked, configured) := Ask(system.state, id, candidate, Configured);
      system.state := asked;
      if !configured {
        system.state := Release(system.state, id, candidate);
        return None;
      }
      var bound := BindLocal(candidate, address.family);
      if !bound {
        system.state := Release(system.state, id, candidate);
        return None;
      }
      if hasRemote {
        var (connected, result) := Connect(system.state, id, candidate, address);
        system.state := connected;
        if result != Done {
          system.state := Release(system.state, id, candidate);
          return None;
        }
      }
      return Some(candidate);
    }

    /** The outer loop: the first candidate that can be set up is kept. */
    method TryCandidates(addresses: seq<Address>, hasRemote: bool) returns (kept: Option<int>)
      modifies system
      ensures (system.state, kept) == Udp.TryAll(old(system.state), id, addresses, hasRemote)
    {
      assert addresses[0..] == addresses;
      for i := 0 to |addresses|
        invariant Udp.TryAll(system.state, id, addresses[i..], hasRemote)
               == Udp.TryAll(old(system.state), id, addresses, hasRemote)
      {
        assert addresses[i..][1..] == addresses[i + 1..];
        kept := TryCandidate(addresses[i], hasRemote);
        if kept.Some? {
          return kept;
        }
      }
      return None;
    }

    method Open() returns (status: Status)
      requires Valid()
      modifies this, system
      ensures Valid() && Tidy(old(system.state), system.state, id, Value().stream)
      ensures (system.state, Value(), status) == Udp.Open(old(system.state), id, options, old(Value()))
      ensures status == Ok ==>
                open && remoteConfigured == options.HasRemote()
                && UdpOpen.HoldsFirst(old(system.state), id, remoteConfigured, socket, Mine(system.state, id))
    {
      hide Contained, Consistent, Mine, Others, Resolve, Free, Udp.TryAll, UdpOpen.HoldsFirst, UdpOpen.NoneUsable;
      UdpOpen.OpenContract(system.state, id, options, Value());
      if open {
        return AlreadyOpen;
      }
      if options.HalfRemote() {
        return InvalidArgument;
      }
      var (resolved, found) := Resolve(system.state, None);
      system.state := resolved;
      if found.None? {
        return OpenFailed;
      }
      var (list, addresses) := found.value;
      var kept := TryCandidates(addresses, options.HasRemote());
      status := OpenFailed;
      if kept.Some? {
        socket, open, remoteConfigured := kept.value, true, options.HasRemote();
        status := Ok;
      }
      system.state := Free(system.state, list);
    }

    method Close() returns (status: Status)
      requires Valid()
      modifies this, system
      ensures Valid() && status == Ok && Tidy(old(system.state), system.state, id, CLOSED)
      ensures (system.state, Value()) == Udp.CloseUdp(old(system.state), id, old(Value()))
      ensures !open && socket == INVALID && !remoteConfigured
    {
      CloseTidy(system.state, id, Value().stream);
      if socket != INVALID {
        system.state := Release(system.state, id, socket);
      }
      socket, open, remoteConfigured := INVALID, false, false;
      return Ok;
    }

    /** One wait and one datagram; whether it went out is known unless the status is WriteFailed. */
    method Send(input: Input) returns (status: Status)
      requires Valid() && |input.Data()| <= INT_MAX
      modifies system
      ensures Valid() && Tidy(old(system.state), system.state, id, Value().stream)
      ensures (system.state, status) == Udp.Send(old(system.state), id, options, Value(), input)
      ensures var (before, after) := (Udp.Datagrams(old(system.state.log), id), Udp.Datagrams(system.state.log, id));
              && (after == before || after == before + [input.Data()])
              && (status == Ok ==> after == before + [input.Data()])
              && (status in {NotOpen, InvalidArgument, Timeout, WouldBlock} ==> after == before)
    {
      hide Contained, Consistent, Mine, Others, Udp.Datagrams;
      Udp.SendTidy(system.state, id, options, Value(), input);
      Udp.SendMeaning(system.state, id, options, Value(), input);
      if !open {
        return NotOpen;
      }
      if !remoteConfigured || input.Invalid() {
        return InvalidArgument;
      }
      var (waited, value) := Select(system.state, id, socket, options.sendTimeout);
      system.state := waited;
      if value <= 0 {
        return WaitStatus(value, false);
      }
      var (after, sent) := SendDatagram(system.state, id, socket, input.Data());
      system.state := after;
      match sent {
        case Again =>
          return WouldBlock;
        case Failed =>
          return WriteFailed;
        case Count(n) =>
          return if n == |input.Data()| then Ok else WriteFailed;
      }
    }

    method Receive(output: array?<byte>, outputSize: nat) returns (status: Status, bytesRead: nat)
      requires Valid() && outputSize <= INT_MAX
      requires output != null ==> outputSize <= output.Length
      modifies system, output
      ensures Valid() && Tidy(old(system.state), system.state, id, Value().stream, Receiving)
      ensures var (os', status', bytes) :=
                Udp.Receive(old(system.state), id, options, Value(), output == null, outputSize);
              && system.state == os' && status == status' && bytesRead == |bytes|
              && (bytes != [] ==> output != null && bytesRead <= output.Length && output[..bytesRead] == bytes)
      ensures output != null ==> forall i :: bytesRead <= i < output.Length ==> output[i] == old(output[i])
    {
      hide Contained, Consistent, Mine, Others;
      Udp.ReceiveTidy(system.state, id, options, Value(), output == null, outputSize);
      if !open {
        return NotOpen, 0;
      }
      if output == null && outputSize != 0 {
        return InvalidArgument, 0;
      }
      var (waited, value) := Select(system.state, id, socket, options.receiveTimeout);
      system.state := waited;
      if value <= 0 {
        return WaitStatus(value, true), 0;
      }
      var (sized, pending) := PendingSize(system.state, id, socket);
      system.state := sized;
      if pending.None? {
        return ReadFailed, 0;
      }
      if pending.value > outputSize {
        return OutputBufferTooSmall, 0;
      }
      var (after, receipt) := OperatingSystem.Receive(system.state, id, socket, outputSize);
      system.state := after;
      match receipt {
        case Data(bytes) =>
          CopyOut(output, bytes);
          return Ok, |bytes|;
        case NoData =>
          return WouldBlock, 0;
        case Broken =>
          return ReadFailed, 0;
      }
    }
  }

  // ---------- serial ----------

  class SerialTransport {
    const system: System
    const id: Id
    const options: Serial.Options
    var handle: int
    var open: bool

    ghost function Value(): Stream
      reads this
    {
      Stream(handle, open)
    }

    ghost predicate Valid()
      reads this, system
    {
      Owns(system.state, id, Value())
    }

    constructor (system: System, id: Id, options: Serial.Options)
      requires Consistent(system.state) && Mine(system.state, id) == map[]
      ensures Valid() && Value() == CLOSED
      ensures this.system == system && this.id == id && this.options == options
    {
      this.system, this.id, this.options := system, id, options;
      handle, open := INVALID, false;
    }

    method Open() returns (status: Status)
      requires Valid()
      modifies this, system
      ensures Valid() && Tidy(old(system.state), system.state, id, Value())
      ensures (system.state, Value(), status) == Serial.Open(old(system.state), id, options, old(Value()))
    {
      Serial.OpenContract(system.state, id, options, Value());
      if open {
        return AlreadyOpen;
      }
      if !options.Valid() {
        return InvalidArgument;
      }
      var (after, h) := Acquire(system.state, id, None);
      system.state := after;
      if h == INVALID {
        return OpenFailed;
      }
      handle, open := h, true;
      return Ok;
    }

    method Close() returns (status: Status)
      requires Valid()
      modifies this, system
      ensures Valid() && status == Ok && Tidy(old(system.state), system.state, id, CLOSED)
      ensures (system.state, Value()) == StreamIo.Close(old(system.state), id, old(Value()))
    {
      CloseTidy(system.state, id, Value());
      if handle != INVALID {
        system.state := Release(system.state, id, handle);
      }
      handle, open := INVALID, false;
      return Ok;
    }

    method ReadSome(output: array?<byte>, outputSize: nat) returns (status: Status, bytesRead: nat)
      requires Valid()
      requires output != null ==> outputSize <= output.Length
      modifies system, output
      ensures Valid() && Tidy(old(system.state), system.state, id, Value(), Receiving)
      ensures var (os', _, status', bytes) :=
                StreamIo.ReadSome(old(system.state), id, Value(), output == null, outputSize, options.readTimeout, false);
              && system.state == os' && status == status' && bytesRead == |bytes|
              && (bytes != [] ==> output != null && bytesRead <= output.Length && output[..bytesRead] == bytes)
      ensures output != null ==> forall i :: bytesRead <= i < output.Length ==> output[i] == old(output[i])
    {
      ReadSomeTidy(system.state, id, Value(), output == null, outputSize, options.readTimeout, false);
      ReadSomeMeaning(system.state, id, Value(), output == null, outputSize, options.readTimeout, false);
      var s;
      status, bytesRead, s := ReadInto(system, id, Stream(handle, open), output, outputSize, options.readTimeout, false);
    }

    method WriteAll(input: Input) returns (status: Status)
      requires Valid()
      modifies system
      ensures Valid() && Tidy(old(system.state), system.state, id, Value(), Sending)
      ensures (system.state, status)
           == StreamIo.WriteAll(old(system.state), id, Value(), input, options.writeTimeout)
    {
      WriteAllTidy(system.state, id, Value(), input, options.writeTimeout);
      if !open {
        return NotOpen;
      }
      if input.Invalid() {
        return InvalidArgument;
      }
      if input.Data() == [] {
        return Ok;
      }
      status := SendAll(system, id, handle, input.Data(), options.writeTimeout);
    }
  }
}
