/** The TCP listener and the streams it accepts. */
module TcpServer {
  import opened Basics
  import opened OperatingSystem
  import opened StreamIo
  import opened Candidates

  datatype Options = Options(
    host: string, port: nat, backlog: int, acceptTimeout: nat, readTimeout: nat, writeTimeout: nat)

  datatype Server = Server(stream: Stream, localPort: nat)

  const CLOSED_SERVER := Server(CLOSED, 0)

  /** getsockname: a port, or zero. */
  function LocalPort(os: Os, id: Id, h: int): (Os, nat) {
    var (os1, r) := Pop(os);
    (Note(os1, Used(id, h, Named)), if 0 <= r.value < 65536 then r.value else 0)
  }

  /** Bind and listen on a configured socket. */
  function Listen(os: Os, id: Id, h: int, address: Address): (Os, Option<int>) {
    var (os1, bound) := Ask(os, id, h, Bound(address));
    if !bound then (Release(os1, id, h), None)
    else
      var (os2, listening) := Ask(os1, id, h, Listened);
      if listening then (os2, Some(h)) else (Release(os2, id, h), None)
  }

  function TryAddress(os: Os, id: Id, address: Address): (Os, Option<int>) {
    var (os1, h) := Acquire(os, id, Some(address.family));
    if h == INVALID then (os1, None)
    else
      var (os2, _) := Ask(os1, id, h, AddressReuse); // its result is ignored
      var (os3, configured) := Ask(os2, id, h, Configured);
      if !configured then (Release(os3, id, h), None) else Listen(os3, id, h, address)
  }

  function TryAll(os: Os, id: Id, addresses: seq<Address>): (Os, Option<int>)
    decreases |addresses|
  {
    if addresses == [] then (os, None)
    else
      var (os1, kept) := TryAddress(os, id, addresses[0]);
      if kept.Some? then (os1, kept) else TryAll(os1, id, addresses[1..])
  }

  function Open(os: Os, id: Id, options: Options, s: Server): (Os, Server, Status) {
    if s.stream.open then (os, s, AlreadyOpen)
    else if options.backlog <= 0 then (os, s, InvalidArgument)
    else
      var (os1, found) := Resolve(os, None);
      if found.None? then (os1, s, OpenFailed)
      else
        var (os2, kept) := TryAll(os1, id, found.value.1);
        if kept.None? then (Free(os2, found.value.0), s, OpenFailed)
        else
          var (os3, port) := LocalPort(os2, id, kept.value);
          (Free(os3, found.value.0), Server(Stream(kept.value, true), port), Ok)
  }

  function CloseServer(os: Os, id: Id, s: Server): (Os, Server) {
    (Close(os, id, s.stream).0, CLOSED_SERVER)
  }

  /** accept on a readable listener, and the set-up of the client socket. */
  function AcceptReady(os: Os, id: Id, listener: int, conn: Id): (Os, Status, Option<Stream>) {
    var os1 := Note(os, Used(id, listener, Accepted));
    var again := Pop(os1).1.again;
    var (os2, client) := Acquire(os1, conn, None);
    if client == INVALID then (os2, if again then WouldBlock else OpenFailed, None)
    else
      var (os3, configured) := Ask(os2, conn, client, Configured);
      if !configured then (Release(os3, conn, client), OpenFailed, None)
      else (os3, Ok, Some(Stream(client, true)))
  }

  /** Accept for the stream object `conn`; the result is that object's initial state. */
  function Accept(os: Os, id: Id, options: Options, s: Server, conn: Id): (Os, Status, Option<Stream>) {
    if !s.stream.open then (os, NotOpen, None)
    else
      var (os1, value) := Select(os, id, s.stream.socket, options.acceptTimeout);
      if value == 0 then (os1, Timeout, None)
      else if value < 0 then (os1, OpenFailed, None)
      else AcceptReady(os1, id, s.stream.socket, conn)
  }

  // ---------- ownership ----------

  /** A non-blocking socket of the address's family, bound to it and listening. */
  function Serving(id: Id, address: Address): Endpoint {
    Endpoint(id, Some(address.family), Some(address), None, true, true)
  }

  /** The kept listener serves the address; otherwise nothing is retained. */
  ghost predicate Settled(os: Os, os': Os, id: Id, kept: Option<int>, address: Address) {
    && Consistent(os') && Contained(os, os', {id}) && os'.lists == os.lists
    && (kept.Some? ==> kept.value != INVALID)
    && Mine(os', id) == (if kept.Some? then map[kept.value := Serving(id, address)] else map[])
  }

  lemma ListenSettled(os0: Os, os: Os, id: Id, h: int, address: Address)
    requires Holding(os0, os, id, h, NewEndpoint(id, Some(address.family)).Mark(Configured))
    ensures var (os', kept) := Listen(os, id, h, address);
            Settled(os0, os', id, kept, address)
  {
    hide Contained, Consistent, Mine, Others, Ask;
    var endpoint := NewEndpoint(id, Some(address.family)).Mark(Configured);
    var (os1, bound) := Ask(os, id, h, Bound(address));
    AskHolding(os0, os, id, h, endpoint, Bound(address));
    if !bound {
      DropHolding(os0, os1, id, h, endpoint);
    } else {
      var endpoint' := endpoint.Mark(Bound(address));
      var (os2, listening) := Ask(os1, id, h, Listened);
      AskHolding(os0, os1, id, h, endpoint', Listened);
      if !listening {
        DropHolding(os0, os2, id, h, endpoint');
      }
    }
  }

  lemma TryAddressSettled(os: Os, id: Id, address: Address)
    requires Consistent(os) && Mine(os, id) == map[]
    ensures var (os', kept) := TryAddress(os, id, address);
            Settled(os, os', id, kept, address)
  {
    hide Contained, Consistent, Mine, Others, Ask, Acquire, Listen;
    var (os1, h) := Acquire(os, id, Some(address.family));
    AcquireHolding(os, id, Some(address.family));
    if h != INVALID {
      var raw := NewEndpoint(id, Some(address.family));
      var (os2, _) := Ask(os1, id, h, AddressReuse);
      AskHolding(os, os1, id, h, raw, AddressReuse);
      var (os3, configured) := Ask(os2, id, h, Configured);
      AskHolding(os, os2, id, h, raw, Configured);
      if configured {
        ListenSettled(os, os3, id, h, address);
      } else {
        DropHolding(os, os3, id, h, raw);
      }
    }
  }

  /** The system after the first i addresses were tried. */
  function After(os: Os, id: Id, addresses: seq<Address>, i: nat): Os
    requires i <= |addresses|
  {
    if i == 0 then os else TryAddress(After(os, id, addresses, i - 1), id, addresses[i - 1]).0
  }

  lemma {:induction false} AfterShift(os: Os, id: Id, addresses: seq<Address>, i: nat)
    requires i < |addresses|
    ensures After(TryAddress(os, id, addresses[0]).0, id, addresses[1..], i) == After(os, id, addresses, i + 1)
  {
    hide TryAddress;
    if i > 0 {
      AfterShift(os, id, addresses, i - 1);
      assert addresses[1..][i - 1] == addresses[i];
    }
  }

  /**
   The replies to socket, to address reuse (which does not matter), to making it
   non-blocking, to bind and to listen let a candidate be set up.
   */
  predicate CanServe(os: Os) {
    && !Denied(os, ReplyAt(os, 0)) && ReplyAt(os, 2).value == 0
    && ReplyAt(os, 3).value == 0 && ReplyAt(os, 4).value == 0
  }

  lemma CandidateAnswer(os: Os, id: Id, address: Address)
    ensures TryAddress(os, id, address).1 == if CanServe(os) then Some(ReplyAt(os, 0).value) else None
  {
    hide Listen;
    var (os1, h) := Acquire(os, id, Some(address.family));
    if h != INVALID {
      var os2 := Ask(os1, id, h, AddressReuse).0;
      var os3 := Ask(os2, id, h, Configured).0;
      assert Pop(os2).1 == ReplyAt(os, 2);
      assert ReplyAt(os3, 0) == ReplyAt(os, 3) && ReplyAt(os3, 1) == ReplyAt(os, 4);
      ListenAnswer(os3, id, h, address);
    }
  }

  lemma ListenAnswer(os: Os, id: Id, h: int, address: Address)
    ensures Listen(os, id, h, address).1
         == if ReplyAt(os, 0).value == 0 && ReplyAt(os, 1).value == 0 then Some(h) else None
  {
    assert Pop(Ask(os, id, h, Bound(address)).0).1 == ReplyAt(os, 1);
  }

  /** Address i can be set up, at the replies it meets, and no address before it can. */
  ghost predicate FirstUsable(os: Os, id: Id, addresses: seq<Address>, i: nat) {
    && i < |addresses| && CanServe(After(os, id, addresses, i))
    && forall j :: 0 <= j < i ==> !CanServe(After(os, id, addresses, j))
  }

  ghost predicate NoneUsable(os: Os, id: Id, addresses: seq<Address>) {
    forall j :: 0 <= j < |addresses| ==> !CanServe(After(os, id, addresses, j))
  }

  /** The same facts, one address later. */
  lemma UsableShift(os: Os, id: Id, addresses: seq<Address>)
    requires addresses != [] && !CanServe(os)
    ensures var (os1, rest) := (TryAddress(os, id, addresses[0]).0, addresses[1..]);
            && (forall i: nat :: FirstUsable(os1, id, rest, i) ==> FirstUsable(os, id, addresses, i + 1))
            && (NoneUsable(os1, id, rest) ==> NoneUsable(os, id, addresses))
  {
    hide TryAddress, CanServe;
    var (os1, rest) := (TryAddress(os, id, addresses[0]).0, addresses[1..]);
    assert After(os, id, addresses, 0) == os;
    forall j | 0 <= j < |addresses|
      ensures After(os1, id, rest, j) == After(os, id, addresses, j + 1)
    {
      AfterShift(os, id, addresses, j);
    }
    forall i: nat | FirstUsable(os1, id, rest, i) ensures FirstUsable(os, id, addresses, i + 1) {
      forall j | 0 <= j < i + 1 ensures !CanServe(After(os, id, addresses, j)) {
        assert j > 0 ==> After(os, id, addresses, j) == After(os1, id, rest, j - 1);
      }
    }
    if NoneUsable(os1, id, rest) {
      forall j | 0 <= j < |addresses| ensures !CanServe(After(os, id, addresses, j)) {
        assert j > 0 ==> After(os, id, addresses, j) == After(os1, id, rest, j - 1);
      }
    }
  }

  /** The loop stops at the first address that can be set up. */
  lemma {:induction false} LoopAnswer(os: Os, id: Id, addresses: seq<Address>) returns (i: nat)
    ensures var (os', kept) := TryAll(os, id, addresses);
            && (kept.Some? ==>
                  && FirstUsable(os, id, addresses, i) && kept.value == ReplyAt(After(os, id, addresses, i), 0).value
                  && os' == After(os, id, addresses, i + 1))
            && (!kept.Some? ==> NoneUsable(os, id, addresses))
    decreases |addresses|
  {
    hide TryAddress, CanServe, ReplyAt;
    i := 0;
    if addresses != [] {
      var (os1, kept) := TryAddress(os, id, addresses[0]);
      CandidateAnswer(os, id, addresses[0]);
      assert After(os, id, addresses, 0) == os && After(os, id, addresses, 1) == os1;
      if !kept.Some? {
        var k := LoopAnswer(os1, id, addresses[1..]);
        i := k + 1;
        UsableShift(os, id, addresses);
        if TryAll(os, id, addresses).1.Some? {
          AfterShift(os, id, addresses, k);
          AfterShift(os, id, addresses, k + 1);
        }
      }
    }
  }

  /** Nothing is retained but the kept listener. */
  lemma {:induction false} TryAllSettled(os: Os, id: Id, addresses: seq<Address>)
    requires Consistent(os) && Mine(os, id) == map[]
    ensures var (os', kept) := TryAll(os, id, addresses);
            && Consistent(os') && Contained(os, os', {id}) && os'.lists == os.lists
            && (kept.Some? ==> kept.value != INVALID)
            && (!kept.Some? ==> Mine(os', id) == map[])
            && (forall i: nat :: kept.Some? && FirstUsable(os, id, addresses, i) ==>
                  Mine(os', id) == map[kept.value := Serving(id, addresses[i])])
    decreases |addresses|
  {
    hide Contained, Consistent, Mine, Others, TryAddress, CanServe;
    ContainedRefl(os, {id});
    if addresses != [] {
      var (os1, kept) := TryAddress(os, id, addresses[0]);
      TryAddressSettled(os, id, addresses[0]);
      CandidateAnswer(os, id, addresses[0]);
      assert After(os, id, addresses, 0) == os;
      if !kept.Some? {
        TryAllSettled(os1, id, addresses[1..]);
        ContainedCompose(os, os1, TryAll(os1, id, addresses[1..]).0, {id});
        LaterSettled(os, id, addresses);
      }
    }
  }

  lemma LaterSettled(os: Os, id: Id, addresses: seq<Address>)
    requires addresses != [] && !CanServe(os)
    ensures var (os1, rest) := (TryAddress(os, id, addresses[0]).0, addresses[1..]);
            forall i: nat :: FirstUsable(os, id, addresses, i) ==>
              i > 0 && FirstUsable(os1, id, rest, i - 1) && addresses[i] == rest[i - 1]
  {
    hide TryAddress, CanServe;
    var (os1, rest) := (TryAddress(os, id, addresses[0]).0, addresses[1..]);
    assert After(os, id, addresses, 0) == os;
    forall j | 0 <= j < |addresses|
      ensures After(os1, id, rest, j) == After(os, id, addresses, j + 1)
    {
      AfterShift(os, id, addresses, j);
    }
  }

  /** The server has the listening socket of the first usable address, and the port the system names for it. */
  ghost predicate ServesFirst(os: Os, id: Id, s: Server, mine: map<int, Endpoint>) {
    var (os1, found) := Resolve(os, None);
    && found.Some?
    && exists i: nat ::
         && FirstUsable(os1, id, found.value.1, i)
         && s.stream == Stream(ReplyAt(After(os1, id, found.value.1, i), 0).value, true)
         && mine == map[s.stream.socket := Serving(id, found.value.1[i])]
         && var name := ReplyAt(After(os1, id, found.value.1, i + 1), 0).value;
            s.localPort == if 0 <= name < 65536 then name else 0
  }

  /**
   For every script Open leaves no list behind and keeps nothing on failure.
   Once addresses are resolved it succeeds iff one of them can be set up, and
   keeps one listening socket, bound to the first of those.
   */
  lemma OpenContract(os: Os, id: Id, options: Options, s: Server)
    requires Owns(os, id, s.stream)
    ensures var (os', s', status) := Open(os, id, options, s);
            var (os1, found) := Resolve(os, None);
            var tries := !s.stream.open && options.backlog > 0;
            var none := found.None? || NoneUsable(os1, id, found.value.1);
            && Tidy(os, os', id, s'.stream)
            && (status != Ok ==> s' == s && Mine(os', id) == Mine(os, id))
            && (status == Ok ==> ServesFirst(os, id, s', Mine(os', id)))
            && (status == AlreadyOpen <==> s.stream.open)
            && (status == InvalidArgument <==> !s.stream.open && options.backlog <= 0)
            && (status == Ok <==> tries && !none)
            && (status == OpenFailed <==> tries && none)
  {
    hide Contained, Consistent, Mine, Others, TryAll, Resolve, After, CanServe, LocalPort;
    CalmRefl(os, id);
    CalmTidy(os, os, id, s.stream, Quiet);
    assert !s.stream.open ==> Mine(os, id) == map[];
    if !s.stream.open && options.backlog > 0 {
      var (os1, found) := Resolve(os, None);
      if found.Some? {
        ResolveMine(os, id, None);
        TryAllSettled(os1, id, found.value.1);
        var i := LoopAnswer(os1, id, found.value.1);
        var (os2, kept) := TryAll(os1, id, found.value.1);
        if kept.Some? {
          assert FirstUsable(os1, id, found.value.1, i);
          var os3 := LocalPort(os2, id, kept.value).0;
          PortCalm(os2, id, kept.value);
          PortAnswer(os2, id, kept.value);
          ContainedCompose(os1, os2, os3, {id});
          BracketTidy(os, id, None, os3, Stream(kept.value, true));
        } else {
          BracketTidy(os, id, None, os2, CLOSED);
        }
      } else {
        ResolveFails(os, id, None, s.stream);
      }
    }
  }

  lemma PortAnswer(os: Os, id: Id, h: int)
    ensures var name := ReplyAt(os, 0).value;
            LocalPort(os, id, h).1 == if 0 <= name < 65536 then name else 0
  {
  }

  lemma PortCalm(os: Os, id: Id, h: int)
    requires Consistent(os) && h in Mine(os, id)
    ensures Calm(os, LocalPort(os, id, h).0, id)
  {
    hide Calm;
    UseCalm(os, id, h, Named);
  }

  lemma AcceptUseCalm(os: Os, id: Id, h: int)
    requires Consistent(os) && h in Mine(os, id)
    ensures Calm(os, Note(os, Used(id, h, Accepted)), id)
  {
  }

  /** The listener's part of Accept, seen by both objects. */
  lemma BesideCalm(os: Os, os': Os, id: Id, conn: Id)
    requires Calm(os, os', id) && conn != id
    ensures Contained(os, os', {id, conn}) && Mine(os', conn) == Mine(os, conn)
  {
    MineOfOther(os, os', {id}, conn);
    ContainedWiden(os, os', {id}, {id, conn});
  }

  /** The new object holds exactly the accepted handle, or nothing; the listener keeps its own. */
  ghost predicate Handed(os: Os, os': Os, id: Id, conn: Id, stream: Option<Stream>) {
    && Consistent(os') && Contained(os, os', {id, conn}) && os'.lists == os.lists
    && Mine(os', id) == Mine(os, id)
    && (stream.Some? ==> stream.value.open && stream.value.socket != INVALID
                         && Mine(os', conn).Keys == {stream.value.socket}
                         && Mine(os', conn)[stream.value.socket].nonBlocking)
    && (stream.None? ==> Mine(os', conn) == map[])
  }

  lemma AcceptReadyHanded(os: Os, id: Id, listener: int, conn: Id)
    requires Consistent(os) && listener in Mine(os, id) && conn != id && Mine(os, conn) == map[]
    ensures var (os', status, stream) := AcceptReady(os, id, listener, conn);
            && Handed(os, os', id, conn, stream) && (status == Ok <==> stream.Some?)
            && status in {Ok, WouldBlock, OpenFailed}
  {
    hide Contained, Consistent, Mine, Others, Acquire, Ask, Release;
    var os1 := Note(os, Used(id, listener, Accepted));
    AcceptUseCalm(os, id, listener);
    BesideCalm(os, os1, id, conn);
    AcceptedContract(os1, id, conn);
    ContainedCompose(os, os1, AcceptReady(os, id, listener, conn).0, {id, conn});
  }

  /** Accept gives the new object exactly one handle, or nothing; the listener is untouched. */
  lemma AcceptContract(os: Os, id: Id, options: Options, s: Server, conn: Id)
    requires Owns(os, id, s.stream) && conn != id && Mine(os, conn) == map[]
    ensures var (os', status, stream) := Accept(os, id, options, s, conn);
            && Contained(os, os', {id, conn}) && os'.lists == os.lists
            && Owns(os', id, s.stream)
            && Owns(os', conn, if stream.Some? then stream.value else CLOSED)
            && (status == Ok <==> stream.Some?)
            && (status == NotOpen <==> !s.stream.open)
            && status in {Ok, NotOpen, Timeout, WouldBlock, OpenFailed}
            && (stream.Some? ==> stream.value.open && Mine(os', conn)[stream.value.socket].nonBlocking)
  {
    hide Contained, Consistent, Mine, Others, Select, AcceptReady;
    CalmRefl(os, id);
    BesideCalm(os, os, id, conn);
    assert s.stream.open ==> s.stream.socket in Mine(os, id);
    if s.stream.open {
      var listener := s.stream.socket;
      var (os1, value) := Select(os, id, listener, options.acceptTimeout);
      SelectCalm(os, id, listener, options.acceptTimeout);
      BesideCalm(os, os1, id, conn);
      if value > 0 {
        AcceptReadyHanded(os1, id, listener, conn);
        ContainedCompose(os, os1, AcceptReady(os1, id, listener, conn).0, {id, conn});
      }
    }
  }

  /** The part of Accept that belongs to the new object. */
  lemma AcceptedContract(os: Os, id: Id, conn: Id)
    requires Consistent(os) && conn != id && Mine(os, conn) == map[]
    ensures var (os3, client) := Acquire(os, conn, None);
            if client == INVALID then
              && Consistent(os3) && Contained(os, os3, {id, conn}) && Mine(os3, id) == Mine(os, id)
              && Mine(os3, conn) == map[] && os3.lists == os.lists
            else
              var (os4, configured) := Ask(os3, conn, client, Configured);
              if configured then
                && Consistent(os4) && Contained(os, os4, {id, conn}) && Mine(os4, id) == Mine(os, id)
                && Mine(os4, conn) == map[client := NewEndpoint(conn, None).Mark(Configured)] && os4.lists == os.lists
              else
                var os5 := Release(os4, conn, client);
                && Consistent(os5) && Contained(os, os5, {id, conn}) && Mine(os5, id) == Mine(os, id)
                && Mine(os5, conn) == map[] && os5.lists == os.lists
  {
    hide Contained, Consistent, Mine, Others, Ask, Acquire;
    var (os3, client) := Acquire(os, conn, None);
    AcquireHolding(os, conn, None);
    if client == INVALID {
      MineOfOther(os, os3, {conn}, id);
      ContainedWiden(os, os3, {conn}, {id, conn});
    } else {
      var raw := NewEndpoint(conn, None);
      var (os4, configured) := Ask(os3, conn, client, Configured);
      AskHolding(os, os3, conn, client, raw, Configured);
      if configured {
        MineOfOther(os, os4, {conn}, id);
        ContainedWiden(os, os4, {conn}, {id, conn});
      } else {
        DropHolding(os, os4, conn, client, raw);
        MineOfOther(os, Release(os4, conn, client), {conn}, id);
        ContainedWiden(os, Release(os4, conn, client), {conn}, {id, conn});
      }
    }
  }

  /**
   Each status of Accept, by the system's replies to the wait, to accept and to
   the set-up of the client; the stream handed over; and the calls made.  WouldBlock, which the documentation does not
   list, is a readable listener on which accept then would block.
   */
  lemma AcceptStatus(os: Os, id: Id, options: Options, s: Server, conn: Id)
    ensures var (os', status, stream) := Accept(os, id, options, s, conn);
            var (wait, client, setUp) := (ReplyAt(os, 0), ReplyAt(os, 1), ReplyAt(os, 2));
            var ready := s.stream.open && wait.value > 0;
            && (status == NotOpen <==> !s.stream.open)
            && (status == Timeout <==> s.stream.open && wait.value == 0)
            && (status == WouldBlock <==> ready && Denied(os, client) && client.again)
            && (status == Ok <==> ready && !Denied(os, client) && setUp.value == 0)
            && (status == OpenFailed <==>
                  || (s.stream.open && wait.value < 0)
                  || (ready && Denied(os, client) && !client.again)
                  || (ready && !Denied(os, client) && setUp.value != 0))
            && stream == (if status == Ok then Some(Stream(client.value, true)) else None)
            && os'.log == os.log
                 + (if s.stream.open then [Used(id, s.stream.socket, Selected(options.acceptTimeout))] else [])
                 + (if ready then [Used(id, s.stream.socket, Accepted)] else [])
                 + (if !ready || Denied(os, client) then []
                    else [Acquired(conn, client.value), Used(conn, client.value, Configured)])
                 + (if ready && !Denied(os, client) && setUp.value != 0 then [Released(conn, client.value)] else [])
  {
    var os1 := Select(os, id, s.stream.socket, options.acceptTimeout).0;
    assert Pop(os1).1 == ReplyAt(os, 1);
    var os2 := Acquire(Note(os1, Used(id, s.stream.socket, Accepted)), conn, None).0;
    assert Pop(os2).1 == ReplyAt(os, 2);
  }

  /** A readable listener whose client vanished: a status Accept's documentation does not list. */
  lemma AcceptCanReportWouldBlock(os: Os, id: Id, options: Options, s: Server, conn: Id)
    requires s.stream.open
    ensures var script := [Reply(1, false, [], []), Reply(-1, true, [], [])];
            Accept(os.(script := script), id, options, s, conn).1 == WouldBlock
  {
    var script := [Reply(1, false, [], []), Reply(-1, true, [], [])];
    var os1 := Select(os.(script := script), id, s.stream.socket, options.acceptTimeout).0;
    assert os1.script == [Reply(-1, true, [], [])];
  }

  /** An accepted stream never opens again. */
  function OpenAccepted(s: Stream): Status {
    if s.open then AlreadyOpen else OpenFailed
  }
}
