/** The UDP transport: nested candidate and bind loops in Open, one datagram per call. */
module Udp {
  import opened Basics
  import opened OperatingSystem
  import opened StreamIo
  import opened Candidates

  datatype Options = Options(
    localHost: string, localPort: nat, remoteHost: string, remotePort: nat,
    receiveTimeout: nat, sendTimeout: nat)
  {
    predicate HasRemote() {
      remoteHost != ""
    }

    /** A remote host without a port, or a port without a host. */
    predicate HalfRemote() {
      (remoteHost == "") != (remotePort == 0)
    }
  }

  datatype Udp = Udp(stream: Stream, remote: bool)

  const CLOSED_UDP := Udp(CLOSED, false)

  /** The inner loop: bind to the first local address that works. */
  function BindLoop(os: Os, id: Id, h: int, locals: seq<Address>): (Os, Option<Address>)
    decreases |locals|
  {
    if locals == [] then (os, None)
    else
      var (os1, ok) := Ask(os, id, h, Bound(locals[0]));
      if ok then (os1, Some(locals[0])) else BindLoop(os1, id, h, locals[1..])
  }

  /** Resolve local addresses of the candidate's family, bind, and free them. */
  function BindLocal(os: Os, id: Id, h: int, family: Family): (Os, bool) {
    var (os1, found) := Resolve(os, Some(family));
    if found.None? then (os1, false)
    else
      var (os2, bound) := BindLoop(os1, id, h, found.value.1);
      (Free(os2, found.value.0), bound.Some?)
  }

  function TryAddress(os: Os, id: Id, address: Address, hasRemote: bool): (Os, Option<int>) {
    var (os1, h) := Acquire(os, id, Some(address.family));
    if h == INVALID then (os1, None)
    else
      var (os2, configured) := Ask(os1, id, h, Configured);
      if !configured then (Release(os2, id, h), None)
      else
        var (os3, bound) := BindLocal(os2, id, h, address.family);
        if !bound then (Release(os3, id, h), None)
        else if !hasRemote then (os3, Some(h))
        else
          var (os4, result) := Connect(os3, id, h, address);
          if result == Done then (os4, Some(h)) else (Release(os4, id, h), None)
  }

  function TryAll(os: Os, id: Id, addresses: seq<Address>, hasRemote: bool): (Os, Option<int>)
    decreases |addresses|
  {
    if addresses == [] then (os, None)
    else
      var (os1, kept) := TryAddress(os, id, addresses[0], hasRemote);
      if kept.Some? then (os1, kept) else TryAll(os1, id, addresses[1..], hasRemote)
  }

  function Open(os: Os, id: Id, options: Options, u: Udp): (Os, Udp, Status) {
    if u.stream.open then (os, u, AlreadyOpen)
    else if options.HalfRemote() then (os, u, InvalidArgument)
    else
      var (os1, found) := Resolve(os, None); // the remote addresses, or passive local ones without a remote
      if found.None? then (os1, u, OpenFailed)
      else
        var (os2, kept) := TryAll(os1, id, found.value.1, options.HasRemote());
        var os3 := Free(os2, found.value.0);
        if kept.Some? then (os3, Udp(Stream(kept.value, true), options.HasRemote()), Ok) else (os3, u, OpenFailed)
  }

  function CloseUdp(os: Os, id: Id, u: Udp): (Os, Udp) {
    (Close(os, id, u.stream).0, CLOSED_UDP)
  }

  function Send(os: Os, id: Id, options: Options, u: Udp, input: Input): (Os, Status) {
    if !u.stream.open then (os, NotOpen)
    else if !u.remote then (os, InvalidArgument)
    else if input.Invalid() then (os, InvalidArgument)
    else
      var (os1, value) := Select(os, id, u.stream.socket, options.sendTimeout);
      if value <= 0 then (os1, WaitStatus(value, false))
      else
        var (os2, sent) := SendDatagram(os1, id, u.stream.socket, input.Data());
        (os2, match sent
              case Again => WouldBlock
              case Failed => WriteFailed
              case Count(n) => if n == |input.Data()| then Ok else WriteFailed)
  }

  /** Peek the size of the head datagram, then receive it if it fits. */
  function ReceiveReady(os: Os, id: Id, h: int, size: nat): (Os, Status, seq<byte>) {
    var (os1, pending) := PendingSize(os, id, h);
    if pending.None? then (os1, ReadFailed, [])
    else if pending.value > size then (os1, OutputBufferTooSmall, [])
    else
      var (os2, receipt) := OperatingSystem.Receive(os1, id, h, size);
      match receipt
      case Data(bytes) => (os2, Ok, bytes)
      case NoData => (os2, WouldBlock, [])
      case Broken => (os2, ReadFailed, [])
  }

  function Receive(os: Os, id: Id, options: Options, u: Udp, isNull: bool, size: nat): (Os, Status, seq<byte>) {
    if !u.stream.open then (os, NotOpen, [])
    else if isNull && size != 0 then (os, InvalidArgument, [])
    else
      var (os1, value) := Select(os, id, u.stream.socket, options.receiveTimeout);
      if value <= 0 then (os1, WaitStatus(value, true), []) else ReceiveReady(os1, id, u.stream.socket, size)
  }

  // ---------- ownership ----------

  lemma DatagramCalm(os: Os, id: Id, h: int, bytes: seq<byte>)
    requires Consistent(os) && h in Mine(os, id)
    ensures Calm(os, SendDatagram(os, id, h, bytes).0, id)
  {
    hide Calm;
    UseCalm(os, id, h, if Pop(os).1.value < 0 then Unsent else Datagram(bytes));
  }

  lemma SendTidy(os: Os, id: Id, options: Options, u: Udp, input: Input)
    requires Owns(os, id, u.stream)
    ensures Tidy(os, Send(os, id, options, u, input).0, id, u.stream)
  {
    hide Contained, Consistent, Mine, Others, Select, SendDatagram;
    CalmRefl(os, id);
    assert u.stream.open ==> u.stream.socket in Mine(os, id);
    if u.stream.open && u.remote && !input.Invalid() {
      var h := u.stream.socket;
      var (os1, value) := Select(os, id, h, options.sendTimeout);
      SelectCalm(os, id, h, options.sendTimeout);
      if value > 0 {
        var os2 := SendDatagram(os1, id, h, input.Data()).0;
        DatagramCalm(os1, id, h, input.Data());
        CalmCompose(os, os1, os2, id);
      }
    }
    CalmTidy(os, Send(os, id, options, u, input).0, id, u.stream, Quiet);
  }

  lemma SizeCalm(os: Os, id: Id, h: int)
    requires Consistent(os) && h in Mine(os, id)
    ensures Calm(os, PendingSize(os, id, h).0, id)
  {
    hide Calm;
    UseCalm(os, id, h, Sized);
  }

  lemma ReceiveReadyCalm(os: Os, id: Id, h: int, size: nat)
    requires Consistent(os) && h in Mine(os, id)
    ensures Calm(os, ReceiveReady(os, id, h, size).0, id, Receiving)
  {
    hide Contained, Consistent, Mine, Others, PendingSize, OperatingSystem.Receive;
    var os1 := PendingSize(os, id, h).0;
    SizeCalm(os, id, h);
    CalmWiden(os, os1, id, Receiving);
    ReceiveCalm(os1, id, h, size);
    CalmCompose(os, os1, OperatingSystem.Receive(os1, id, h, size).0, id, Receiving);
  }

  lemma ReceiveTidy(os: Os, id: Id, options: Options, u: Udp, isNull: bool, size: nat)
    requires Owns(os, id, u.stream)
    ensures Tidy(os, Receive(os, id, options, u, isNull, size).0, id, u.stream, Receiving)
  {
    hide Contained, Consistent, Mine, Others, Select, ReceiveReady;
    CalmRefl(os, id);
    assert u.stream.open ==> u.stream.socket in Mine(os, id);
    CalmWiden(os, os, id, Receiving);
    var os' := Receive(os, id, options, u, isNull, size).0;
    if u.stream.open && !(isNull && size != 0) {
      var h := u.stream.socket;
      var (os1, value) := Select(os, id, h, options.receiveTimeout);
      SelectCalm(os, id, h, options.receiveTimeout);
      CalmWiden(os, os1, id, Receiving);
      if value > 0 {
        ReceiveReadyCalm(os1, id, h, size);
        CalmCompose(os, os1, os', id, Receiving);
      }
    }
    CalmTidy(os, os', id, u.stream, Receiving);
  }

  /** The caller gets every byte the system handed over in this call, and no other. */
  lemma ReceiveSource(os: Os, id: Id, options: Options, u: Udp, isNull: bool, size: nat)
    ensures var (os', _, bytes) := Receive(os, id, options, u, isNull, size);
            Tally(os'.log, id).received == Tally(os.log, id).received + bytes
  {
    hide Tally, Select, ReceiveReady;
    if u.stream.open && !(isNull && size != 0) {
      var h := u.stream.socket;
      SelectTally(os, id, h, options.receiveTimeout);
      ReceiveReadySource(Select(os, id, h, options.receiveTimeout).0, id, h, size);
    }
  }

  lemma ReceiveReadySource(os: Os, id: Id, h: int, size: nat)
    ensures var (os', _, bytes) := ReceiveReady(os, id, h, size);
            Tally(os'.log, id).received == Tally(os.log, id).received + bytes
  {
    hide Tally, OperatingSystem.Receive;
    TallyAppend(os.log, Used(id, h, Sized), id);
    ReceiveTally(PendingSize(os, id, h).0, id, h, size);
  }

  /** The datagrams an object has sent, in order. */
  function Datagrams(log: seq<Call>, id: Id): seq<seq<byte>> {
    if log == [] then []
    else
      var last := log[|log| - 1];
      Datagrams(log[..|log| - 1], id)
      + (if last.Used? && last.owner == id && last.use.Datagram? then [last.use.bytes] else [])
  }

  lemma DatagramsAppend(log: seq<Call>, call: Call, id: Id)
    ensures Datagrams(log + [call], id) == Datagrams(log, id)
              + (if call.Used? && call.owner == id && call.use.Datagram? then [call.use.bytes] else [])
  {
    assert (log + [call])[..|log|] == log;
  }

  /** The call gets as far as waiting. */
  predicate Sendable(u: Udp, input: Input) {
    u.stream.open && u.remote && !input.Invalid()
  }

  /** Ok means that one datagram, exactly the input, went out; only WriteFailed can be in doubt about it. */
  lemma SendMeaning(os: Os, id: Id, options: Options, u: Udp, input: Input)
    ensures var (os', status) := Send(os, id, options, u, input);
            var (before, after) := (Datagrams(os.log, id), Datagrams(os'.log, id));
            && (after == before || after == before + [input.Data()])
            && (status == Ok ==> after == before + [input.Data()])
            && (status in {NotOpen, InvalidArgument, Timeout, WouldBlock} ==> after == before)
            && (status in {NotOpen, InvalidArgument} <==> !Sendable(u, input))
            && (status in {NotOpen, InvalidArgument} ==> os' == os)
  {
    hide Datagrams;
    if Sendable(u, input) {
      var h := u.stream.socket;
      var (os1, value) := Select(os, id, h, options.sendTimeout);
      DatagramsAppend(os.log, Used(id, h, Selected(options.sendTimeout)), id);
      DatagramsAppend(os1.log, Used(id, h, Datagram(input.Data())), id);
      DatagramsAppend(os1.log, Used(id, h, Unsent), id);
    }
  }

  /** Each status of Send, by the system's two replies: to the wait and to the send; and the calls made. */
  lemma SendStatus(os: Os, id: Id, options: Options, u: Udp, input: Input)
    ensures var (os', status) := Send(os, id, options, u, input);
            var (wait, sent) := (ReplyAt(os, 0), ReplyAt(os, 1));
            var ready := Sendable(u, input) && wait.value > 0;
            && (Sendable(u, input) <==> u.stream.open && u.remote && !(input.Null? && input.size != 0))
            && os'.log == os.log
                 + (if Sendable(u, input) then [Used(id, u.stream.socket, Selected(options.sendTimeout))] else [])
                 + (if !ready then [] else
                    [Used(id, u.stream.socket, if sent.value < 0 then Unsent else Datagram(input.Data()))])
            && (status == NotOpen <==> !u.stream.open)
            && (status == InvalidArgument <==> u.stream.open && !Sendable(u, input))
            && (status == Timeout <==> Sendable(u, input) && wait.value == 0)
            && (status == WouldBlock <==> ready && sent.value < 0 && sent.again)
            && (status == Ok <==> ready && sent.value == |input.Data()|)
            && (status == WriteFailed <==>
                  || (Sendable(u, input) && wait.value < 0)
                  || (ready && (if sent.value < 0 then !sent.again else sent.value != |input.Data()|)))
  {
  }

  /**
   Each status of Receive, by the system's replies to the wait, to the size peek
   and to the receive; and the calls made.
   */
  lemma ReceiveStatus(os: Os, id: Id, options: Options, u: Udp, isNull: bool, size: nat)
    ensures var (os', status, bytes) := Receive(os, id, options, u, isNull, size);
            var (wait, peek, data) := (ReplyAt(os, 0), ReplyAt(os, 1), ReplyAt(os, 2));
            var valid := u.stream.open && !(isNull && size != 0);
            var fits := valid && wait.value > 0 && 0 <= peek.value <= size;
            && (status == NotOpen <==> !u.stream.open)
            && (status == InvalidArgument <==> u.stream.open && !valid)
            && (status == Timeout <==> valid && wait.value == 0)
            && (status == OutputBufferTooSmall <==> valid && wait.value > 0 && peek.value > size)
            && (status == WouldBlock <==> fits && data.value < 0 && data.again)
            && (status == Ok <==> fits && data.value >= 0)
            && (status == ReadFailed <==>
                  || (valid && wait.value < 0)
                  || (valid && wait.value > 0 && peek.value < 0)
                  || (fits && data.value < 0 && !data.again))
            && bytes == (if status == Ok then data.data[..Min(size, |data.data|)] else [])
            && os'.log == os.log
                 + (if valid then [Used(id, u.stream.socket, Selected(options.receiveTimeout))] else [])
                 + (if valid && wait.value > 0 then [Used(id, u.stream.socket, Sized)] else [])
                 + (if fits then [Used(id, u.stream.socket, Received(bytes))] else [])
  {
    var os1 := Select(os, id, u.stream.socket, options.receiveTimeout).0;
    assert Pop(os1).1 == ReplyAt(os, 1);
    assert Pop(PendingSize(os1, id, u.stream.socket).0).1 == ReplyAt(os, 2);
  }

  /** A receive is among the calls made since. */
  predicate Took(before: seq<Call>, after: seq<Call>) {
    exists i :: |before| <= i < |after| && after[i].Used? && after[i].use.Received?
  }

  /** The system is asked for a datagram exactly when the peeked size fits. */
  lemma TookMeaning(os: Os, id: Id, options: Options, u: Udp, isNull: bool, size: nat)
    ensures Took(os.log, Receive(os, id, options, u, isNull, size).0.log) <==>
              && u.stream.open && !(isNull && size != 0)
              && ReplyAt(os, 0).value > 0 && 0 <= ReplyAt(os, 1).value <= size
  {
    var h := u.stream.socket;
    var os' := Receive(os, id, options, u, isNull, size).0;
    if u.stream.open && !(isNull && size != 0) {
      var os1 := Select(os, id, h, options.receiveTimeout).0;
      assert Pop(os1).1 == ReplyAt(os, 1);
      assert os1.log[|os.log|] == Used(id, h, Selected(options.receiveTimeout));
      if ReplyAt(os, 0).value > 0 {
        var os2 := PendingSize(os1, id, h).0;
        assert os2.log[|os.log| + 1] == Used(id, h, Sized);
        if 0 <= ReplyAt(os, 1).value <= size {
          assert os'.log[|os.log| + 2].use.Received?;
        }
      }
    }
  }
}
