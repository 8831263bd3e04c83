/**
 The read and write paths shared by the TCP client, accepted TCP streams and
 the serial stream, against every script of the operating system.
 */
module StreamIo {
  import opened Basics
  import opened OperatingSystem

  /** The mapping of a select result. */
  function WaitStatus(value: int, forRead: bool): Status {
    if value > 0 then Ok else if value == 0 then Timeout else if forRead then ReadFailed else WriteFailed
  }

  // ---------- writing ----------

  datatype Progress = Proceed(written: nat) | Return(status: Status)

  /** What the write loop does after one send. */
  function AfterSend(written: nat, sent: Transfer): Progress {
    match sent
    case Count(n) => if n > 0 then Proceed(written + n) else Return(WriteFailed)
    case Again => Proceed(written)
    case Failed => Return(WriteFailed)
  }

  /** Wait, then send what is left. */
  function Iteration(os: Os, id: Id, h: int, input: seq<byte>, written: nat, timeout: nat): (r: (Os, Progress))
    requires written < |input|
    ensures r.1.Proceed? ==> written <= r.1.written <= |input| && |r.0.script| < |os.script|
  {
    var (os1, value) := Select(os, id, h, timeout);
    if value <= 0 then (os1, Return(WaitStatus(value, false)))
    else
      var (os2, sent) := Send(os1, id, h, input[written..]);
      (os2, AfterSend(written, sent))
  }

  function WriteLoop(os: Os, id: Id, h: int, input: seq<byte>, written: nat, timeout: nat): (Os, Status)
    requires written <= |input|
    decreases |os.script|
  {
    if written == |input| then (os, Ok)
    else
      var (os1, progress) := Iteration(os, id, h, input, written, timeout);
      match progress
      case Proceed(w) => WriteLoop(os1, id, h, input, w, timeout)
      case Return(status) => (os1, status)
  }

  /**
   What the log says about one object: the bytes its stream sends put into the
   system and the bytes it received, in order; how often it waited and for how
   long at most; and how many of its sends reported would-block.
   */
  datatype Totals = Totals(sent: seq<byte>, received: seq<byte>, waits: nat, time: nat, agains: nat)

  function Account(totals: Totals, call: Call, id: Id): Totals {
    if !call.Used? || call.owner != id then totals
    else if call.use.Selected? then totals.(waits := totals.waits + 1, time := totals.time + call.use.timeout)
    else if call.use.Sent? then
      totals.(sent := totals.sent + call.use.bytes, agains := totals.agains + if call.use.again then 1 else 0)
    else if call.use.Received? then totals.(received := totals.received + call.use.bytes)
    else totals
  }

  function Tally(log: seq<Call>, id: Id): Totals {
    if log == [] then Totals([], [], 0, 0, 0)
    else Account(Tally(log[..|log| - 1], id), log[|log| - 1], id)
  }

  lemma TallyAppend(log: seq<Call>, call: Call, id: Id)
    ensures Tally(log + [call], id) == Account(Tally(log, id), call, id)
  {
  }

  /** The object keeps its handles as they are; only it made calls. */
  ghost predicate Calm(os: Os, os': Os, id: Id, flow: Flow := Quiet) {
    Consistent(os') && Contained(os, os', {id}, flow) && Mine(os', id) == Mine(os, id) && os'.lists == os.lists
  }

  lemma CalmWiden(os: Os, os': Os, id: Id, flow: Flow)
    requires Calm(os, os', id)
    ensures Calm(os, os', id, flow)
  {
  }

  lemma CalmRefl(os: Os, id: Id)
    requires Consistent(os)
    ensures Calm(os, os, id)
  {
  }

  lemma CalmCompose(os: Os, mid: Os, os': Os, id: Id, flow: Flow := Quiet)
    requires Calm(os, mid, id, flow) && Calm(mid, os', id, flow)
    ensures Calm(os, os', id, flow)
  {
  }

  /** Every call that only names a handle its caller holds. */
  lemma UseCalm(os: Os, id: Id, h: int, use: Use)
    requires Consistent(os) && h in Mine(os, id)
    ensures Calm(os, Note(Pop(os).0, Used(id, h, use)), id, FlowOf(use))
  {
    UsedContained(os, id, h, use);
    var os1 := Pop(os).0;
    assert Mine(os1, id) == Mine(os, id);
    UsedContained(os1, id, h, use);
    ContainedCompose(os, os1, Note(os1, Used(id, h, use)), {id}, FlowOf(use));
  }

  lemma SelectCalm(os: Os, id: Id, h: int, timeout: nat)
    requires Consistent(os) && h in Mine(os, id)
    ensures Calm(os, Select(os, id, h, timeout).0, id)
  {
    hide Calm;
    UseCalm(os, id, h, Selected(timeout));
  }

  lemma SendCalm(os: Os, id: Id, h: int, bytes: seq<byte>)
    requires Consistent(os) && h in Mine(os, id)
    ensures Calm(os, Send(os, id, h, bytes).0, id, Sending)
  {
    hide Calm;
    var r := Pop(os).1;
    UseCalm(os, id, h, if r.value < 0 then Sent([], r.again) else Sent(bytes[..Min(r.value, |bytes|)], false));
  }

  lemma ReceiveCalm(os: Os, id: Id, h: int, size: nat)
    requires Consistent(os) && h in Mine(os, id)
    ensures Calm(os, Receive(os, id, h, size).0, id, Receiving)
  {
    hide Calm;
    var r := Pop(os).1;
    UseCalm(os, id, h, Received(if r.value < 0 then [] else r.data[..Min(size, |r.data|)]));
  }

  lemma IterationCalm(os: Os, id: Id, h: int, input: seq<byte>, written: nat, timeout: nat)
    requires Consistent(os) && h in Mine(os, id) && written < |input|
    ensures Calm(os, Iteration(os, id, h, input, written, timeout).0, id, Sending)
  {
    hide Contained, Consistent, Mine, Others, Select, Send;
    var (os1, value) := Select(os, id, h, timeout);
    SelectCalm(os, id, h, timeout);
    CalmWiden(os, os1, id, Sending);
    if value > 0 {
      SendCalm(os1, id, h, input[written..]);
      CalmCompose(os, os1, Send(os1, id, h, input[written..]).0, id, Sending);
    }
  }

  lemma {:induction false} WriteLoopCalm(os: Os, id: Id, h: int, input: seq<byte>, written: nat, timeout: nat)
    requires Consistent(os) && h in Mine(os, id) && written <= |input|
    ensures Calm(os, WriteLoop(os, id, h, input, written, timeout).0, id, Sending)
    decreases |os.script|
  {
    hide Contained, Consistent, Mine, Others, Iteration;
    CalmRefl(os, id);
    CalmWiden(os, os, id, Sending);
    if written < |input| {
      var (os1, progress) := Iteration(os, id, h, input, written, timeout);
      IterationCalm(os, id, h, input, written, timeout);
      if progress.Proceed? {
        WriteLoopCalm(os1, id, h, input, progress.written, timeout);
        CalmCompose(os, os1, WriteLoop(os1, id, h, input, progress.written, timeout).0, id, Sending);
      }
    }
  }

  /** One wait, and one send. */
  lemma SelectTally(os: Os, id: Id, h: int, timeout: nat)
    ensures var before := Tally(os.log, id);
            Tally(Select(os, id, h, timeout).0.log, id)
              == before.(waits := before.waits + 1, time := before.time + timeout)
  {
  }

  lemma SendTally(os: Os, id: Id, h: int, rest: seq<byte>)
    ensures var before := Tally(os.log, id);
            var (os', sent) := Send(os, id, h, rest);
            && (sent.Count? ==> sent.n <= |rest|)
            && Tally(os'.log, id) ==
               match sent
               case Count(n) => before.(sent := before.sent + rest[..n])
               case Again => before.(agains := before.agains + 1)
               case Failed => before
  {
  }

  /** What one iteration adds to the totals. */
  lemma IterationTally(os: Os, id: Id, h: int, input: seq<byte>, written: nat, timeout: nat)
    requires written < |input|
    ensures var before := Tally(os.log, id);
            var (os', progress) := Iteration(os, id, h, input, written, timeout);
            var after := Tally(os'.log, id);
            && after.waits == before.waits + 1 && after.time == before.time + timeout
            && match progress
               case Return(status) =>
                 status in {Timeout, WriteFailed} && after.sent == before.sent && after.agains == before.agains
               case Proceed(w) =>
                 && after.sent == before.sent + input[written..w]
                 && after.agains == before.agains + (if w == written then 1 else 0)
  {
    hide Tally;
    var (os1, value) := Select(os, id, h, timeout);
    SelectTally(os, id, h, timeout);
    if value > 0 {
      SendTally(os1, id, h, input[written..]);
      var sent := Send(os1, id, h, input[written..]).1;
      if sent.Count? {
        assert input[written..][..sent.n] == input[written..written + sent.n];
      }
    }
  }

  /**
   The loop puts a prefix of what is left into the sink, the whole of it
   exactly when it reports Ok.
   */
  lemma {:induction false} WriteLoopSink(
    os: Os, id: Id, h: int, input: seq<byte>, written: nat, timeout: nat) returns (k: nat)
    requires written <= |input|
    ensures var (os', status) := WriteLoop(os, id, h, input, written, timeout);
            && written <= k <= |input|
            && Tally(os'.log, id).sent == Tally(os.log, id).sent + input[written..k]
            && (status == Ok <==> k == |input|)
            && status in {Ok, Timeout, WriteFailed}
    decreases |os.script|
  {
    hide Tally, Iteration;
    k := written;
    if written < |input| {
      var (os1, progress) := Iteration(os, id, h, input, written, timeout);
      IterationTally(os, id, h, input, written, timeout);
      if progress.Proceed? {
        var w := progress.written;
        k := WriteLoopSink(os1, id, h, input, w, timeout);
        var before := Tally(os.log, id).sent;
        assert before + input[written..k] == (before + input[written..w]) + input[w..k];
      }
    }
  }

  /** The loop waits at most once per byte and per would-block result. */
  lemma {:induction false} WriteLoopWaits(os: Os, id: Id, h: int, input: seq<byte>, written: nat, timeout: nat)
    requires written <= |input|
    ensures var (before, after) :=
              (Tally(os.log, id), Tally(WriteLoop(os, id, h, input, written, timeout).0.log, id));
            && before.agains <= after.agains && before.waits <= after.waits
            && after.waits - before.waits <= |input| - written + (after.agains - before.agains)
            && after.time == before.time + (after.waits - before.waits) * timeout
    decreases |os.script|
  {
    hide Tally, Iteration;
    if written < |input| {
      var (os1, progress) := Iteration(os, id, h, input, written, timeout);
      IterationTally(os, id, h, input, written, timeout);
      if progress.Proceed? {
        WriteLoopWaits(os1, id, h, input, progress.written, timeout);
        var os' := WriteLoop(os1, id, h, input, progress.written, timeout).0;
        var later := Tally(os'.log, id).waits - Tally(os1.log, id).waits;
        assert (later + 1) * timeout == later * timeout + timeout;
      }
    }
  }

  /** Calls by others leave an object's totals alone. */
  lemma {:induction false} TallyFrame(log: seq<Call>, log': seq<Call>, ids: set<Id>, id: Id)
    requires |log| <= |log'| && log'[..|log|] == log && id !in ids
    requires forall k :: |log| <= k < |log'| ==> log'[k].By(ids)
    ensures Tally(log', id) == Tally(log, id)
    decreases |log'|
  {
    if |log| == |log'| {
      assert log' == log;
    } else {
      var init := log'[..|log'| - 1];
      assert init[..|log|] == log;
      TallyFrame(log, init, ids, id);
      assert log'[|log'| - 1].By(ids);
    }
  }

  /** Calls that move no payload leave every sink and source alone; writing moves no input, reading no output. */
  lemma {:induction false} FlowTally(log: seq<Call>, log': seq<Call>, id: Id, flow: Flow)
    requires |log| <= |log'| && log'[..|log|] == log
    requires forall k :: |log| <= k < |log'| ==> log'[k].Allowed(flow)
    ensures !flow.Sending? ==> Tally(log', id).sent == Tally(log, id).sent
    ensures !flow.Receiving? ==> Tally(log', id).received == Tally(log, id).received
    decreases |log'|
  {
    if |log| == |log'| {
      assert log' == log;
    } else {
      var init := log'[..|log'| - 1];
      assert init[..|log|] == log;
      FlowTally(log, init, id, flow);
      assert log'[|log'| - 1].Allowed(flow);
    }
  }

  // ---------- a stream object ----------

  datatype Stream = Stream(socket: int, open: bool)

  const CLOSED := Stream(INVALID, false)

  /** The object's flag, its field and the system agree on the one handle it holds. */
  ghost predicate Owns(os: Os, id: Id, s: Stream) {
    && Consistent(os)
    && (s.open <==> s.socket != INVALID)
    && Mine(os, id).Keys == (if s.open then {s.socket} else {})
  }

  /** One call of an object: nothing of anybody else changed, and no address list is left over. */
  ghost predicate Tidy(os: Os, os': Os, id: Id, s': Stream, flow: Flow := Quiet) {
    Contained(os, os', {id}, flow) && Owns(os', id, s') && os'.lists == os.lists
  }

  /** A call that only the objects `ids` took part in leaves every other object as it was. */
  lemma OthersStayValid(os: Os, os': Os, ids: set<Id>, other: Id, s: Stream, flow: Flow)
    requires Owns(os, other, s) && Contained(os, os', ids, flow) && other !in ids
    ensures Owns(os', other, s) && Mine(os', other) == Mine(os, other)
  {
    MineOfOther(os, os', ids, other, flow);
  }

  lemma TidyAfter(os: Os, mid: Os, os': Os, id: Id, s': Stream, flow: Flow, flow': Flow := flow)
    requires Calm(os, mid, id, flow) && Tidy(mid, os', id, s', flow') && flow' in {Quiet, flow}
    ensures Tidy(os, os', id, s', flow)
  {
  }

  /** An object that keeps its handles stays what it is. */
  lemma CalmTidy(os: Os, os': Os, id: Id, s: Stream, flow: Flow)
    requires Owns(os, id, s) && Calm(os, os', id, flow)
    ensures Tidy(os, os', id, s, flow)
  {
  }

  function Close(os: Os, id: Id, s: Stream): (Os, Stream) {
    (if s.socket != INVALID then Release(os, id, s.socket) else os, CLOSED)
  }

  lemma CloseTidy(os: Os, id: Id, s: Stream)
    requires Owns(os, id, s)
    ensures Tidy(os, Close(os, id, s).0, id, CLOSED)
  {
    ContainedRefl(os, {id});
    if s.open {
      ReleaseContained(os, id, s.socket);
    }
  }

  function WriteAll(os: Os, id: Id, s: Stream, input: Input, timeout: nat): (Os, Status) {
    if !s.open then (os, NotOpen)
    else if input.Invalid() then (os, InvalidArgument)
    else WriteLoop(os, id, s.socket, input.Data(), 0, timeout)
  }

  /** How much of an input one call put into the sink. */
  ghost predicate Contributes(status: Status, input: Input, k: nat) {
    && k <= |input.Data()|
    && (status == Ok ==> k == |input.Data()|)
    && (status != Ok ==> k < |input.Data()| || k == 0)
  }

  lemma WriteAllTidy(os: Os, id: Id, s: Stream, input: Input, timeout: nat)
    requires Owns(os, id, s)
    ensures Tidy(os, WriteAll(os, id, s, input, timeout).0, id, s, Sending)
  {
    hide Contained, Consistent, Mine, Others, WriteLoop;
    CalmRefl(os, id);
    assert s.open ==> s.socket in Mine(os, id);
    CalmWiden(os, os, id, Sending);
    if s.open && !input.Invalid() {
      WriteLoopCalm(os, id, s.socket, input.Data(), 0, timeout);
    }
    CalmTidy(os, WriteAll(os, id, s, input, timeout).0, id, s, Sending);
  }

  /**
   For every sequence of partial sends, would-blocks, timeouts and errors, the
   sink gained a prefix of the input: all of it on Ok and, for a valid input to
   an open stream, only then.
   */
  lemma WriteAllSink(os: Os, id: Id, s: Stream, input: Input, timeout: nat) returns (k: nat)
    ensures var (os', status) := WriteAll(os, id, s, input, timeout);
            && Contributes(status, input, k)
            && Tally(os'.log, id).sent == Tally(os.log, id).sent + input.Data()[..k]
            && (s.open && !input.Invalid() ==> (status == Ok <==> k == |input.Data()|))
            && (status == NotOpen <==> !s.open)
            && (status == InvalidArgument <==> s.open && input.Invalid())
  {
    hide Tally;
    k := 0;
    if s.open && !input.Invalid() {
      k := WriteLoopSink(os, id, s.socket, input.Data(), 0, timeout);
    }
  }

  /** The waits of a call are bounded by its bytes and the would-blocks it met. */
  lemma WriteAllWaits(os: Os, id: Id, s: Stream, input: Input, timeout: nat)
    ensures var (before, after) :=
              (Tally(os.log, id), Tally(WriteAll(os, id, s, input, timeout).0.log, id));
            && before.waits <= after.waits && before.agains <= after.agains
            && after.waits - before.waits <= |input.Data()| + (after.agains - before.agains)
            && after.time == before.time + (after.waits - before.waits) * timeout
            && after.time - before.time <= (|input.Data()| + (after.agains - before.agains)) * timeout
  {
    hide Tally;
    if s.open && !input.Invalid() {
      var data := input.Data();
      WriteLoopWaits(os, id, s.socket, data, 0, timeout);
      var (before, after) := (Tally(os.log, id), Tally(WriteLoop(os, id, s.socket, data, 0, timeout).0.log, id));
      MultiplyBound(after.waits - before.waits, |data| + (after.agains - before.agains), timeout);
    }
  }

  lemma MultiplyBound(a: nat, b: nat, c: nat)
    requires a <= b
    ensures a * c <= b * c
  {
  }

  // ---------- reading ----------

  datatype ReadOutcome = ReadOutcome(status: Status, bytes: seq<byte>, hangUp: bool)

  /** TCP takes an empty receipt for the peer's close; the serial stream takes it for no bytes. */
  function AfterReceive(receipt: Receipt, tcp: bool): ReadOutcome {
    match receipt
    case Data(bytes) =>
      if |bytes| == 0 && tcp then ReadOutcome(ConnectionClosed, [], true) else ReadOutcome(Ok, bytes, false)
    case NoData => ReadOutcome(WouldBlock, [], false)
    case Broken => ReadOutcome(ReadFailed, [], false)
  }

  /** Receive from a readable handle; a hang-up closes the stream. */
  function ReadReady(os: Os, id: Id, s: Stream, size: nat, tcp: bool): (Os, Stream, Status, seq<byte>) {
    var (os1, receipt) := Receive(os, id, s.socket, size);
    var outcome := AfterReceive(receipt, tcp);
    var (os2, s2) := if outcome.hangUp then Close(os1, id, s) else (os1, s);
    (os2, s2, outcome.status, outcome.bytes)
  }

  function ReadSome(os: Os, id: Id, s: Stream, isNull: bool, size: nat, timeout: nat, tcp: bool)
    : (Os, Stream, Status, seq<byte>)
  {
    if !s.open then (os, s, NotOpen, [])
    else if isNull && size != 0 then (os, s, InvalidArgument, [])
    else if size == 0 then (os, s, Ok, [])
    else
      var (os1, value) := Select(os, id, s.socket, timeout);
      if value <= 0 then (os1, s, WaitStatus(value, true), []) else ReadReady(os1, id, s, size, tcp)
  }

  /** A read returns at most `size` bytes, only on Ok, and closes the stream exactly on ConnectionClosed. */
  lemma ReadSomeMeaning(os: Os, id: Id, s: Stream, isNull: bool, size: nat, timeout: nat, tcp: bool)
    ensures var (os', s', status, bytes) := ReadSome(os, id, s, isNull, size, timeout, tcp);
            && |bytes| <= size && (status != Ok ==> bytes == [])
            && (status == ConnectionClosed ==> tcp && s.open && s' == CLOSED)
            && (status != ConnectionClosed ==> s' == s)
            && (status == Ok && size > 0 && tcp ==> bytes != [])
            && (status == NotOpen <==> !s.open)
            && (status == InvalidArgument <==> s.open && isNull && size != 0)
            && (s.open && size == 0 ==> status == Ok && os' == os)
            && (status == Timeout <==> s.open && !isNull && size != 0 && Select(os, id, s.socket, timeout).1 == 0)
  {
  }

  lemma ReadSomeTidy(os: Os, id: Id, s: Stream, isNull: bool, size: nat, timeout: nat, tcp: bool)
    requires Owns(os, id, s)
    ensures var (os', s', _, _) := ReadSome(os, id, s, isNull, size, timeout, tcp);
            Tidy(os, os', id, s', Receiving)
  {
    hide Contained, Consistent, Mine, Others, ReadReady, Select;
    CalmRefl(os, id);
    assert s.open ==> s.socket in Mine(os, id);
    CalmWiden(os, os, id, Receiving);
    CalmTidy(os, os, id, s, Receiving);
    if s.open && !isNull && size != 0 {
      var (os1, value) := Select(os, id, s.socket, timeout);
      SelectCalm(os, id, s.socket, timeout);
      CalmWiden(os, os1, id, Receiving);
      CalmTidy(os, os1, id, s, Receiving);
      if value > 0 {
        ReadReadyTidy(os1, id, s, size, tcp);
        var (os', s', _, _) := ReadReady(os1, id, s, size, tcp);
        TidyAfter(os, os1, os', id, s', Receiving);
      }
    }
  }

  lemma ReadReadyTidy(os: Os, id: Id, s: Stream, size: nat, tcp: bool)
    requires Owns(os, id, s) && s.open
    ensures var (os', s', _, _) := ReadReady(os, id, s, size, tcp);
            Tidy(os, os', id, s', Receiving)
  {
    hide Contained, Consistent, Mine, Others, Receive;
    assert s.socket in Mine(os, id);
    var os1 := Receive(os, id, s.socket, size).0;
    ReceiveCalm(os, id, s.socket, size);
    CalmTidy(os, os1, id, s, Receiving);
    CloseTidy(os1, id, s);
    TidyAfter(os, os1, Close(os1, id, s).0, id, CLOSED, Receiving, Quiet);
  }

  /** The caller gets every byte the system handed over in this call, and no other. */
  lemma ReadSomeSource(os: Os, id: Id, s: Stream, isNull: bool, size: nat, timeout: nat, tcp: bool)
    ensures var (os', _, _, bytes) := ReadSome(os, id, s, isNull, size, timeout, tcp);
            Tally(os'.log, id).received == Tally(os.log, id).received + bytes
  {
    hide Tally, Select, ReadReady;
    if s.open && !isNull && size != 0 {
      var (os1, value) := Select(os, id, s.socket, timeout);
      SelectTally(os, id, s.socket, timeout);
      if value > 0 {
        ReadReadySource(os1, id, s, size, tcp);
      }
    }
  }

  lemma ReadReadySource(os: Os, id: Id, s: Stream, size: nat, tcp: bool)
    ensures var (os', _, _, bytes) := ReadReady(os, id, s, size, tcp);
            Tally(os'.log, id).received == Tally(os.log, id).received + bytes
  {
    hide Tally;
    ReceiveTally(os, id, s.socket, size);
    TallyAppend(Receive(os, id, s.socket, size).0.log, Released(id, s.socket), id);
  }

  lemma ReceiveTally(os: Os, id: Id, h: int, size: nat)
    ensures var (os', receipt) := Receive(os, id, h, size);
            Tally(os'.log, id).received
              == Tally(os.log, id).received + (if receipt.Data? then receipt.bytes else [])
  {
  }
}
