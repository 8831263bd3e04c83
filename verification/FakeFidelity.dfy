/**
 How far the fake channels keep the status semantics of the concrete transports.
 */
module FakeFidelity {
  import opened Basics
  import opened OperatingSystem
  import StreamIo
  import Udp
  import Fakes

  // ---------- UDP over a kernel queue ----------

  /**
   One Receive: datagrams that arrive while it waits, those that arrive between
   the size peek and the receive, and whether select reports an empty queue
   ready.
   */
  datatype Step = Step(isNull: bool, size: nat, during: seq<seq<byte>>, between: seq<seq<byte>>, spurious: bool)
  {
    predicate Valid() {
      !(isNull && size != 0)
    }
  }

  function Say(value: int): Reply {
    Reply(value, true, [], [])
  }

  /**
   What a kernel without faults answers: the wait, FIONREAD with the size of
   the head datagram at that time, and the head datagram at the receive.
   */
  function KernelReplies(waiting: seq<seq<byte>>, step: Step): seq<Reply> {
    var later := waiting + step.between;
    if waiting == [] && !step.spurious then [Say(0)]
    else [Say(1), Say(if waiting == [] then 0 else |waiting[0]|),
          if later == [] then Say(-1) else Reply(0, false, later[0], [])]
  }

  datatype Observation = Observation(status: Status, bytes: seq<byte>)

  /**
   Receive against the kernel: the queue afterwards, what the caller saw, and
   the datagram the kernel gave away.  It gives away the head whenever the call
   log shows a receive, whatever the transport then does with it.
   */
  function UdpStep(os: Os, id: Id, options: Udp.Options, u: Udp.Udp, queue: seq<seq<byte>>, step: Step)
    : (Os, seq<seq<byte>>, Observation, Option<seq<byte>>)
  {
    var waiting := queue + step.during;
    var later := waiting + step.between;
    var (os', status, bytes) :=
      Udp.Receive(os.(script := KernelReplies(waiting, step)), id, options, u, step.isNull, step.size);
    if Udp.Took(os.log, os'.log) && later != []
    then (os', later[1..], Observation(status, bytes), Some(later[0]))
    else (os', later, Observation(status, bytes), None)
  }

  /** The same call on the fake, with the same datagrams scripted at the same times. */
  function FakeStep(f: Fakes.FakeDatagrams, step: Step): (Fakes.FakeDatagrams, Observation) {
    var (f', status, bytes) := Fakes.ReceiveDatagram(f.(queue := f.queue + step.during), step.isNull, step.size);
    (f'.(queue := f'.queue + step.between), Observation(status, bytes))
  }

  datatype UdpResult = UdpResult(queue: seq<seq<byte>>, seen: seq<Observation>, given: seq<Option<seq<byte>>>)

  function UdpRun(os: Os, id: Id, options: Udp.Options, u: Udp.Udp, queue: seq<seq<byte>>, steps: seq<Step>)
    : (r: UdpResult)
    ensures |r.seen| == |r.given| == |steps|
    decreases |steps|
  {
    if steps == [] then UdpResult(queue, [], [])
    else
      var (os1, queue1, seen, given) := UdpStep(os, id, options, u, queue, steps[0]);
      var rest := UdpRun(os1, id, options, u, queue1, steps[1..]);
      UdpResult(rest.queue, [seen] + rest.seen, [given] + rest.given)
  }

  function FakeRun(f: Fakes.FakeDatagrams, steps: seq<Step>): (r: (seq<seq<byte>>, seq<Observation>))
    ensures |r.1| == |steps|
    decreases |steps|
  {
    if steps == [] then (f.queue, [])
    else
      var (f1, seen) := FakeStep(f, steps[0]);
      var (queue, rest) := FakeRun(f1, steps[1..]);
      (queue, [seen] + rest)
  }

  /** Equal, but for the timeout that only a waiting transport can report. */
  predicate Alike(real': Observation, fake: Observation) {
    real' == fake || (real'.status == Timeout && fake.status == WouldBlock && real'.bytes == fake.bytes)
  }

  predicate AllAlike(real': seq<Observation>, fake: seq<Observation>)
    requires |real'| == |fake|
  {
    forall i :: 0 <= i < |fake| ==> Alike(real'[i], fake[i])
  }

  /**
   The one race: select reports an empty queue ready, the peek finds size zero,
   and a datagram arrives before the receive.
   */
  predicate Races(open: bool, queue: seq<seq<byte>>, step: Step) {
    open && step.Valid() && queue + step.during == [] && step.spurious && step.between != []
  }

  /** UDP's step in plain terms. */
  lemma UdpStepMeaning(os: Os, id: Id, options: Udp.Options, u: Udp.Udp, queue: seq<seq<byte>>, step: Step)
    ensures var (_, queue', seen, given) := UdpStep(os, id, options, u, queue, step);
            var waiting := queue + step.during;
            var later := waiting + step.between;
            var idle := waiting == [] && !step.spurious;
            if !u.stream.open then seen == Observation(NotOpen, []) && queue' == later && given == None
            else if !step.Valid() then seen == Observation(InvalidArgument, []) && queue' == later && given == None
            else if idle then seen == Observation(Timeout, []) && queue' == later && given == None
            else if later == [] then seen == Observation(WouldBlock, []) && queue' == [] && given == None
            else if waiting != [] && step.size < |waiting[0]|
            then seen == Observation(OutputBufferTooSmall, []) && queue' == later && given == None
            else seen == Observation(Ok, later[0][..Min(step.size, |later[0]|)])
                 && queue' == later[1..] && given == Some(later[0])
  {
    hide Udp.Receive, Udp.Took;
    var os0 := os.(script := KernelReplies(queue + step.during, step));
    Udp.ReceiveStatus(os0, id, options, u, step.isNull, step.size);
    Udp.TookMeaning(os0, id, options, u, step.isNull, step.size);
  }

  /** A step of UDP agrees with the fake's if and only if it does not race. */
  lemma StepSimulated(os: Os, id: Id, options: Udp.Options, u: Udp.Udp, f: Fakes.FakeDatagrams, step: Step)
    requires f.open == u.stream.open && f.nextReceive == Ok
    ensures var (_, queue', real', _) := UdpStep(os, id, options, u, f.queue, step);
            var (f', fake) := FakeStep(f, step);
            && (Alike(real', fake) <==> !Races(f.open, f.queue, step))
            && (Alike(real', fake) ==> f'.queue == queue')
            && f'.open == f.open && f'.nextReceive == Ok
  {
    hide UdpStep;
    UdpStepMeaning(os, id, options, u, f.queue, step);
    var waiting := f.queue + step.during;
    if waiting != [] {
      assert (waiting + step.between)[0] == waiting[0];
      assert (waiting + step.between)[1..] == waiting[1..] + step.between;
    }
  }

  /**
   What a race does: the fake would block and keeps the datagram; UDP reports
   Ok with as much of it as fits and drops the rest, which is lost.
   */
  lemma RaceTruncates(os: Os, id: Id, options: Udp.Options, u: Udp.Udp, f: Fakes.FakeDatagrams, step: Step)
    requires f.open == u.stream.open && f.nextReceive == Ok && Races(f.open, f.queue, step)
    ensures var (_, queue', real', given) := UdpStep(os, id, options, u, f.queue, step);
            var (f', fake) := FakeStep(f, step);
            var first := step.between[0];
            && fake == Observation(WouldBlock, []) && f'.queue == step.between
            && real' == Observation(Ok, first[..Min(step.size, |first|)])
            && queue' == step.between[1..] && given == Some(first)
            && (real'.bytes == first <==> |first| <= step.size)
  {
    hide UdpStep;
    UdpStepMeaning(os, id, options, u, f.queue, step);
    assert f.queue + step.during + step.between == step.between;
  }

  /** The race at a concrete input: one byte of three arrives, and the fake still has all of them. */
  lemma TruncatedExample(os: Os, id: Id, options: Udp.Options)
    ensures var step := Step(false, 1, [], [[7, 8, 9]], true);
            var u := Udp.Udp(StreamIo.Stream(3, true), false);
            var f := Fakes.INITIAL_DATAGRAMS.(open := true);
            && UdpStep(os, id, options, u, [], step).1 == []
            && UdpStep(os, id, options, u, [], step).2 == Observation(Ok, [7])
            && FakeStep(f, step).0.queue == [[7, 8, 9]]
            && FakeStep(f, step).1 == Observation(WouldBlock, [])
  {
    hide UdpStep;
    var step := Step(false, 1, [], [[7, 8, 9]], true);
    var u := Udp.Udp(StreamIo.Stream(3, true), false);
    RaceTruncates(os, id, options, u, Fakes.INITIAL_DATAGRAMS.(open := true), step);
    assert step.between[0][..1] == [7];
  }

  /** Some step of the fake's run races. */
  predicate RunRaces(f: Fakes.FakeDatagrams, steps: seq<Step>)
    decreases |steps|
  {
    steps != [] && (Races(f.open, f.queue, steps[0]) || RunRaces(FakeStep(f, steps[0]).0, steps[1..]))
  }

  /**
   On every fault-free run UDP Receive agrees with the fake on the kernel queue
   call by call if and only if no step races, and then it leaves the same queue.
   */
  lemma {:induction false} ReceiveSimulated(
    os: Os, id: Id, options: Udp.Options, u: Udp.Udp, f: Fakes.FakeDatagrams, steps: seq<Step>)
    requires f.open == u.stream.open && f.nextReceive == Ok
    ensures var real' := UdpRun(os, id, options, u, f.queue, steps);
            var (queue, fake) := FakeRun(f, steps);
            && (AllAlike(real'.seen, fake) <==> !RunRaces(f, steps))
            && (!RunRaces(f, steps) ==> real'.queue == queue)
    decreases |steps|
  {
    hide UdpStep, FakeStep, Alike, Races;
    if steps != [] {
      StepSimulated(os, id, options, u, f, steps[0]);
      var (os1, queue1, seen, _) := UdpStep(os, id, options, u, f.queue, steps[0]);
      var (f1, fakeSeen) := FakeStep(f, steps[0]);
      var rest, fakeRest := UdpRun(os1, id, options, u, queue1, steps[1..]), FakeRun(f1, steps[1..]);
      AllAlikeCons(seen, fakeSeen, rest.seen, fakeRest.1);
      if Alike(seen, fakeSeen) {
        ReceiveSimulated(os1, id, options, u, f1, steps[1..]);
      }
    }
  }

  lemma AllAlikeCons(seen: Observation, fakeSeen: Observation, rest: seq<Observation>, fakeRest: seq<Observation>)
    requires |rest| == |fakeRest|
    ensures AllAlike([seen] + rest, [fakeSeen] + fakeRest) <==> Alike(seen, fakeSeen) && AllAlike(rest, fakeRest)
  {
    hide Alike;
    var all, fakeAll := [seen] + rest, [fakeSeen] + fakeRest;
    if AllAlike(all, fakeAll) {
      assert Alike(all[0], fakeAll[0]);
      forall i | 0 <= i < |rest| ensures Alike(rest[i], fakeRest[i]) {
        assert Alike(all[i + 1], fakeAll[i + 1]);
      }
    }
  }

  function Given(given: seq<Option<seq<byte>>>): seq<seq<byte>> {
    if given == [] then [] else (if given[0].Some? then [given[0].value] else []) + Given(given[1..])
  }

  function Arrived(steps: seq<Step>): seq<seq<byte>> {
    if steps == [] then [] else steps[0].during + steps[0].between + Arrived(steps[1..])
  }

  lemma StepGives(os: Os, id: Id, options: Udp.Options, u: Udp.Udp, queue: seq<seq<byte>>, step: Step)
    ensures var (_, queue', seen, given) := UdpStep(os, id, options, u, queue, step);
            && Given([given]) + queue' == queue + (step.during + step.between)
            && GivenToCaller(queue, u.stream.open, step, seen, given)
  {
    hide UdpStep;
    UdpStepMeaning(os, id, options, u, queue, step);
  }

  /** Ok exactly when a datagram was given away, and then its front, all of it unless the step races. */
  ghost predicate GivenToCaller(
    queue: seq<seq<byte>>, open: bool, step: Step, seen: Observation, given: Option<seq<byte>>)
  {
    && (seen.status == Ok <==> given.Some?)
    && (given.Some? ==> seen.bytes == given.value[..Min(step.size, |given.value|)])
    && (given.Some? && |given.value| > step.size ==> Races(open, queue, step))
    && (given.None? ==> seen.bytes == [])
  }

  /** Every call of a run, at the queue it finds. */
  ghost predicate AllGivenToCaller(
    os: Os, id: Id, options: Udp.Options, u: Udp.Udp, queue: seq<seq<byte>>, steps: seq<Step>)
    decreases |steps|
  {
    steps != [] ==>
      var (os1, queue1, seen, given) := UdpStep(os, id, options, u, queue, steps[0]);
      && GivenToCaller(queue, u.stream.open, steps[0], seen, given)
      && AllGivenToCaller(os1, id, options, u, queue1, steps[1..])
  }

  /**
   On every fault-free run of UDP, races included: what the kernel gave away,
   then what is queued, is what was there and what arrived, in order; each
   caller got the front of the datagram given to it, and all of it but in a race.
   */
  lemma {:induction false} UdpConserves(
    os: Os, id: Id, options: Udp.Options, u: Udp.Udp, queue: seq<seq<byte>>, steps: seq<Step>)
    ensures var r := UdpRun(os, id, options, u, queue, steps);
            && Given(r.given) + r.queue == queue + Arrived(steps)
            && AllGivenToCaller(os, id, options, u, queue, steps)
    decreases |steps|
  {
    hide UdpStep, GivenToCaller;
    if steps != [] {
      var (os1, queue1, seen, given) := UdpStep(os, id, options, u, queue, steps[0]);
      StepGives(os, id, options, u, queue, steps[0]);
      UdpConserves(os1, id, options, u, queue1, steps[1..]);
      var rest := UdpRun(os1, id, options, u, queue1, steps[1..]);
      assert ([given] + rest.given)[1..] == rest.given;
      calc {
        Given([given] + rest.given) + rest.queue;
        Given([given]) + (Given(rest.given) + rest.queue);
        (Given([given]) + queue1) + Arrived(steps[1..]);
        queue + Arrived(steps);
      }
    }
  }

  /** Every datagram of the fake is delivered whole and once, in order, or is still queued. */
  function Delivered(seen: seq<Observation>): seq<seq<byte>> {
    if seen == [] then [] else (if seen[0].status == Ok then [seen[0].bytes] else []) + Delivered(seen[1..])
  }

  lemma StepConserves(f: Fakes.FakeDatagrams, step: Step)
    requires f.nextReceive == Ok
    ensures var (f', seen) := FakeStep(f, step);
            && f'.nextReceive == Ok
            && Delivered([seen]) + f'.queue == f.queue + (step.during + step.between)
  {
  }

  lemma {:induction false} DatagramsConserved(f: Fakes.FakeDatagrams, steps: seq<Step>)
    requires f.nextReceive == Ok
    ensures var (queue, seen) := FakeRun(f, steps);
            Delivered(seen) + queue == f.queue + Arrived(steps)
    decreases |steps|
  {
    hide FakeStep;
    if steps != [] {
      var (f1, seen) := FakeStep(f, steps[0]);
      StepConserves(f, steps[0]);
      DatagramsConserved(f1, steps[1..]);
      var (queue, rest) := FakeRun(f1, steps[1..]);
      assert ([seen] + rest)[1..] == rest;
      calc {
        Delivered([seen] + rest) + queue;
        Delivered([seen]) + (Delivered(rest) + queue);
        (Delivered([seen]) + f1.queue) + Arrived(steps[1..]);
        f.queue + Arrived(steps);
      }
    }
  }

  // ---------- single calls: could the concrete transport have answered so? ----------

  /** With these replies UDP would report the same status and bytes. */
  ghost predicate UdpReceives(
    os: Os, id: Id, options: Udp.Options, u: Udp.Udp, isNull: bool, size: nat,
    replies: seq<Reply>, status: Status, bytes: seq<byte>)
  {
    var (_, status', bytes') := Udp.Receive(os.(script := replies), id, options, u, isNull, size);
    status' == status && bytes' == bytes
  }

  /** Some UDP socket could have answered like the fake, unless an injected status is not one of Receive's. */
  lemma FakeReceiveIsUdpReceive(
    f: Fakes.FakeDatagrams, os: Os, id: Id, options: Udp.Options, u: Udp.Udp, isNull: bool, size: nat)
    requires f.open == u.stream.open
    ensures var (_, status, bytes) := Fakes.ReceiveDatagram(f, isNull, size);
            (exists replies :: UdpReceives(os, id, options, u, isNull, size, replies, status, bytes))
            <==> !f.open || (isNull && size != 0)
                 || f.nextReceive in {Ok, Timeout, WouldBlock, ReadFailed, OutputBufferTooSmall}
  {
    hide Udp.Receive;
    var (_, status, bytes) := Fakes.ReceiveDatagram(f, isNull, size);
    forall replies
      ensures UdpReceives(os, id, options, u, isNull, size, replies, status, bytes) ==>
                !f.open || (isNull && size != 0)
                || f.nextReceive in {Ok, Timeout, WouldBlock, ReadFailed, OutputBufferTooSmall}
    {
      Udp.ReceiveStatus(os.(script := replies), id, options, u, isNull, size);
    }
    var replies :=
      if status == Timeout then [Say(0)]
      else if status == ReadFailed then [Say(-1)]
      else if status == OutputBufferTooSmall then [Say(1), Say(size + 1)]
      else if status == WouldBlock then [Say(1), Say(0), Say(-1)]
      else [Say(1), Say(0), Reply(0, false, bytes, [])];
    Udp.ReceiveStatus(os.(script := replies), id, options, u, isNull, size);
    assert status == Ok ==> bytes[..Min(size, |bytes|)] == bytes;
    if !f.open || (isNull && size != 0)
       || f.nextReceive in {Ok, Timeout, WouldBlock, ReadFailed, OutputBufferTooSmall} {
      assert UdpReceives(os, id, options, u, isNull, size, replies, status, bytes);
    }
  }

  /** With these replies UDP would report the same status and send the same datagrams. */
  ghost predicate UdpSends(
    os: Os, id: Id, options: Udp.Options, u: Udp.Udp, input: Input,
    replies: seq<Reply>, status: Status, sent: seq<seq<byte>>)
  {
    var (os', status') := Udp.Send(os.(script := replies), id, options, u, input);
    status' == status && Udp.Datagrams(os'.log, id) == Udp.Datagrams(os.log, id) + sent
  }

  /**
   The same for Send: without a configured remote UDP always rejects a valid
   input, which the fake accepts; otherwise only the injected status matters.
   */
  lemma FakeSendIsUdpSend(
    f: Fakes.FakeDatagrams, os: Os, id: Id, options: Udp.Options, u: Udp.Udp, input: Input)
    requires f.open == u.stream.open
    ensures var (f', status) := Fakes.SendDatagram(f, input);
            (exists replies :: UdpSends(os, id, options, u, input, replies, status, f'.sent[|f.sent|..]))
            <==> !f.open || input.Invalid()
                 || (if u.remote then f.nextSend in {Ok, Timeout, WouldBlock, WriteFailed}
                     else f.nextSend == InvalidArgument)
  {
    hide Udp.Send, Udp.Datagrams;
    var (f', status) := Fakes.SendDatagram(f, input);
    var sent := f'.sent[|f.sent|..];
    assert sent == if status == Ok && f.open then [input.Data()] else [];
    var before := Udp.Datagrams(os.log, id);
    assert before + [] == before;
    forall replies
      ensures UdpSends(os, id, options, u, input, replies, status, sent) ==>
                !f.open || input.Invalid()
                || (if u.remote then f.nextSend in {Ok, Timeout, WouldBlock, WriteFailed}
                    else f.nextSend == InvalidArgument)
    {
      Udp.SendStatus(os.(script := replies), id, options, u, input);
    }
    var replies :=
      if status == Timeout then [Say(0)]
      else if status == WriteFailed then [Say(-1)]
      else if status == WouldBlock then [Say(1), Say(-1)]
      else [Say(1), Say(|input.Data()|)];
    Udp.SendStatus(os.(script := replies), id, options, u, input);
    Udp.SendMeaning(os.(script := replies), id, options, u, input);
    if !f.open || input.Invalid()
       || (if u.remote then f.nextSend in {Ok, Timeout, WouldBlock, WriteFailed} else f.nextSend == InvalidArgument) {
      FailedWaitSendsNothing(os, id, options, u, input);
      assert UdpSends(os, id, options, u, input, replies, status, sent);
    }
  }

  lemma FailedWaitSendsNothing(os: Os, id: Id, options: Udp.Options, u: Udp.Udp, input: Input)
    ensures var os' := Udp.Send(os.(script := [Say(-1)]), id, options, u, input).0;
            Udp.Datagrams(os'.log, id) == Udp.Datagrams(os.log, id)
  {
    Udp.DatagramsAppend(os.log, Used(id, u.stream.socket, Selected(options.sendTimeout)), id);
  }

  /** With these replies a TCP stream would report the same status and bytes. */
  ghost predicate TcpAgrees(
    os: Os, id: Id, s: StreamIo.Stream, isNull: bool, size: nat, timeout: nat,
    replies: seq<Reply>, status: Status, bytes: seq<byte>)
  {
    var (_, _, status', bytes') := StreamIo.ReadSome(os.(script := replies), id, s, isNull, size, timeout, true);
    status' == status && bytes' == bytes
  }

  /** What makes a fake read one that TCP could have made. */
  predicate Readable(f: Fakes.FakeStream, isNull: bool, size: nat) {
    || !f.open || (isNull && size != 0)
    || (if f.nextRead != Ok then size != 0 && f.nextRead in {Timeout, WouldBlock, ReadFailed, ConnectionClosed}
        else if size == 0 then f.chunks != []
        else f.chunks == [] || f.chunks[0] != [])
  }

  /**
   The exact reach of the promise for reads: some TCP stream could have
   answered like the fake, except for a zero-size read of an empty fake (the
   fake would block, TCP succeeds), a sized read of an empty chunk (the fake
   succeeds with no bytes, which TCP never does), an injected status on a
   zero-size read, and an injected status that is not one of TCP's.
   */
  lemma FakeReadIsTcpRead(
    f: Fakes.FakeStream, os: Os, id: Id, s: StreamIo.Stream, isNull: bool, size: nat, timeout: nat)
    requires f.open == s.open
    ensures var (_, status, bytes) := Fakes.ReadSome(f, isNull, size);
            (exists replies :: TcpAgrees(os, id, s, isNull, size, timeout, replies, status, bytes))
            <==> Readable(f, isNull, size)
  {
    var (_, status, bytes) := Fakes.ReadSome(f, isNull, size);
    forall replies | TcpAgrees(os, id, s, isNull, size, timeout, replies, status, bytes)
      ensures Readable(f, isNull, size)
    {
      StreamIo.ReadSomeMeaning(os.(script := replies), id, s, isNull, size, timeout, true);
    }
    if Readable(f, isNull, size) {
      var replies :=
        if status == Timeout then [Say(0)]
        else if status == ReadFailed then [Say(-1)]
        else if status == WouldBlock then [Say(1), Say(-1)]
        else [Say(1), Reply(0, false, if status == Ok && f.chunks != [] then f.chunks[0] else [], [])];
      assert TcpAgrees(os, id, s, isNull, size, timeout, replies, status, bytes);
    }
  }

  /** With these replies a TCP stream would report the same status and put the same bytes into its sink. */
  ghost predicate TcpWrites(
    os: Os, id: Id, s: StreamIo.Stream, input: Input, timeout: nat,
    replies: seq<Reply>, status: Status, bytes: seq<byte>)
  {
    var (os', status') := StreamIo.WriteAll(os.(script := replies), id, s, input, timeout);
    status' == status && StreamIo.Tally(os'.log, id).sent == StreamIo.Tally(os.log, id).sent + bytes
  }

  ghost predicate TcpCouldWrite(
    os: Os, id: Id, s: StreamIo.Stream, input: Input, timeout: nat, status: Status, bytes: seq<byte>)
  {
    exists replies :: TcpWrites(os, id, s, input, timeout, replies, status, bytes)
  }

  /** What makes a fake write one that TCP could have made: an injected status needs data and to be one of TCP's. */
  predicate Writable(f: Fakes.FakeStream, input: Input) {
    !f.open || input.Invalid() || f.nextWrite == Ok || (input.Data() != [] && f.nextWrite in {Timeout, WriteFailed})
  }

  lemma FakeWriteIsTcpWrite(
    f: Fakes.FakeStream, os: Os, id: Id, s: StreamIo.Stream, input: Input, timeout: nat)
    requires f.open == s.open
    ensures var (f', status) := Fakes.WriteAll(f, input);
            TcpCouldWrite(os, id, s, input, timeout, status, Fakes.Flat(f'.writes[|f.writes|..]))
            <==> Writable(f, input)
  {
    hide StreamIo.WriteAll, StreamIo.Tally;
    var (f', status) := Fakes.WriteAll(f, input);
    var new' := f'.writes[|f.writes|..];
    assert new' == if status == Ok && f.open then [input.Data()] else [];
    var bytes := Fakes.Flat(new');
    assert bytes == if status == Ok && f.open then input.Data() else [] by {
      Fakes.FlatAppend([], input.Data());
      assert [] + [input.Data()] == [input.Data()];
    }
    forall replies | TcpWrites(os, id, s, input, timeout, replies, status, bytes)
      ensures Writable(f, input)
    {
      WriteStatuses(os.(script := replies), id, s, input, timeout);
    }
    if Writable(f, input) {
      var replies := WriteReplies(status, input.Data());
      WriteWith(os, id, s, input, timeout, status);
      assert TcpWrites(os, id, s, input, timeout, replies, status, bytes);
    }
  }

  /** A wait that times out or fails, or one send that takes everything. */
  function WriteReplies(status: Status, data: seq<byte>): seq<Reply> {
    if status == Timeout then [Say(0)] else if status == WriteFailed then [Say(-1)] else [Say(1), Say(|data|)]
  }

  /** The statuses a write can have; with nothing to write, only Ok once past the guards. */
  lemma WriteStatuses(os: Os, id: Id, s: StreamIo.Stream, input: Input, timeout: nat)
    ensures var status := StreamIo.WriteAll(os, id, s, input, timeout).1;
            s.open && !input.Invalid() ==>
              status in {Ok, Timeout, WriteFailed} && (input.Data() == [] ==> status == Ok)
  {
    if s.open && !input.Invalid() {
      var _ := StreamIo.WriteLoopSink(os, id, s.socket, input.Data(), 0, timeout);
    }
  }

  /** Each status a write can have is reached with the replies above. */
  lemma WriteWith(os: Os, id: Id, s: StreamIo.Stream, input: Input, timeout: nat, status: Status)
    requires if !s.open then status == NotOpen
             else if input.Invalid() then status == InvalidArgument
             else status == Ok || (input.Data() != [] && status in {Timeout, WriteFailed})
    ensures TcpWrites(os, id, s, input, timeout, WriteReplies(status, input.Data()), status,
                      if status == Ok then input.Data() else [])
  {
    hide StreamIo.Tally;
    var data := input.Data();
    var os0 := os.(script := WriteReplies(status, data));
    var before := StreamIo.Tally(os.log, id).sent;
    assert before + [] == before;
    if s.open && !input.Invalid() {
      WriteLoopWith(os0, id, s.socket, data, timeout, status);
      var k := StreamIo.WriteLoopSink(os0, id, s.socket, data, 0, timeout);
      assert data[0..|data|] == data;
    }
  }

  lemma WriteLoopWith(os: Os, id: Id, h: int, data: seq<byte>, timeout: nat, status: Status)
    requires os.script == WriteReplies(status, data)
    requires status == Ok || (data != [] && status in {Timeout, WriteFailed})
    ensures var (os', status') := StreamIo.WriteLoop(os, id, h, data, 0, timeout);
            status' == status
            && (status != Ok ==> StreamIo.Tally(os'.log, id).sent == StreamIo.Tally(os.log, id).sent)
  {
    hide StreamIo.Tally;
    if data != [] {
      var (os1, value) := Select(os, id, h, timeout);
      StreamIo.SelectTally(os, id, h, timeout);
      if status == Ok {
        assert data[0..] == data;
        var os2 := Send(os1, id, h, data).0;
        assert StreamIo.Iteration(os, id, h, data, 0, timeout) == (os2, StreamIo.Proceed(|data|));
        assert StreamIo.WriteLoop(os2, id, h, data, |data|, timeout) == (os2, Ok);
      }
    }
  }

  /**
   After reads with the same status the fake and the TCP stream agree on being
   open, except for an injected ConnectionClosed: TCP closes, the fake does not.
   */
  lemma OpenAfterRead(
    f: Fakes.FakeStream, os: Os, id: Id, s: StreamIo.Stream, isNull: bool, size: nat, timeout: nat)
    requires f.open && s.open
    requires Fakes.ReadSome(f, isNull, size).1 == StreamIo.ReadSome(os, id, s, isNull, size, timeout, true).2
    ensures var (f', status, _) := Fakes.ReadSome(f, isNull, size);
            var (_, s', _, _) := StreamIo.ReadSome(os, id, s, isNull, size, timeout, true);
            (f'.open <==> s'.open) <==> status != ConnectionClosed
  {
  }
}
