/**
 A client and an accepted stream joined by a FIFO pipe, under every
 interleaving of the client's send chunks with the reader's calls.
 */
module Pipe {
  import opened Basics
  import opened OperatingSystem
  import opened StreamIo
  import TcpServer

  /** A WriteAll in the middle of its loop. */
  datatype Job = Job(input: seq<byte>, written: nat)

  datatype Pipe = Pipe(
    os: Os,
    writerId: Id, writer: Stream, job: Option<Job>,
    readerId: Id, reader: Stream,
    accepted: seq<byte>,       // what the system took from the client
    queue: seq<byte>,          // what the system holds for the reader
    delivered: seq<byte>,      // what ReadSome returned to the reader
    statuses: seq<Status>)     // of the ReadSome calls, in order

  /** How the kernel treats one receive: an error of select or recv, no data yet, or at most `chunk` bytes. */
  datatype Mood = SelectFails | SelectTimesOut | ReceiveFails | Gives(chunk: nat)

  datatype Step =
    | StartWrite(input: seq<byte>)
    | WriteTurn(replies: seq<Reply>)
    | CloseWriter
    | ReadTurn(isNull: bool, size: nat, mood: Mood)
    | CloseReader

  function Say(value: int, again: bool): Reply {
    Reply(value, again, [], [])
  }

  /** The pipe's answers: queued bytes first, then end of stream once the writer closed, else would-block. */
  function KernelReplies(queued: seq<byte>, writerOpen: bool, mood: Mood): seq<Reply> {
    match mood
    case SelectFails => [Say(-1, false)]
    case SelectTimesOut => [Say(0, false)]
    case ReceiveFails => [Say(1, false), Say(-1, false)]
    case Gives(chunk) =>
      if queued == [] && writerOpen then [Say(1, false), Say(-1, true)]
      else if queued != [] && chunk == 0 then [Say(1, false), Say(-1, true)]
      else [Say(1, false), Reply(0, false, queued[..Min(chunk, |queued|)], [])]
  }

  /** The bytes an object's sends put into the system between two states, by its call log. */
  function NewlySent(before: Os, after: Os, id: Id): seq<byte> {
    var n := |Tally(before.log, id).sent|;
    var sent := Tally(after.log, id).sent;
    if n <= |sent| then sent[n..] else []
  }

  /** The bytes its receives took out of the system, whatever it then did with them. */
  function NewlyReceived(before: Os, after: Os, id: Id): seq<byte> {
    var n := |Tally(before.log, id).received|;
    var received := Tally(after.log, id).received;
    if n <= |received| then received[n..] else []
  }

  function Do(p: Pipe, step: Step): Pipe {
    match step
    case StartWrite(input) =>
      if p.job.None? && p.writer.open then p.(job := Some(Job(input, 0))) else p
    case WriteTurn(replies) =>
      if p.job.None? then p
      else
        var Job(input, written) := p.job.value;
        if written >= |input| then p.(job := None)
        else
          var (os, progress) :=
            Iteration(p.os.(script := replies), p.writerId, p.writer.socket, input, written, 0);
          var sent := NewlySent(p.os, os, p.writerId);
          p.(os := os, accepted := p.accepted + sent, queue := p.queue + sent,
             job := if progress.Return? then None else Some(Job(input, progress.written)))
    case CloseWriter =>
      if p.job.Some? then p
      else
        var (os, s) := Close(p.os, p.writerId, p.writer);
        p.(os := os, writer := s)
    case ReadTurn(isNull, size, mood) =>
      var replies := KernelReplies(p.queue, p.writer.open, mood);
      var (os, s, status, bytes) := ReadSome(p.os.(script := replies), p.readerId, p.reader, isNull, size, 0, true);
      var took := NewlyReceived(p.os, os, p.readerId);
      p.(os := os, reader := s, queue := p.queue[Min(|took|, |p.queue|)..],
         delivered := p.delivered + bytes, statuses := p.statuses + [status])
    case CloseReader =>
      var (os, s) := Close(p.os, p.readerId, p.reader);
      p.(os := os, reader := s)
  }

  function Run(p: Pipe, steps: seq<Step>): Pipe
    decreases |steps|
  {
    if steps == [] then p else Run(Do(p, steps[0]), steps[1..])
  }

  ghost predicate Connected(p: Pipe) {
    && p.writer.open && p.reader.open && p.job.None?
    && p.accepted == [] && p.queue == [] && p.delivered == [] && p.statuses == []
  }

  /** After a hang-up there is only NotOpen. */
  ghost predicate EndsOnce(statuses: seq<Status>) {
    forall i, j :: 0 <= i < j < |statuses| && statuses[i] == ConnectionClosed ==> statuses[j] == NotOpen
  }

  lemma EndsOnceAppend(statuses: seq<Status>, status: Status)
    requires EndsOnce(statuses) && (ConnectionClosed in statuses ==> status == NotOpen)
    ensures EndsOnce(statuses + [status])
  {
  }

  /** Nothing is lost, invented or reordered, and the end is reported only after the last byte. */
  ghost predicate Inv(p: Pipe) {
    && p.accepted == p.delivered + p.queue
    && (p.job.Some? ==> p.writer.open)
    && (ConnectionClosed in p.statuses ==> !p.reader.open && !p.writer.open && p.queue == [])
    && EndsOnce(p.statuses)
  }

  /** What the reader gets is the front of the queue; the end comes only when the queue is empty. */
  lemma ReadGivesFront(p: Pipe, isNull: bool, size: nat, mood: Mood)
    ensures var os := p.os.(script := KernelReplies(p.queue, p.writer.open, mood));
            var (_, _, status, bytes) := ReadSome(os, p.readerId, p.reader, isNull, size, 0, true);
            && |bytes| <= |p.queue| && bytes == p.queue[..|bytes|]
            && (status == ConnectionClosed ==> p.queue == [] && !p.writer.open)
            && (!p.reader.open ==> status == NotOpen)
  {
    if p.reader.open && !isNull && size != 0 && mood.Gives? && p.queue != [] && mood.chunk > 0 {
      var data := p.queue[..Min(mood.chunk, |p.queue|)];
      assert data[..Min(size, |data|)] == p.queue[..Min(size, |data|)];
    }
  }

  /** The reader returns every byte its receives took. */
  lemma ReadTakesWhatItGives(p: Pipe, isNull: bool, size: nat, mood: Mood)
    ensures var os := p.os.(script := KernelReplies(p.queue, p.writer.open, mood));
            var (os', _, _, bytes) := ReadSome(os, p.readerId, p.reader, isNull, size, 0, true);
            NewlyReceived(p.os, os', p.readerId) == bytes
  {
    hide Tally, ReadSome;
    var os := p.os.(script := KernelReplies(p.queue, p.writer.open, mood));
    ReadSomeSource(os, p.readerId, p.reader, isNull, size, 0, true);
  }

  lemma ReadTurnInv(p: Pipe, isNull: bool, size: nat, mood: Mood)
    requires Inv(p)
    ensures Inv(Do(p, ReadTurn(isNull, size, mood)))
  {
    hide ReadSome, KernelReplies, NewlyReceived, EndsOnce;
    var os := p.os.(script := KernelReplies(p.queue, p.writer.open, mood));
    var (_, s, status, bytes) := ReadSome(os, p.readerId, p.reader, isNull, size, 0, true);
    ReadSomeMeaning(os, p.readerId, p.reader, isNull, size, 0, true);
    ReadGivesFront(p, isNull, size, mood);
    ReadTakesWhatItGives(p, isNull, size, mood);
    EndsOnceAppend(p.statuses, status);
    FrontMoves(p.delivered, p.queue, bytes);
  }

  lemma FrontMoves(delivered: seq<byte>, queue: seq<byte>, bytes: seq<byte>)
    requires |bytes| <= |queue| && bytes == queue[..|bytes|]
    ensures (delivered + bytes) + queue[|bytes|..] == delivered + queue
  {
  }

  lemma DoInv(p: Pipe, step: Step)
    requires Inv(p)
    ensures Inv(Do(p, step))
  {
    hide ReadSome, KernelReplies, NewlyReceived, NewlySent, Iteration;
    match step
    case ReadTurn(isNull, size, mood) => ReadTurnInv(p, isNull, size, mood);
    case WriteTurn(_) =>
      var sent := Do(p, step).accepted[|p.accepted|..];
      assert p.delivered + (p.queue + sent) == (p.delivered + p.queue) + sent;
    case _ =>
  }

  lemma {:induction false} RunInv(p: Pipe, steps: seq<Step>)
    requires Inv(p)
    ensures Inv(Run(p, steps))
    decreases |steps|
  {
    if steps != [] {
      DoInv(p, steps[0]);
      RunInv(Do(p, steps[0]), steps[1..]);
    }
  }

  /**
   Under every interleaving the bytes read, then those still queued, are the
   bytes accepted, so reads are a prefix; ConnectionClosed means that all of
   them were delivered and the client is closed, and from then on the stream
   only reports NotOpen and never opens.
   */
  lemma ReadsArePrefix(p: Pipe, steps: seq<Step>)
    requires Connected(p)
    ensures var end := Run(p, steps);
            && end.accepted == end.delivered + end.queue
            && end.delivered <= end.accepted
            && (ConnectionClosed in end.statuses ==>
                  && end.delivered == end.accepted && !end.writer.open
                  && TcpServer.OpenAccepted(end.reader) == OpenFailed)
            && EndsOnce(end.statuses)
  {
    RunInv(p, steps);
  }

  /** What the system took and what it gave are what the two call logs say. */
  ghost predicate Logged(p: Pipe) {
    && p.writerId != p.readerId
    && (p.job.Some? ==> p.job.value.written <= |p.job.value.input|)
    && p.accepted == Tally(p.os.log, p.writerId).sent
    && p.delivered == Tally(p.os.log, p.readerId).received
  }

  lemma {:induction false} AcceptedIsSink(p: Pipe, steps: seq<Step>)
    requires Logged(p)
    ensures Logged(Run(p, steps))
    decreases |steps|
  {
    hide Logged, Do;
    if steps != [] {
      LoggedStep(p, steps[0]);
      AcceptedIsSink(Do(p, steps[0]), steps[1..]);
    }
  }

  lemma LoggedStep(p: Pipe, step: Step)
    requires Logged(p)
    ensures Logged(Do(p, step))
  {
    hide Tally, ReadSome, Iteration, KernelReplies;
    match step
    case StartWrite(_) =>
    case WriteTurn(replies) =>
      if p.job.Some? && p.job.value.written < |p.job.value.input| {
        WriteLogged(p, p.os.(script := replies), p.job.value);
      }
    case CloseWriter =>
      TallyAppend(p.os.log, Released(p.writerId, p.writer.socket), p.writerId);
      TallyAppend(p.os.log, Released(p.writerId, p.writer.socket), p.readerId);
    case CloseReader =>
      TallyAppend(p.os.log, Released(p.readerId, p.reader.socket), p.writerId);
      TallyAppend(p.os.log, Released(p.readerId, p.reader.socket), p.readerId);
    case ReadTurn(isNull, size, mood) =>
      var os := p.os.(script := KernelReplies(p.queue, p.writer.open, mood));
      ReadSomeLog(os, p.readerId, p.reader, isNull, size, 0);
      TallyFrame(p.os.log, Do(p, step).os.log, {p.readerId}, p.writerId);
      ReadSomeSource(os, p.readerId, p.reader, isNull, size, 0, true);
  }

  lemma WriteLogged(p: Pipe, os: Os, job: Job)
    requires Logged(p) && os.log == p.os.log && job.written < |job.input|
    ensures var os' := Iteration(os, p.writerId, p.writer.socket, job.input, job.written, 0).0;
            && p.accepted + NewlySent(p.os, os', p.writerId) == Tally(os'.log, p.writerId).sent
            && p.delivered == Tally(os'.log, p.readerId).received
  {
    hide Tally, Iteration;
    IterationTally(os, p.writerId, p.writer.socket, job.input, job.written, 0);
    IterationLog(os, p.writerId, p.writer.socket, job.input, job.written, 0);
    var os' := Iteration(os, p.writerId, p.writer.socket, job.input, job.written, 0).0;
    TallyFrame(os.log, os'.log, {p.writerId}, p.readerId);
  }

  /** Reads and writes only add calls of their own object to the log. */
  lemma ReadSomeLog(os: Os, id: Id, s: Stream, isNull: bool, size: nat, timeout: nat)
    ensures var os' := ReadSome(os, id, s, isNull, size, timeout, true).0;
            && |os.log| <= |os'.log| && os'.log[..|os.log|] == os.log
            && forall k :: |os.log| <= k < |os'.log| ==> os'.log[k].By({id})
  {
  }

  lemma IterationLog(os: Os, id: Id, h: int, input: seq<byte>, written: nat, timeout: nat)
    requires written < |input|
    ensures var os' := Iteration(os, id, h, input, written, timeout).0;
            && |os.log| <= |os'.log| && os'.log[..|os.log|] == os.log
            && forall k :: |os.log| <= k < |os'.log| ==> os'.log[k].By({id})
  {
  }
}
