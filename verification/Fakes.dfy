/**
 The fake channels on values: a chunked byte stream, a datagram queue and a
 clock, with what every run of calls on them conserves.
 */
module Fakes {
  import opened Basics

  // ---------- byte stream ----------

  datatype FakeStream = FakeStream(
    open: bool, chunks: seq<seq<byte>>, writes: seq<seq<byte>>, nextRead: Status, nextWrite: Status)

  const INITIAL_STREAM := FakeStream(false, [], [], Ok, Ok)

  function OpenStream(f: FakeStream): (FakeStream, Status) {
    if f.open then (f, AlreadyOpen) else (f.(open := true), Ok)
  }

  function ReadSome(f: FakeStream, isNull: bool, size: nat): (FakeStream, Status, seq<byte>) {
    if !f.open then (f, NotOpen, [])
    else if isNull && size != 0 then (f, InvalidArgument, [])
    else if f.nextRead != Ok then (f.(nextRead := Ok), f.nextRead, [])
    else if f.chunks == [] then (f, WouldBlock, [])
    else
      var chunk := f.chunks[0];
      var count := Min(size, |chunk|);
      var rest := if count == |chunk| then f.chunks[1..] else [chunk[count..]] + f.chunks[1..];
      (f.(chunks := rest), Ok, chunk[..count])
  }

  function WriteAll(f: FakeStream, input: Input): (FakeStream, Status) {
    if !f.open then (f, NotOpen)
    else if input.Invalid() then (f, InvalidArgument)
    else if f.nextWrite != Ok then (f.(nextWrite := Ok), f.nextWrite)
    else (f.(writes := f.writes + [input.Data()]), Ok)
  }

  datatype Command =
    | Open
    | Close
    | Read(isNull: bool, size: nat)
    | Write(input: Input)
    | ScriptRead(bytes: seq<byte>)
    | ScriptReadStatus(status: Status)
    | ScriptWriteStatus(status: Status)

  /** What a run of calls returned, was told and was given. */
  datatype History = History(read: seq<byte>, scripted: seq<byte>, written: seq<seq<byte>>)

  function Do(f: FakeStream, h: History, c: Command): (FakeStream, History) {
    match c
    case Open => (OpenStream(f).0, h)
    case Close => (f.(open := false), h)
    case Read(isNull, size) =>
      var (f', status, bytes) := ReadSome(f, isNull, size);
      (f', if status == Ok then h.(read := h.read + bytes) else h)
    case Write(input) =>
      var (f', status) := WriteAll(f, input);
      (f', if status == Ok then h.(written := h.written + [input.Data()]) else h)
    case ScriptRead(bytes) => (f.(chunks := f.chunks + [bytes]), h.(scripted := h.scripted + bytes))
    case ScriptReadStatus(status) => (f.(nextRead := status), h)
    case ScriptWriteStatus(status) => (f.(nextWrite := status), h)
  }

  function Run(f: FakeStream, h: History, commands: seq<Command>): (FakeStream, History)
    decreases |commands|
  {
    if commands == [] then (f, h)
    else
      var (f1, h1) := Do(f, h, commands[0]);
      Run(f1, h1, commands[1..])
  }

  function Flat(chunks: seq<seq<byte>>): seq<byte> {
    if chunks == [] then [] else chunks[0] + Flat(chunks[1..])
  }

  lemma {:induction false} FlatAppend(chunks: seq<seq<byte>>, last: seq<byte>)
    ensures Flat(chunks + [last]) == Flat(chunks) + last
  {
    if chunks == [] {
      assert chunks + [last] == [last];
      assert Flat([last]) == last + Flat([last][1..]);
    } else {
      assert (chunks + [last])[1..] == chunks[1..] + [last];
      FlatAppend(chunks[1..], last);
    }
  }

  /**
   An Ok read is the front of the first chunk, never across its end; together
   with what is left it is the flat queue.  Any other status consumes nothing;
   with no status injected it is WouldBlock, and exactly when nothing is left.
   */
  lemma ReadTakesFromFront(f: FakeStream, isNull: bool, size: nat)
    ensures var (f', status, bytes) := ReadSome(f, isNull, size);
            && bytes + Flat(f'.chunks) == Flat(f.chunks)
            && (status == Ok ==> f.chunks != [] && bytes == f.chunks[0][..Min(size, |f.chunks[0]|)])
            && (status != Ok ==> bytes == [] && f'.chunks == f.chunks)
            && f'.open == f.open && f'.writes == f.writes && f'.nextWrite == f.nextWrite
            && (!f.open ==> status == NotOpen && f' == f)
            && (f.open && isNull && size != 0 ==> status == InvalidArgument && f' == f)
            && (f.open && !(isNull && size != 0) ==>
                  && f'.nextRead == Ok
                  && status == if f.nextRead != Ok then f.nextRead else if f.chunks == [] then WouldBlock else Ok)
  {
  }

  /** A write is recorded exactly when it is valid, the stream is open and no status is injected. */
  lemma WriteIsRecorded(f: FakeStream, input: Input)
    ensures var (f', status) := WriteAll(f, input);
            var invalid := input.Null? && input.size != 0;
            && (!f.open ==> status == NotOpen && f' == f)
            && (f.open && invalid ==> status == InvalidArgument && f' == f)
            && (f.open && !invalid ==> status == f.nextWrite && f'.nextWrite == Ok)
            && f'.writes == (if f.open && !invalid && f.nextWrite == Ok then f.writes + [input.Data()] else f.writes)
            && f'.chunks == f.chunks && f'.nextRead == f.nextRead && f'.open == f.open
  {
  }

  /** Reads so far, then pending bytes, are what was scripted; the write log is the accepted writes. */
  ghost predicate Balanced(f: FakeStream, h: History) {
    h.read + Flat(f.chunks) == h.scripted && f.writes == h.written
  }

  lemma DoBalanced(f: FakeStream, h: History, c: Command)
    requires Balanced(f, h)
    ensures Balanced(Do(f, h, c).0, Do(f, h, c).1)
  {
    hide Flat;
    match c
    case Read(isNull, size) =>
      ReadTakesFromFront(f, isNull, size);
      var (f', status, bytes) := ReadSome(f, isNull, size);
      assert h.read + (bytes + Flat(f'.chunks)) == (h.read + bytes) + Flat(f'.chunks);
    case ScriptRead(bytes) =>
      FlatAppend(f.chunks, bytes);
      assert h.read + (Flat(f.chunks) + bytes) == (h.read + Flat(f.chunks)) + bytes;
    case _ =>
  }

  /** Over every run, with any buffer sizes, injected failures, closes and reopens. */
  lemma {:induction false} RunBalanced(f: FakeStream, h: History, commands: seq<Command>)
    requires Balanced(f, h)
    ensures Balanced(Run(f, h, commands).0, Run(f, h, commands).1)
    decreases |commands|
  {
    if commands != [] {
      DoBalanced(f, h, commands[0]);
      var (f1, h1) := Do(f, h, commands[0]);
      RunBalanced(f1, h1, commands[1..]);
    }
  }

  lemma NothingLostOrInvented(commands: seq<Command>)
    ensures var (f, h) := Run(INITIAL_STREAM, History([], [], []), commands);
            h.read + Flat(f.chunks) == h.scripted && f.writes == h.written
  {
    RunBalanced(INITIAL_STREAM, History([], [], []), commands);
  }

  // ---------- injected statuses ----------

  lemma {:induction false} RunConcat(f: FakeStream, h: History, a: seq<Command>, b: seq<Command>)
    ensures Run(f, h, a + b) == var (f1, h1) := Run(f, h, a); Run(f1, h1, b)
    decreases |a|
  {
    if a == [] {
      assert a + b == b;
    } else {
      assert (a + b)[1..] == a[1..] + b;
      var (f1, h1) := Do(f, h, a[0]);
      RunConcat(f1, h1, a[1..], b);
    }
  }

  /**
   An injected status is reported by the next accepted call and by no other: a
   run with a status injected and reported anywhere in it goes on, and ends, as
   if neither had happened.
   */
  lemma InjectedOnce(
    f: FakeStream, h: History, before: seq<Command>, inject: Command, call: Command, after: seq<Command>)
    requires var mid := Run(f, h, before).0;
             || (inject.ScriptReadStatus? && call.Read? && !(call.isNull && call.size != 0) && mid.nextRead == Ok)
             || (inject.ScriptWriteStatus? && call.Write? && !call.input.Invalid() && mid.nextWrite == Ok)
    requires inject.status != Ok && Run(f, h, before).0.open
    ensures var (mid, _) := Do(Run(f, h, before).0, h, inject);
            && (call.Read? ==> ReadSome(mid, call.isNull, call.size).1 == inject.status)
            && (call.Write? ==> WriteAll(mid, call.input).1 == inject.status)
            && Run(f, h, before + [inject, call] + after) == Run(f, h, before + after)
  {
    hide Flat;
    var (f1, h1) := Run(f, h, before);
    var (f2, h2) := Do(f1, h1, inject);
    var (f3, h3) := Do(f2, h2, call);
    assert (f3, h3) == (f1, h1);
    RunConcat(f, h, before, after);
    RunConcat(f, h, before, [inject, call] + after);
    assert before + [inject, call] + after == before + ([inject, call] + after);
    var later := [inject, call] + after;
    assert later[0] == inject && later[1..][0] == call && later[1..][1..] == after;
  }

  // ---------- draining ----------

  function Size(chunks: seq<seq<byte>>): nat {
    |Flat(chunks)| + |chunks|
  }

  lemma ReadShrinks(f: FakeStream, size: nat)
    requires size >= 1 && ReadSome(f, false, size).1 == Ok && f.open && f.nextRead == Ok && f.chunks != []
    ensures Size(ReadSome(f, false, size).0.chunks) < Size(f.chunks)
  {
  }

  /** Ok reads with a buffer of `size` bytes before the stream would block. */
  function DrainReads(f: FakeStream, size: nat): nat
    requires f.open && f.nextRead == Ok && size >= 1
    decreases Size(f.chunks)
  {
    var (f', status, _) := ReadSome(f, false, size);
    if status != Ok then 0
    else
      ReadShrinks(f, size);
      1 + DrainReads(f', size)
  }

  /** Reads that one chunk takes: one for an empty chunk, else the length divided by the size, rounded up. */
  function ChunkReads(length: nat, size: nat): nat
    requires size >= 1
  {
    if length == 0 then 1 else (length + size - 1) / size
  }

  function TotalReads(chunks: seq<seq<byte>>, size: nat): nat
    requires size >= 1
  {
    if chunks == [] then 0 else ChunkReads(|chunks[0]|, size) + TotalReads(chunks[1..], size)
  }

  lemma DivideMore(length: nat, size: nat)
    requires 1 <= size < length
    ensures ChunkReads(length, size) == 1 + ChunkReads(length - size, size)
  {
    var n := length - 1;
    var q := n / size;
    assert n == q * size + n % size;
    DivideUnique(n + size, size, q + 1, n % size);
  }

  lemma DivideUnique(a: nat, d: nat, q: nat, r: nat)
    requires d > 0 && r < d && a == q * d + r
    ensures a / d == q
  {
    var k := a / d - q;
    assert a == (a / d) * d + a % d;
    assert k * d == r - a % d;
    assert k >= 1 ==> k * d >= d;
    assert k <= -1 ==> k * d + d <= 0;
  }

  lemma {:induction false} DrainCount(f: FakeStream, size: nat)
    requires f.open && f.nextRead == Ok && size >= 1
    ensures DrainReads(f, size) == TotalReads(f.chunks, size)
    decreases Size(f.chunks)
  {
    hide Flat;
    if f.chunks != [] {
      var (f', status, bytes) := ReadSome(f, false, size);
      ReadShrinks(f, size);
      DrainCount(f', size);
      var length := |f.chunks[0]|;
      if length <= size {
        assert ChunkReads(length, size) == 1;
      } else {
        DivideMore(length, size);
        assert f'.chunks[1..] == f.chunks[1..];
      }
    }
  }

  // ---------- datagrams ----------

  datatype FakeDatagrams = FakeDatagrams(
    open: bool, queue: seq<seq<byte>>, sent: seq<seq<byte>>, nextReceive: Status, nextSend: Status)

  const INITIAL_DATAGRAMS := FakeDatagrams(false, [], [], Ok, Ok)

  function SendDatagram(f: FakeDatagrams, input: Input): (FakeDatagrams, Status) {
    if !f.open then (f, NotOpen)
    else if input.Invalid() then (f, InvalidArgument)
    else if f.nextSend != Ok then (f.(nextSend := Ok), f.nextSend)
    else (f.(sent := f.sent + [input.Data()]), Ok)
  }

  function ReceiveDatagram(f: FakeDatagrams, isNull: bool, size: nat): (FakeDatagrams, Status, seq<byte>) {
    if !f.open then (f, NotOpen, [])
    else if isNull && size != 0 then (f, InvalidArgument, [])
    else if f.nextReceive != Ok then (f.(nextReceive := Ok), f.nextReceive, [])
    else if f.queue == [] then (f, WouldBlock, [])
    else if size < |f.queue[0]| then (f, OutputBufferTooSmall, [])
    else (f.(queue := f.queue[1..]), Ok, f.queue[0])
  }

  /** The same of the datagram channel: each call by its causes, and an injected status reported once. */
  lemma DatagramAnswers(f: FakeDatagrams, input: Input, isNull: bool, size: nat)
    ensures var (f', status) := SendDatagram(f, input);
            var invalid := input.Null? && input.size != 0;
            && (!f.open ==> status == NotOpen && f' == f)
            && (f.open && invalid ==> status == InvalidArgument && f' == f)
            && (f.open && !invalid ==> status == f.nextSend && f'.nextSend == Ok)
            && f'.sent == (if f.open && !invalid && f.nextSend == Ok then f.sent + [input.Data()] else f.sent)
            && f'.queue == f.queue && f'.open == f.open && f'.nextReceive == f.nextReceive
    ensures var (f', status, bytes) := ReceiveDatagram(f, isNull, size);
            var accepted := f.open && !(isNull && size != 0);
            && (!accepted ==> status == (if f.open then InvalidArgument else NotOpen) && f' == f)
            && (accepted ==>
                  && f'.nextReceive == Ok
                  && status == if f.nextReceive != Ok then f.nextReceive
                               else if f.queue == [] then WouldBlock
                               else if |f.queue[0]| > size then OutputBufferTooSmall else Ok)
            && (if accepted && f.nextReceive == Ok && status == Ok then [bytes] + f'.queue == f.queue
                else bytes == [] && f'.queue == f.queue)
            && f'.sent == f.sent && f'.open == f.open && f'.nextSend == f.nextSend
  {
  }

  // ---------- clock ----------

  const CLOCK_RANGE: nat := 0x1_0000_0000_0000_0000
  const DURATION_RANGE: nat := 0x1_0000_0000

  /** The 64-bit clock wraps around. */
  function SleepFor(now: nat, duration: nat): nat {
    (now + duration) % CLOCK_RANGE
  }

  function SleepAll(now: nat, durations: seq<nat>): nat {
    if durations == [] then now
    else SleepFor(SleepAll(now, durations[..|durations| - 1]), durations[|durations| - 1])
  }

  function Sum(durations: seq<nat>): nat {
    if durations == [] then 0 else Sum(durations[..|durations| - 1]) + durations[|durations| - 1]
  }

  /** Durations are 32-bit millisecond counts. */
  ghost predicate Durations(durations: seq<nat>) {
    forall i :: 0 <= i < |durations| ==> durations[i] < DURATION_RANGE
  }

  lemma {:induction false} SumBound(durations: seq<nat>)
    requires Durations(durations)
    ensures Sum(durations) <= |durations| * (DURATION_RANGE - 1)
  {
    if durations != [] {
      var init := durations[..|durations| - 1];
      SumBound(init);
      assert |durations| * (DURATION_RANGE - 1) == |init| * (DURATION_RANGE - 1) + (DURATION_RANGE - 1);
    }
  }

  /** Up to 2^32 + 1 sleeps the clock is the exact sum, so it never runs backwards. */
  lemma {:induction false} ClockIsExact(durations: seq<nat>)
    requires Durations(durations) && |durations| <= DURATION_RANGE + 1
    ensures SleepAll(0, durations) == Sum(durations)
    ensures durations != [] ==> SleepAll(0, durations[..|durations| - 1]) <= SleepAll(0, durations)
  {
    if durations != [] {
      var init := durations[..|durations| - 1];
      ClockIsExact(init);
      SumBound(durations);
      assert |durations| * (DURATION_RANGE - 1) <= (DURATION_RANGE + 1) * (DURATION_RANGE - 1);
      assert (DURATION_RANGE + 1) * (DURATION_RANGE - 1) == CLOCK_RANGE - 1;
    }
  }

  /** However long it sleeps, the clock is the sum modulo its range. */
  lemma {:induction false} ClockIsModular(now: nat, durations: seq<nat>)
    requires now < CLOCK_RANGE
    ensures SleepAll(now, durations) == (now + Sum(durations)) % CLOCK_RANGE
  {
    if durations != [] {
      var init := durations[..|durations| - 1];
      ClockIsModular(now, init);
      ModuloAdd(now + Sum(init), durations[|durations| - 1]);
    }
  }

  lemma ModuloAdd(a: nat, b: nat)
    ensures (a % CLOCK_RANGE + b) % CLOCK_RANGE == (a + b) % CLOCK_RANGE
  {
    assert a + b == (a / CLOCK_RANGE) * CLOCK_RANGE + (a % CLOCK_RANGE + b);
  }

  function Longest(count: nat): (durations: seq<nat>)
    ensures |durations| == count && Durations(durations)
  {
    if count == 0 then [] else Longest(count - 1) + [DURATION_RANGE - 1]
  }

  lemma {:induction false} SumLongest(count: nat)
    ensures Sum(Longest(count)) == count * (DURATION_RANGE - 1)
  {
    if count > 0 {
      SumLongest(count - 1);
      assert Longest(count)[..count - 1] == Longest(count - 1);
    }
  }

  /** One more sleep can wrap: the bound is tight. */
  lemma ClockBoundIsTight()
    ensures var durations := Longest(DURATION_RANGE + 2);
            SleepAll(0, durations) < SleepAll(0, durations[..DURATION_RANGE + 1])
  {
    var n := DURATION_RANGE + 1;
    var durations := Longest(n + 1);
    SumLongest(n);
    ClockIsExact(Longest(n));
    assert durations == Longest(n) + [DURATION_RANGE - 1];
    assert durations[..n] == Longest(n);
    assert (DURATION_RANGE + 1) * (DURATION_RANGE - 1) == CLOCK_RANGE - 1;
    assert SleepAll(0, durations) == SleepFor(CLOCK_RANGE - 1, DURATION_RANGE - 1);
  }
}
