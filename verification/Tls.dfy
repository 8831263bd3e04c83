/**
 The TLS wrapper over an arbitrary lower stream and an arbitrary backend.

 Both answer from a script.  The backend may do anything to the lower stream,
 including closing it; the only promise relied on is the lower stream's own:
 its Close leaves it closed.
 */
module Tls {
  import opened Basics

  /** The status returned, whether the lower stream is open afterwards, and bytes read. */
  datatype Reply = Reply(status: Status, lowerOpen: bool, bytes: seq<byte>)

  const EXHAUSTED := Reply(InternalError, false, [])

  datatype BackendCall =
    | Handshake(ok: bool)
    | BackendRead(size: nat, given: seq<byte>)
    | BackendWrite(bytes: seq<byte>)
    | BackendClose

  datatype Env = Env(script: seq<Reply>, lowerOpen: bool, calls: seq<BackendCall>)

  function Pop(env: Env): (Env, Reply) {
    if env.script == [] then (env, EXHAUSTED) else (env.(script := env.script[1..]), env.script[0])
  }

  function LowerOpen(env: Env): (Env, Status) {
    var (e, r) := Pop(env);
    (e.(lowerOpen := r.lowerOpen), r.status)
  }

  function LowerClose(env: Env): (Env, Status) {
    var (e, r) := Pop(env);
    (e.(lowerOpen := false), r.status)
  }

  /** The i-th reply still to come. */
  function ReplyAt(env: Env, i: nat): Reply {
    if i < |env.script| then env.script[i] else EXHAUSTED
  }

  /** A backend call is recorded: a handshake with its result, a read with the bytes the backend gave. */
  function Backend(env: Env, call: BackendCall): (Env, Reply) {
    var (e, r) := Pop(env);
    var recorded :=
      match call
      case Handshake(_) => Handshake(r.status == Ok)
      case BackendRead(size, _) => BackendRead(size, r.bytes[..Min(size, |r.bytes|)])
      case _ => call;
    (e.(lowerOpen := r.lowerOpen, calls := e.calls + [recorded]), r)
  }

  datatype Config = Config(hasLower: bool, hasBackend: bool, verifyPeer: bool, serverName: string)
  {
    predicate Valid() {
      hasLower && hasBackend && !(verifyPeer && serverName == "")
    }
  }

  /** The object's flag and its surroundings. */
  datatype Wrapper = Wrapper(config: Config, open: bool, env: Env)

  function Open(t: Wrapper): (Wrapper, Status) {
    if t.open then (t, AlreadyOpen)
    else if !t.config.Valid() then (t, InvalidArgument)
    else
      var (e1, openStatus) := LowerOpen(t.env);
      if openStatus != Ok && openStatus != AlreadyOpen then (t.(env := e1), openStatus)
      else
        var (e2, reply) := Backend(e1, Handshake(true));
        if reply.status != Ok then (t.(env := LowerClose(e2).0), reply.status)
        else (t.(env := e2, open := true), Ok)
  }

  function Close(t: Wrapper): (Wrapper, Status) {
    if !t.open then (if t.config.hasLower then t.(env := LowerClose(t.env).0) else t, Ok)
    else
      var (e1, closed) := if t.config.hasBackend && t.config.hasLower
                          then var (e, r) := Backend(t.env, BackendClose); (e, r.status) else (t.env, Ok);
      var (e2, lower) := if t.config.hasLower then LowerClose(e1) else (e1, Ok);
      (t.(env := e2, open := false), if closed == Ok then lower else closed)
  }

  predicate IsOpen(t: Wrapper) {
    t.open && t.config.hasLower && t.env.lowerOpen
  }

  /** None: the code would dereference a null lower stream or backend. */
  function ReadSome(t: Wrapper, isNull: bool, size: nat): Option<(Wrapper, Status, seq<byte>)> {
    if !t.open then Some((t, NotOpen, []))
    else if isNull && size != 0 then Some((t, InvalidArgument, []))
    else if !t.config.hasBackend || !t.config.hasLower then None
    else
      var (e, r) := Backend(t.env, BackendRead(size, []));
      Some((t.(env := e), r.status, r.bytes[..Min(size, |r.bytes|)]))
  }

  function WriteAll(t: Wrapper, input: Input): Option<(Wrapper, Status)> {
    if !t.open then Some((t, NotOpen))
    else if input.Invalid() then Some((t, InvalidArgument))
    else if !t.config.hasBackend || !t.config.hasLower then None
    else
      var (e, r) := Backend(t.env, BackendWrite(input.Data()));
      Some((t.(env := e), r.status))
  }

  datatype Command =
    | DoOpen
    | DoClose
    | DoRead(isNull: bool, size: nat)
    | DoWrite(input: Input)
    | LowerChanges(open: bool)  // the lower stream opens or closes on its own, for example on a peer close

  /** None only for a null dereference. */
  function Do(t: Wrapper, c: Command): Option<Wrapper> {
    match c
    case DoOpen => Some(Open(t).0)
    case DoClose => Some(Close(t).0)
    case DoRead(isNull, size) => var r := ReadSome(t, isNull, size); if r.None? then None else Some(r.value.0)
    case DoWrite(input) => var r := WriteAll(t, input); if r.None? then None else Some(r.value.0)
    case LowerChanges(open) => Some(t.(env := t.env.(lowerOpen := open)))
  }

  function Run(t: Wrapper, commands: seq<Command>): Option<Wrapper>
    decreases |commands|
  {
    if commands == [] then Some(t)
    else
      var next := Do(t, commands[0]);
      if next.None? then None else Run(next.value, commands[1..])
  }

  // ---------- the language of backend calls ----------

  /** A handshake that failed, or a session: handshake, reads and writes, one close. */
  datatype Session = Failed | Session(io: seq<BackendCall>)

  predicate IsIo(call: BackendCall) {
    call.BackendRead? || call.BackendWrite?
  }

  predicate AllIo(io: seq<BackendCall>) {
    forall i :: 0 <= i < |io| ==> IsIo(io[i])
  }

  function Spell(s: Session): seq<BackendCall> {
    match s
    case Failed => [Handshake(false)]
    case Session(io) => [Handshake(true)] + io + [BackendClose]
  }

  predicate Proper(sessions: seq<Session>) {
    forall i :: 0 <= i < |sessions| ==> sessions[i].Session? ==> AllIo(sessions[i].io)
  }

  function SpellAll(sessions: seq<Session>): seq<BackendCall> {
    if sessions == [] then [] else SpellAll(sessions[..|sessions| - 1]) + Spell(sessions[|sessions| - 1])
  }

  lemma SpellAppend(sessions: seq<Session>, s: Session)
    ensures SpellAll(sessions + [s]) == SpellAll(sessions) + Spell(s)
  {
  }

  /** Finished sessions, then an unfinished one exactly when open. */
  ghost predicate Parses(calls: seq<BackendCall>, open: bool, sessions: seq<Session>, io: seq<BackendCall>) {
    && Proper(sessions) && AllIo(io)
    && calls == SpellAll(sessions) + (if open then [Handshake(true)] + io else [])
  }

  ghost predicate Bracketed(t: Wrapper) {
    && (t.open ==> t.config.Valid())
    && exists sessions, io :: Parses(t.env.calls, t.open, sessions, io)
  }

  lemma ParsesOpen(calls: seq<BackendCall>, ok: bool, sessions: seq<Session>, io: seq<BackendCall>)
    requires Parses(calls, false, sessions, io)
    ensures exists sessions', io' :: Parses(calls + [Handshake(ok)], ok, sessions', io')
  {
    if ok {
      assert calls + [Handshake(true)] == SpellAll(sessions) + ([Handshake(true)] + []);
      assert Parses(calls + [Handshake(true)], true, sessions, []);
    } else {
      SpellAppend(sessions, Failed);
      assert calls + [Handshake(false)] == SpellAll(sessions + [Failed]) + [];
      assert Parses(calls + [Handshake(false)], false, sessions + [Failed], []);
    }
  }

  lemma ParsesIo(calls: seq<BackendCall>, call: BackendCall, sessions: seq<Session>, io: seq<BackendCall>)
    requires Parses(calls, true, sessions, io) && IsIo(call)
    ensures Parses(calls + [call], true, sessions, io + [call])
  {
  }

  lemma ParsesClose(calls: seq<BackendCall>, sessions: seq<Session>, io: seq<BackendCall>)
    requires Parses(calls, true, sessions, io)
    ensures Parses(calls + [BackendClose], false, sessions + [Session(io)], [])
  {
  }

  /** Reads and writes belong to the unfinished session. */
  lemma IoBracketed(t: Wrapper, env': Env, call: BackendCall)
    requires Bracketed(t) && t.open && IsIo(call) && env'.calls == t.env.calls + [call]
    ensures Bracketed(t.(env := env'))
  {
    hide Parses;
    var sessions, io :| Parses(t.env.calls, true, sessions, io);
    ParsesIo(t.env.calls, call, sessions, io);
    assert Parses(env'.calls, true, sessions, io + [call]);
  }

  lemma CloseBracketed(t: Wrapper)
    requires Bracketed(t)
    ensures Bracketed(Close(t).0)
  {
    hide Parses;
    var sessions, io :| Parses(t.env.calls, t.open, sessions, io);
    assert !t.open ==> Parses(t.env.calls, false, sessions, io);
    if t.open {
      ParsesClose(t.env.calls, sessions, io);
      assert Parses(Close(t).0.env.calls, false, sessions + [Session(io)], []);
    } else {
      assert Parses(Close(t).0.env.calls, false, sessions, io);
    }
  }

  /** What one call does to the bracketing and to the lower stream. */
  lemma DoBracketed(t: Wrapper, c: Command)
    requires Bracketed(t)
    ensures Do(t, c).Some? && Bracketed(Do(t, c).value) && Do(t, c).value.config == t.config
    ensures c.DoClose? && t.config.hasLower ==> !Do(t, c).value.env.lowerOpen && !Do(t, c).value.open
    ensures c.DoOpen? && !t.open && t.config.Valid()
            && |Do(t, c).value.env.calls| > |t.env.calls| && !Do(t, c).value.open
            ==> !Do(t, c).value.env.lowerOpen
  {
    assert t.open ==> t.config.Valid();
    match c
    case DoOpen =>
      OpenBracketed(t);
    case DoClose =>
      CloseBracketed(t);
    case DoRead(isNull, size) =>
      if t.open && !(isNull && size != 0) {
        var env' := Backend(t.env, BackendRead(size, [])).0;
        IoBracketed(t, env', env'.calls[|t.env.calls|]);
      }
    case DoWrite(input) =>
      if t.open && !input.Invalid() {
        IoBracketed(t, Backend(t.env, BackendWrite(input.Data())).0, BackendWrite(input.Data()));
      }
    case LowerChanges(_) =>
  }

  lemma OpenBracketed(t: Wrapper)
    requires Bracketed(t)
    ensures Bracketed(Open(t).0)
  {
    hide Parses;
    if !t.open && t.config.Valid() {
      var sessions, io :| Parses(t.env.calls, false, sessions, io);
      var (e1, openStatus) := LowerOpen(t.env);
      assert e1.calls == t.env.calls;
      if openStatus == Ok || openStatus == AlreadyOpen {
        var (e2, reply) := Backend(e1, Handshake(true));
        ParsesOpen(t.env.calls, reply.status == Ok, sessions, io);
        assert Open(t).0.env.calls == t.env.calls + [Handshake(reply.status == Ok)];
      } else {
        assert Parses(e1.calls, false, sessions, io);
      }
    }
  }

  lemma {:induction false} RunBracketed(t: Wrapper, commands: seq<Command>)
    requires Bracketed(t)
    ensures Run(t, commands).Some? && Bracketed(Run(t, commands).value) && Run(t, commands).value.config == t.config
    decreases |commands|
  {
    if commands != [] {
      DoBracketed(t, commands[0]);
      RunBracketed(Do(t, commands[0]).value, commands[1..]);
    }
  }

  /**
   In every run of a new wrapper, with any configuration and any lower stream
   and backend: no null pointer is used, and the backend calls are finished
   sessions and failed handshakes, followed by at most one unfinished session,
   which exists exactly when the wrapper is open.
   */
  lemma SessionsAreBracketed(config: Config, script: seq<Reply>, lowerOpen: bool, commands: seq<Command>)
    ensures var end := Run(Wrapper(config, false, Env(script, lowerOpen, [])), commands);
            && end.Some?
            && exists sessions, io :: Parses(end.value.env.calls, end.value.open, sessions, io)
  {
    var t := Wrapper(config, false, Env(script, lowerOpen, []));
    assert Parses(t.env.calls, false, [], []);
    RunBracketed(t, commands);
  }

  /** Closing, and a handshake that fails, both leave the lower stream closed. */
  lemma LowerIsClosed(config: Config, script: seq<Reply>, lowerOpen: bool, commands: seq<Command>)
    ensures var end := Run(Wrapper(config, false, Env(script, lowerOpen, [])), commands);
            && end.Some?
            && (config.hasLower ==> !Close(end.value).0.env.lowerOpen)
            && !IsOpen(Close(end.value).0)
            && (var (after, status) := Open(end.value);
                |after.env.calls| > |end.value.env.calls| && status != Ok ==> !after.env.lowerOpen && !after.open)
  {
    var t := Wrapper(config, false, Env(script, lowerOpen, []));
    assert Parses(t.env.calls, false, [], []);
    RunBracketed(t, commands);
    DoBracketed(Run(t, commands).value, DoClose);
    DoBracketed(Run(t, commands).value, DoOpen);
  }

  // ---------- what each call answers ----------

  /**
   Open, by the replies of the lower stream and of the handshake.  The first to
   fail decides the status (a lower stream that is open already is no failure),
   and the wrapper opens exactly when the handshake succeeds.
   */
  lemma OpenAnswer(t: Wrapper)
    ensures var (t', status) := Open(t);
            var (lower, shake) := (ReplyAt(t.env, 0), ReplyAt(t.env, 1));
            var config := t.config;
            var tries := !t.open && config.hasLower && config.hasBackend && (config.verifyPeer ==> config.serverName != "");
            var shakes := tries && lower.status in {Ok, AlreadyOpen};
            && t'.config == config
            && (t.open ==> t' == t && status == AlreadyOpen)
            && (!t.open && !tries ==> t' == t && status == InvalidArgument)
            && (tries && !shakes ==>
                  && status == lower.status && !t'.open
                  && t'.env.lowerOpen == lower.lowerOpen && t'.env.calls == t.env.calls)
            && (shakes ==>
                  && status == shake.status && (t'.open <==> shake.status == Ok)
                  && t'.env.calls == t.env.calls + [Handshake(t'.open)]
                  && (IsOpen(t') <==> t'.open && shake.lowerOpen) && (!t'.open ==> !t'.env.lowerOpen))
  {
    assert !t.open && t.config.Valid() ==> Pop(LowerOpen(t.env).0).1 == ReplyAt(t.env, 1);
  }

  /** Close, in every configuration: the backend's failure goes before the lower stream's. */
  lemma CloseAnswer(t: Wrapper)
    ensures var (t', status) := Close(t);
            var (first, second) := (ReplyAt(t.env, 0).status, ReplyAt(t.env, 1).status);
            var (lower, both) := (t.config.hasLower, t.config.hasLower && t.config.hasBackend);
            && t'.config == t.config && !t'.open && !IsOpen(t')
            && t'.env.lowerOpen == (t.env.lowerOpen && !lower)
            && t'.env.calls == t.env.calls + (if t.open && both then [BackendClose] else [])
            && status == (if !t.open || !lower then Ok else if both && first == Ok then second else first)
  {
    assert t.open ==> Pop(Backend(t.env, BackendClose).0).1 == ReplyAt(t.env, 1);
  }

  /** No backend call is made for a closed wrapper or an invalid buffer; one is made otherwise. */
  lemma ReadAnswer(t: Wrapper, isNull: bool, size: nat)
    ensures var r := ReadSome(t, isNull, size);
            var reply := ReplyAt(t.env, 0);
            var rejected := !t.open || (isNull && size != 0);
            && (r.None? <==> !rejected && !(t.config.hasLower && t.config.hasBackend))
            && (rejected ==> r.value == (t, if t.open then InvalidArgument else NotOpen, []))
            && (!rejected && r.Some? ==>
                  var (t', status, bytes) := r.value;
                  && status == reply.status
                  && |bytes| <= size && bytes <= reply.bytes && (|bytes| == size || bytes == reply.bytes)
                  && t' == t.(env := t'.env) && t'.env.lowerOpen == reply.lowerOpen
                  && t'.env.calls == t.env.calls + [BackendRead(size, bytes)])
  {
  }

  lemma WriteAnswer(t: Wrapper, input: Input)
    ensures var r := WriteAll(t, input);
            var reply := ReplyAt(t.env, 0);
            var rejected := !t.open || (input.Null? && input.size != 0);
            && (r.None? <==> !rejected && !(t.config.hasLower && t.config.hasBackend))
            && (rejected ==> r.value == (t, if t.open then InvalidArgument else NotOpen))
            && (!rejected && r.Some? ==>
                  var (t', status) := r.value;
                  && status == reply.status
                  && t' == t.(env := t'.env) && t'.env.lowerOpen == reply.lowerOpen
                  && t'.env.calls == t.env.calls + [BackendWrite(input.Data())])
  {
  }

  // ---------- payload ----------

  /** The bytes the backend gave and was given, by its calls. */
  function GivenBytes(calls: seq<BackendCall>): seq<byte> {
    if calls == [] then []
    else
      var last := calls[|calls| - 1];
      GivenBytes(calls[..|calls| - 1]) + if last.BackendRead? then last.given else []
  }

  function TakenBytes(calls: seq<BackendCall>): seq<byte> {
    if calls == [] then []
    else
      var last := calls[|calls| - 1];
      TakenBytes(calls[..|calls| - 1]) + if last.BackendWrite? then last.bytes else []
  }

  lemma BytesAppend(calls: seq<BackendCall>, call: BackendCall)
    ensures GivenBytes(calls + [call]) == GivenBytes(calls) + if call.BackendRead? then call.given else []
    ensures TakenBytes(calls + [call]) == TakenBytes(calls) + if call.BackendWrite? then call.bytes else []
  {
    assert (calls + [call])[..|calls|] == calls;
  }

  /** What the callers of a run were given by their reads. */
  function CallersRead(t: Wrapper, commands: seq<Command>): seq<byte>
    decreases |commands|
  {
    if commands == [] || Do(t, commands[0]).None? then []
    else
      var c := commands[0];
      var r := if c.DoRead? then ReadSome(t, c.isNull, c.size) else None;
      (if r.Some? then r.value.2 else []) + CallersRead(Do(t, c).value, commands[1..])
  }

  /** What they offered in writes that were not rejected. */
  function CallersWrote(t: Wrapper, commands: seq<Command>): seq<byte>
    decreases |commands|
  {
    if commands == [] || Do(t, commands[0]).None? then []
    else
      var c := commands[0];
      (if c.DoWrite? && t.open then c.input.Data() else []) + CallersWrote(Do(t, c).value, commands[1..])
  }

  lemma CallTraffic(t: Wrapper, c: Command)
    requires Do(t, c).Some?
    ensures var t' := Do(t, c).value;
            var r := if c.DoRead? then ReadSome(t, c.isNull, c.size) else None;
            && GivenBytes(t'.env.calls) == GivenBytes(t.env.calls) + (if r.Some? then r.value.2 else [])
            && TakenBytes(t'.env.calls)
                 == TakenBytes(t.env.calls) + (if c.DoWrite? && t.open then c.input.Data() else [])
  {
    hide GivenBytes, TakenBytes, ReadSome, WriteAll, Open, Close;
    var (t', calls) := (Do(t, c).value, t.env.calls);
    match c
    case DoOpen =>
      OpenAnswer(t);
      BytesAppend(calls, Handshake(t'.open));
    case DoClose =>
      CloseAnswer(t);
      assert calls + [] == calls;
      BytesAppend(calls, BackendClose);
    case DoRead(isNull, size) =>
      ReadAnswer(t, isNull, size);
      BytesAppend(calls, BackendRead(size, ReadSome(t, isNull, size).value.2));
    case DoWrite(input) =>
      WriteAnswer(t, input);
      BytesAppend(calls, BackendWrite(input.Data()));
    case LowerChanges(_) =>
  }

  /**
   Over every run the wrapper loses and invents nothing: its callers were given
   exactly the bytes the backend gave, in order, and the backend exactly the
   bytes of the writes that were not rejected.
   */
  lemma {:induction false} TrafficPassesThrough(t: Wrapper, commands: seq<Command>)
    requires Run(t, commands).Some?
    ensures var end := Run(t, commands).value;
            && GivenBytes(end.env.calls) == GivenBytes(t.env.calls) + CallersRead(t, commands)
            && TakenBytes(end.env.calls) == TakenBytes(t.env.calls) + CallersWrote(t, commands)
    decreases |commands|
  {
    hide GivenBytes, TakenBytes, ReadSome, Do;
    if commands != [] {
      CallTraffic(t, commands[0]);
      TrafficPassesThrough(Do(t, commands[0]).value, commands[1..]);
    }
  }
}
