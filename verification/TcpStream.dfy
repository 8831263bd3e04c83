/** The TCP client: Open tries the resolved addresses in order. */
module TcpStream {
  import opened Basics
  import opened OperatingSystem
  import opened StreamIo
  import opened Candidates

  datatype Options = Options(host: string, port: nat, connectTimeout: nat, readTimeout: nat, writeTimeout: nat)

  /** How the attempt at one address ended. */
  datatype Attempt =
    | Skipped                 // no socket, not configurable, or refused at once
    | Pending(status: Status) // the connect was in progress and then failed
    | Kept(socket: int)

  function Drop(os: Os, id: Id, h: int, attempt: Attempt): (Os, Attempt) {
    (Release(os, id, h), attempt)
  }

  /** The wait for a connect in progress, and the check of its result. */
  function Await(os: Os, id: Id, h: int, address: Address, timeout: nat): (Os, Attempt) {
    var (os1, value) := Select(os, id, h, timeout);
    if value <= 0 then Drop(os1, id, h, Pending(WaitStatus(value, false)))
    else
      var (os2, connected) := Ask(os1, id, h, Connected(address));
      if connected then (os2, Kept(h)) else Drop(os2, id, h, Pending(OpenFailed))
  }

  function TryConnect(os: Os, id: Id, h: int, address: Address, timeout: nat): (Os, Attempt) {
    var (os1, result) := Connect(os, id, h, address);
    match result
    case Done => (os1, Kept(h))
    case Refused => Drop(os1, id, h, Skipped)
    case InProgress => Await(os1, id, h, address, timeout)
  }

  function TryAddress(os: Os, id: Id, address: Address, timeout: nat): (Os, Attempt) {
    var (os1, h) := Acquire(os, id, Some(address.family));
    if h == INVALID then (os1, Skipped)
    else
      var (os2, configured) := Ask(os1, id, h, Configured);
      if !configured then Drop(os2, id, h, Skipped) else TryConnect(os2, id, h, address, timeout)
  }

  /** The candidate loop, with the status carried from one address to the next. */
  function TryAll(os: Os, id: Id, addresses: seq<Address>, timeout: nat, status: Status)
    : (Os, Stream, Status, seq<Attempt>)
    decreases |addresses|
  {
    if addresses == [] then (os, CLOSED, status, [])
    else
      var (os1, attempt) := TryAddress(os, id, addresses[0], timeout);
      if attempt.Kept? then (os1, Stream(attempt.socket, true), Ok, [attempt])
      else
        var carried := if attempt.Pending? then attempt.status else status;
        var (os2, s, final, attempts) := TryAll(os1, id, addresses[1..], timeout, carried);
        (os2, s, final, [attempt] + attempts)
  }

  /** Open, with the attempts it made. */
  function Open(os: Os, id: Id, options: Options, s: Stream): (Os, Stream, Status, seq<Attempt>) {
    if s.open then (os, s, AlreadyOpen, [])
    else if options.host == "" || options.port == 0 then (os, s, InvalidArgument, [])
    else
      var (os1, found) := Resolve(os, None);
      if found.None? then (os1, s, OpenFailed, [])
      else
        var (os2, s2, status, attempts) := TryAll(os1, id, found.value.1, options.connectTimeout, OpenFailed);
        (Free(os2, found.value.0), s2, status, attempts)
  }

  // ---------- ownership ----------

  /** A non-blocking socket of the address's family, connected to it. */
  function Established(id: Id, address: Address): Endpoint {
    Endpoint(id, Some(address.family), None, Some(address), true, false)
  }

  /** After an attempt the object holds the kept socket, connected to the address, or nothing. */
  ghost predicate Settled(os: Os, os': Os, id: Id, address: Address, attempt: Attempt) {
    && Consistent(os') && Contained(os, os', {id})
    && os'.lists == os.lists
    && Mine(os', id) == (if attempt.Kept?
         then map[attempt.socket := Established(id, address)] else map[])
    && (attempt.Kept? ==> attempt.socket != INVALID)
    && (attempt.Pending? ==> attempt.status in {Timeout, WriteFailed, OpenFailed})
  }

  lemma AwaitSettled(os0: Os, os: Os, id: Id, h: int, address: Address, timeout: nat)
    requires Holding(os0, os, id, h, NewEndpoint(id, Some(address.family)).Mark(Configured))
    ensures var (os', attempt) := Await(os, id, h, address, timeout);
            Settled(os0, os', id, address, attempt)
  {
    hide Contained, Consistent, Mine, Others, Ask, Select;
    var endpoint := NewEndpoint(id, Some(address.family)).Mark(Configured);
    var (os1, value) := Select(os, id, h, timeout);
    SelectHolding(os0, os, id, h, endpoint, timeout);
    if value <= 0 {
      DropHolding(os0, os1, id, h, endpoint);
    } else {
      var (os2, connected) := Ask(os1, id, h, Connected(address));
      AskHolding(os0, os1, id, h, endpoint, Connected(address));
      if !connected {
        DropHolding(os0, os2, id, h, endpoint);
      }
    }
  }

  lemma TryConnectSettled(os0: Os, os: Os, id: Id, h: int, address: Address, timeout: nat)
    requires Holding(os0, os, id, h, NewEndpoint(id, Some(address.family)).Mark(Configured))
    ensures var (os', attempt) := TryConnect(os, id, h, address, timeout);
            Settled(os0, os', id, address, attempt)
  {
    hide Contained, Consistent, Mine, Others, Await, Ask;
    var endpoint := NewEndpoint(id, Some(address.family)).Mark(Configured);
    var (os1, result) := Connect(os, id, h, address);
    AskHolding(os0, os, id, h, endpoint, Connected(address));
    match result
    case Done =>
    case Refused =>
      DropHolding(os0, os1, id, h, endpoint);
    case InProgress =>
      AwaitSettled(os0, os1, id, h, address, timeout);
  }

  lemma TryAddressSettled(os: Os, id: Id, address: Address, timeout: nat)
    requires Consistent(os) && Mine(os, id) == map[]
    ensures var (os', attempt) := TryAddress(os, id, address, timeout);
            Settled(os, os', id, address, attempt)
  {
    hide Contained, Consistent, Mine, Others, Ask, Acquire, TryConnect;
    var (os1, h) := Acquire(os, id, Some(address.family));
    AcquireHolding(os, id, Some(address.family));
    if h != INVALID {
      var endpoint := NewEndpoint(id, Some(address.family));
      var (os2, configured) := Ask(os1, id, h, Configured);
      AskHolding(os, os1, id, h, endpoint, Configured);
      if configured {
        TryConnectSettled(os, os2, id, h, address, timeout);
      } else {
        DropHolding(os, os2, id, h, endpoint);
      }
    }
  }

  /** The status of the last attempt that got as far as waiting, read off the attempts. */
  function LastPending(attempts: seq<Attempt>): Status {
    if attempts == [] then OpenFailed
    else if attempts[|attempts| - 1].Pending? then attempts[|attempts| - 1].status
    else LastPending(attempts[..|attempts| - 1])
  }

  /** The outcome of a candidate loop, in terms of its attempts alone. */
  ghost predicate Outcome(
    addresses: seq<Address>, default: Status, s: Stream, status: Status, attempts: seq<Attempt>, os': Os, id: Id)
  {
    && |attempts| <= |addresses|
    && (forall i :: 0 <= i < |attempts| - 1 ==> !attempts[i].Kept?)
    && (if attempts != [] && attempts[|attempts| - 1].Kept?
        then
          && s == Stream(attempts[|attempts| - 1].socket, true) && status == Ok
          && Mine(os', id).Keys == {s.socket}
          && Mine(os', id)[s.socket] == Established(id, addresses[|attempts| - 1])
        else
          && |attempts| == |addresses| && s == CLOSED && Mine(os', id) == map[]
          && status == (if exists i :: 0 <= i < |attempts| && attempts[i].Pending? then LastPending(attempts) else default))
  }

  lemma {:induction false} LastPendingConcat(first: Attempt, rest: seq<Attempt>)
    ensures LastPending([first] + rest) ==
            if exists i :: 0 <= i < |rest| && rest[i].Pending? then LastPending(rest)
            else if first.Pending? then first.status else OpenFailed
    decreases |rest|
  {
    var all := [first] + rest;
    if rest == [] {
      assert all[..|all| - 1] == [];
    } else {
      var init := rest[..|rest| - 1];
      assert all[..|all| - 1] == [first] + init;
      LastPendingConcat(first, init);
      if !rest[|rest| - 1].Pending? {
        assert (exists i :: 0 <= i < |rest| && rest[i].Pending?) ==> exists i :: 0 <= i < |init| && init[i].Pending? by {
          if i :| 0 <= i < |rest| && rest[i].Pending? {
            assert init[i].Pending?;
          }
        }
        assert (exists i :: 0 <= i < |init| && init[i].Pending?) ==> exists i :: 0 <= i < |rest| && rest[i].Pending? by {
          if i :| 0 <= i < |init| && init[i].Pending? {
            assert rest[i].Pending?;
          }
        }
      }
    }
  }

  lemma OutcomeNone(default: Status, os': Os, id: Id)
    requires Mine(os', id) == map[]
    ensures Outcome([], default, CLOSED, default, [], os', id)
  {
  }

  lemma OutcomeKept(addresses: seq<Address>, default: Status, h: int, os': Os, id: Id)
    requires addresses != [] && Mine(os', id) == map[h := Established(id, addresses[0])]
    ensures Outcome(addresses, default, Stream(h, true), Ok, [Kept(h)], os', id)
  {
  }

  lemma OutcomeStep(
    addresses: seq<Address>, default: Status, s: Stream, status: Status,
    first: Attempt, rest: seq<Attempt>, os': Os, id: Id)
    requires addresses != [] && !first.Kept?
    requires Outcome(addresses[1..], if first.Pending? then first.status else default, s, status, rest, os', id)
    ensures Outcome(addresses, default, s, status, [first] + rest, os', id)
  {
    var all := [first] + rest;
    LastPendingConcat(first, rest);
    if rest == [] || !rest[|rest| - 1].Kept? {
      if i :| 0 <= i < |rest| && rest[i].Pending? {
        assert all[i + 1].Pending?;
      } else if first.Pending? {
        assert all[0].Pending?;
      } else {
        assert forall i :: 0 <= i < |all| ==> !all[i].Pending?;
      }
    }
  }

  lemma {:induction false} TryAllTidy(os: Os, id: Id, addresses: seq<Address>, timeout: nat, default: Status)
    requires Consistent(os) && Mine(os, id) == map[] && default != Ok
    ensures var (os', s, status, attempts) := TryAll(os, id, addresses, timeout, default);
            && Consistent(os') && Contained(os, os', {id}) && os'.lists == os.lists
            && (s.open <==> s.socket != INVALID) && (s.open <==> status == Ok) && (!s.open ==> s == CLOSED)
            && Mine(os', id).Keys == (if s.open then {s.socket} else {})
            && status in {Ok, Timeout, WriteFailed, OpenFailed, default}
    decreases |addresses|
  {
    hide Contained, Consistent, Mine, Others, TryAddress;
    ContainedRefl(os, {id});
    if addresses != [] {
      var (os1, attempt) := TryAddress(os, id, addresses[0], timeout);
      TryAddressSettled(os, id, addresses[0], timeout);
      if !attempt.Kept? {
        var carried := if attempt.Pending? then attempt.status else default;
        TryAllTidy(os1, id, addresses[1..], timeout, carried);
        ContainedCompose(os, os1, TryAll(os1, id, addresses[1..], timeout, carried).0, {id});
      }
    }
  }

  lemma {:induction false} TryAllOutcome(os: Os, id: Id, addresses: seq<Address>, timeout: nat, default: Status)
    requires Consistent(os) && Mine(os, id) == map[]
    ensures var (os', s, status, attempts) := TryAll(os, id, addresses, timeout, default);
            Outcome(addresses, default, s, status, attempts, os', id)
    decreases |addresses|
  {
    hide Contained, Consistent, Mine, Others, TryAddress, Outcome;
    if addresses == [] {
      OutcomeNone(default, os, id);
    } else {
      var (os1, attempt) := TryAddress(os, id, addresses[0], timeout);
      TryAddressSettled(os, id, addresses[0], timeout);
      if attempt.Kept? {
        OutcomeKept(addresses, default, attempt.socket, os1, id);
      } else {
        var carried := if attempt.Pending? then attempt.status else default;
        TryAllOutcome(os1, id, addresses[1..], timeout, carried);
        var (os2, s, status, attempts) := TryAll(os1, id, addresses[1..], timeout, carried);
        OutcomeStep(addresses, default, s, status, attempt, attempts, os2, id);
      }
    }
  }

  lemma OpenTidy(os: Os, id: Id, options: Options, s: Stream)
    requires Owns(os, id, s)
    ensures var (os', s', status, _) := Open(os, id, options, s);
            && Tidy(os, os', id, s')
            && (status == Ok <==> !s.open && s'.open)
            && (status != Ok ==> s' == s)
            && (status == AlreadyOpen <==> s.open)
            && (status == InvalidArgument <==> !s.open && (options.host == "" || options.port == 0))
            && status in {Ok, AlreadyOpen, InvalidArgument, Timeout, OpenFailed, WriteFailed}
  {
    hide Contained, Consistent, Mine, Others, TryAll, Resolve;
    CalmRefl(os, id);
    CalmTidy(os, os, id, s, Quiet);
    assert !s.open ==> Mine(os, id) == map[];
    if !s.open && options.host != "" && options.port != 0 {
      var (os1, found) := Resolve(os, None);
      if found.Some? {
        ResolveMine(os, id, None);
        TryAllTidy(os1, id, found.value.1, options.connectTimeout, OpenFailed);
        var (os2, s2, _, _) := TryAll(os1, id, found.value.1, options.connectTimeout, OpenFailed);
        BracketTidy(os, id, None, os2, s2);
      } else {
        ResolveFails(os, id, None, s);
      }
    }
  }

  /**
   Open keeps the socket of the first address that connects, connected to that
   address; if none does it reports the last attempt that was in progress.
   */
  lemma OpenOutcome(os: Os, id: Id, options: Options, s: Stream)
    requires Owns(os, id, s) && !s.open && options.host != "" && options.port != 0
    requires Resolve(os, None).1.Some?
    ensures var (os', s', status, attempts) := Open(os, id, options, s);
            var addresses := Resolve(os, None).1.value.1;
            && |attempts| <= |addresses|
            && (forall i :: 0 <= i < |attempts| - 1 ==> !attempts[i].Kept?)
            && (status == Ok <==> attempts != [] && attempts[|attempts| - 1].Kept?)
            && (status == Ok ==>
                  && attempts[|attempts| - 1].socket == s'.socket && Mine(os', id).Keys == {s'.socket}
                  && Mine(os', id)[s'.socket] == Established(id, addresses[|attempts| - 1]))
            && (status != Ok ==> |attempts| == |addresses| && status == LastPending(attempts))
  {
    hide Contained, Consistent, Mine, Others, TryAll, Resolve, Free, LastPending, Tidy;
    assert Mine(os, id) == map[];
    var (os1, found) := Resolve(os, None);
    ResolveMine(os, id, None);
    var (os2, s2, status, attempts) := TryAll(os1, id, found.value.1, options.connectTimeout, OpenFailed);
    TryAllTidy(os1, id, found.value.1, options.connectTimeout, OpenFailed);
    TryAllOutcome(os1, id, found.value.1, options.connectTimeout, OpenFailed);
    BracketTidy(os, id, None, os2, s2);
    if forall i :: 0 <= i < |attempts| ==> !attempts[i].Pending? {
      NoPending(attempts);
    }
  }

  lemma {:induction false} NoPending(attempts: seq<Attempt>)
    requires forall i :: 0 <= i < |attempts| ==> !attempts[i].Pending?
    ensures LastPending(attempts) == OpenFailed
  {
    if attempts != [] {
      NoPending(attempts[..|attempts| - 1]);
    }
  }

  /** A failed select surfaces as WriteFailed, a status Open's documentation does not list. */
  lemma OpenCanReportWriteFailed()
    ensures var reply := value => Reply(value, true, [], [Address(Inet, 0)]);
            var os := Os([reply(0), reply(7), reply(0), reply(-1), reply(-1)], map[], {}, 0, []);
            Open(os, 0, Options("meter", 4059, 5000, 5000, 5000), CLOSED).2 == WriteFailed
  {
    var reply := value => Reply(value, true, [], [Address(Inet, 0)]);
    var os := Os([reply(0), reply(7), reply(0), reply(-1), reply(-1)], map[], {}, 0, []);
    assert Filter([Address(Inet, 0)], None) == [Address(Inet, 0)];
    var (os1, found) := Resolve(os, None);
    assert found.value.1 == [Address(Inet, 0)];
    var (os2, attempt) := TryAddress(os1, 0, Address(Inet, 0), 5000);
    assert attempt == Pending(WriteFailed);
    assert TryAll(os2, 0, [], 5000, WriteFailed).2 == WriteFailed;
  }
}
