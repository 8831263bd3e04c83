/**
 The operating system as an adversary.

 Every outcome comes from a finite script of replies; an exhausted script makes
 every further call fail, so the finite scripts are exactly the terminating
 runs.  The system may hand out any handle number that is not live, including
 one that was closed before.  Each call is logged with the object that made it.
 */
module OperatingSystem {
  import opened Basics

  type Id = nat
  const INVALID: int := -1

  datatype Family = Inet | Inet6

  datatype Address = Address(family: Family, number: nat)

  datatype Reply = Reply(value: int, again: bool, data: seq<byte>, addresses: seq<Address>)

  const EXHAUSTED := Reply(-1, false, [], [])

  /** A live handle: who obtained it and what was successfully done to it. */
  datatype Endpoint = Endpoint(
    owner: Id, family: Option<Family>, bound: Option<Address>, peer: Option<Address>,
    nonBlocking: bool, listening: bool)
  {
    function Mark(use: Use): Endpoint {
      match use
      case Configured => this.(nonBlocking := true)
      case Bound(address) => this.(bound := Some(address))
      case Listened => this.(listening := true)
      case Connected(address) => this.(peer := Some(address))
      case _ => this
    }
  }

  function NewEndpoint(owner: Id, family: Option<Family>): Endpoint {
    Endpoint(owner, family, None, None, false, false)
  }

  /** What a call that names a handle did. */
  datatype Use =
    | Configured
    | AddressReuse
    | Bound(address: Address)
    | Listened
    | Named
    | Connected(address: Address)
    | Selected(timeout: nat)
    | Sent(bytes: seq<byte>, again: bool)
    | Datagram(bytes: seq<byte>)
    | Unsent
    | Received(bytes: seq<byte>)
    | Sized
    | Accepted

  /** The payload a piece of code may move. */
  datatype Flow = Quiet | Sending | Receiving

  function FlowOf(use: Use): Flow {
    if use.Sent? then Sending else if use.Received? then Receiving else Quiet
  }

  datatype Call =
    | Acquired(owner: Id, handle: int)
    | Released(owner: Id, handle: int)
    | Used(owner: Id, handle: int, use: Use)
    | Resolved(list: nat)
    | Freed(list: nat)
  {
    predicate By(ids: set<Id>) {
      match this
      case Acquired(o, _) => o in ids
      case Released(o, _) => o in ids
      case Used(o, _, _) => o in ids
      case Resolved(_) => true
      case Freed(_) => true
    }

    /** Stream or datagram payload moves only where the flow allows it. */
    predicate Allowed(flow: Flow) {
      Used? ==> (use.Sent? ==> flow.Sending?) && (use.Received? ==> flow.Receiving?)
    }
  }

  datatype Os = Os(
    script: seq<Reply>, live: map<int, Endpoint>, lists: set<nat>, nextList: nat, log: seq<Call>)

  // ---------- calls ----------

  function Pop(os: Os): (Os, Reply) {
    if os.script == [] then (os, EXHAUSTED) else (os.(script := os.script[1..]), os.script[0])
  }

  /** The i-th reply still to come. */
  function ReplyAt(os: Os, i: nat): Reply {
    if i < |os.script| then os.script[i] else EXHAUSTED
  }

  function Note(os: Os, call: Call): Os {
    os.(log := os.log + [call])
  }

  /** socket, accept or open: a fresh nonnegative number, or failure. */
  function Acquire(os: Os, id: Id, family: Option<Family>): (Os, int) {
    var (os1, r) := Pop(os);
    if 0 <= r.value && r.value !in os.live
    then (Note(os1, Acquired(id, r.value)).(live := os1.live[r.value := NewEndpoint(id, family)]), r.value)
    else (os1, INVALID)
  }

  function Release(os: Os, id: Id, h: int): Os {
    Note(os, Released(id, h)).(live := os.live - {h})
  }

  function MarkLive(os: Os, h: int, use: Use): Os {
    if h in os.live then os.(live := os.live[h := os.live[h].Mark(use)]) else os
  }

  /** fcntl, setsockopt, bind, listen, SO_ERROR: a call whose only result is success. */
  function Ask(os: Os, id: Id, h: int, use: Use): (Os, bool) {
    var (os1, r) := Pop(os);
    var os2 := Note(os1, Used(id, h, use));
    if r.value == 0 then (MarkLive(os2, h, use), true) else (os2, false)
  }

  datatype ConnectResult = Done | InProgress | Refused

  function Connect(os: Os, id: Id, h: int, address: Address): (Os, ConnectResult) {
    var again := Pop(os).1.again;
    var (os1, ok) := Ask(os, id, h, Connected(address));
    (os1, if ok then Done else if again then InProgress else Refused)
  }

  /** select: positive, zero or negative. */
  function Select(os: Os, id: Id, h: int, timeout: nat): (Os, int) {
    var (os1, r) := Pop(os);
    (Note(os1, Used(id, h, Selected(timeout))), r.value)
  }

  datatype Transfer = Count(n: nat) | Again | Failed

  /** send or write: at most the bytes offered, or an error. */
  function Send(os: Os, id: Id, h: int, bytes: seq<byte>): (Os, Transfer) {
    var (os1, r) := Pop(os);
    if r.value < 0 then (Note(os1, Used(id, h, Sent([], r.again))), if r.again then Again else Failed)
    else
      var n := Min(r.value, |bytes|);
      (Note(os1, Used(id, h, Sent(bytes[..n], false))), Count(n))
  }

  /** send of a datagram: it goes out whole, or an error; the count is the system's claim. */
  function SendDatagram(os: Os, id: Id, h: int, bytes: seq<byte>): (Os, Transfer) {
    var (os1, r) := Pop(os);
    if r.value < 0 then (Note(os1, Used(id, h, Unsent)), if r.again then Again else Failed)
    else (Note(os1, Used(id, h, Datagram(bytes))), Count(r.value))
  }

  datatype Receipt = Data(bytes: seq<byte>) | NoData | Broken

  /** recv or read: at most `size` bytes, or an error. */
  function Receive(os: Os, id: Id, h: int, size: nat): (Os, Receipt) {
    var (os1, r) := Pop(os);
    if r.value < 0 then (Note(os1, Used(id, h, Received([]))), if r.again then NoData else Broken)
    else
      var bytes := r.data[..Min(size, |r.data|)];
      (Note(os1, Used(id, h, Received(bytes))), Data(bytes))
  }

  /** FIONREAD: the size of the head datagram. */
  function PendingSize(os: Os, id: Id, h: int): (Os, Option<nat>) {
    var (os1, r) := Pop(os);
    (Note(os1, Used(id, h, Sized)), if r.value < 0 then None else Some(r.value))
  }

  predicate FamilyMatches(family: Option<Family>, address: Address) {
    family.None? || family.value == address.family
  }

  /** The addresses of the wanted family, in order. */
  function Filter(addresses: seq<Address>, family: Option<Family>): (kept: seq<Address>)
    ensures forall i :: 0 <= i < |kept| ==> FamilyMatches(family, kept[i]) && kept[i] in addresses
  {
    if addresses == [] then []
    else
      var rest := Filter(addresses[1..], family);
      if FamilyMatches(family, addresses[0]) then [addresses[0]] + rest else rest
  }

  /** getaddrinfo: a nonempty list of the wanted family, to be freed by the caller, or failure. */
  function Resolve(os: Os, family: Option<Family>): (Os, Option<(nat, seq<Address>)>) {
    var (os1, r) := Pop(os);
    var kept := Filter(r.addresses, family);
    if r.value != 0 || kept == [] then (os1, None)
    else
      (Note(os1, Resolved(os.nextList)).(lists := os1.lists + {os.nextList}, nextList := os.nextList + 1),
       Some((os.nextList, kept)))
  }

  function Free(os: Os, list: nat): Os {
    Note(os, Freed(list)).(lists := os.lists - {list})
  }

  /** Whether a reply to socket, accept or open is a failure. */
  predicate Denied(os: Os, r: Reply) {
    r.value < 0 || r.value in os.live
  }

  // ---------- auditing the log ----------

  /** What an auditor who sees only the log believes to be outstanding. */
  datatype Ledger = Ledger(handles: map<int, Id>, lists: set<nat>)

  /**
   The rules: a handle is obtained only while not live, and released or used
   only by the object that holds it; a list is freed only while outstanding.
   */
  function Audit(ledger: Ledger, call: Call): Option<Ledger> {
    match call
    case Acquired(o, h) =>
      if h in ledger.handles then None else Some(ledger.(handles := ledger.handles[h := o]))
    case Released(o, h) =>
      if h in ledger.handles && ledger.handles[h] == o then Some(ledger.(handles := ledger.handles - {h})) else None
    case Used(o, h, _) =>
      if h in ledger.handles && ledger.handles[h] == o then Some(ledger) else None
    case Resolved(l) =>
      if l in ledger.lists then None else Some(ledger.(lists := ledger.lists + {l}))
    case Freed(l) =>
      if l in ledger.lists then Some(ledger.(lists := ledger.lists - {l})) else None
  }

  /** None as soon as some call in the log broke a rule. */
  function Replay(log: seq<Call>): Option<Ledger> {
    if log == [] then Some(Ledger(map[], {}))
    else
      var before := Replay(log[..|log| - 1]);
      if before.None? then None else Audit(before.value, log[|log| - 1])
  }

  function Books(os: Os): Ledger {
    Ledger(map h | h in os.live :: os.live[h].owner, os.lists)
  }

  /** The log breaks no rule, and replaying it gives what is really live. */
  ghost predicate Consistent(os: Os) {
    && Replay(os.log) == Some(Books(os))
    && (forall l :: l in os.lists ==> l < os.nextList)
  }

  function Mine(os: Os, id: Id): map<int, Endpoint> {
    map h | h in os.live && os.live[h].owner == id :: os.live[h]
  }

  function Others(os: Os, ids: set<Id>): map<int, Endpoint> {
    map h | h in os.live && os.live[h].owner !in ids :: os.live[h]
  }

  /**
   From `os` to `os'` only the objects `ids` made calls, only their handles
   changed, and no payload moved but what the flow allows.
   */
  ghost predicate Contained(os: Os, os': Os, ids: set<Id>, flow: Flow := Quiet) {
    && Consistent(os')
    && Others(os', ids) == Others(os, ids)
    && |os.log| <= |os'.log| && os'.log[..|os.log|] == os.log
    && forall k :: |os.log| <= k < |os'.log| ==> os'.log[k].By(ids) && os'.log[k].Allowed(flow)
  }

  lemma ContainedCompose(os: Os, mid: Os, os': Os, ids: set<Id>, flow: Flow := Quiet)
    requires Contained(os, mid, ids, flow) && Contained(mid, os', ids, flow)
    ensures Contained(os, os', ids, flow)
  {
  }

  /** Appending one call the auditor accepts. */
  lemma NoteConsistent(os: Os, os': Os, call: Call)
    requires Consistent(os) && os'.log == os.log + [call]
    requires Audit(Books(os), call) == Some(Books(os'))
    requires forall l :: l in os'.lists ==> l < os'.nextList
    ensures Consistent(os')
  {
  }

  lemma UsedContained(os: Os, id: Id, h: int, use: Use)
    requires Consistent(os) && h in Mine(os, id)
    ensures Contained(os, Note(os, Used(id, h, use)), {id}, FlowOf(use))
    ensures Contained(os, Pop(os).0, {id}) && Consistent(Pop(os).0)
  {
    hide Replay;
    assert Books(Pop(os).0) == Books(os);
    NoteConsistent(os, Note(os, Used(id, h, use)), Used(id, h, use));
  }

  lemma AcquireContained(os: Os, id: Id, family: Option<Family>)
    requires Consistent(os)
    ensures var (os', h) := Acquire(os, id, family);
            && Contained(os, os', {id})
            && (h == INVALID || (0 <= h && h !in os.live))
            && Mine(os', id) == (if h == INVALID then Mine(os, id) else Mine(os, id)[h := NewEndpoint(id, family)])
            && os'.lists == os.lists
  {
    hide Replay;
    var (os', h) := Acquire(os, id, family);
    if h != INVALID {
      assert Books(os').handles == Books(os).handles[h := id];
      NoteConsistent(os, os', Acquired(id, h));
      assert os'.log[..|os.log|] == os.log;
    }
  }

  lemma ReleaseContained(os: Os, id: Id, h: int)
    requires Consistent(os) && h in Mine(os, id)
    ensures Contained(os, Release(os, id, h), {id})
    ensures Mine(Release(os, id, h), id) == Mine(os, id) - {h}
    ensures Release(os, id, h).lists == os.lists
  {
    hide Replay;
    var os' := Release(os, id, h);
    assert Books(os').handles == Books(os).handles - {h};
    NoteConsistent(os, os', Released(id, h));
    assert os'.log[..|os.log|] == os.log;
  }

  lemma ResolveContained(os: Os, ids: set<Id>, family: Option<Family>)
    requires Consistent(os)
    ensures var (os', found) := Resolve(os, family);
            && Contained(os, os', ids)
            && os'.live == os.live
            && os'.lists == (if found.Some? then os.lists + {found.value.0} else os.lists)
            && (found.Some? ==> found.value.0 !in os.lists && found.value.1 != [])
  {
    hide Replay;
    var (os', found) := Resolve(os, family);
    if found.Some? {
      NoteConsistent(os, os', Resolved(os.nextList));
      assert os'.log[..|os.log|] == os.log;
    }
  }

  lemma FreeContained(os: Os, ids: set<Id>, list: nat)
    requires Consistent(os) && list in os.lists
    ensures Contained(os, Free(os, list), ids)
    ensures Free(os, list).live == os.live && Free(os, list).lists == os.lists - {list}
  {
  }

  /** Binding or connecting changes the endpoint but not who owns it. */
  lemma EndpointContained(os: Os, id: Id, h: int, endpoint: Endpoint)
    requires Consistent(os) && h in Mine(os, id) && endpoint.owner == id
    ensures Contained(os, os.(live := os.live[h := endpoint]), {id})
    ensures Mine(os.(live := os.live[h := endpoint]), id) == Mine(os, id)[h := endpoint]
  {
    var os' := os.(live := os.live[h := endpoint]);
    assert Books(os').handles == Books(os).handles;
  }

  lemma ContainedRefl(os: Os, ids: set<Id>, flow: Flow := Quiet)
    requires Consistent(os)
    ensures Contained(os, os, ids, flow)
  {
  }

  lemma ContainedWiden(os: Os, os': Os, ids: set<Id>, more: set<Id>)
    requires Contained(os, os', ids) && ids <= more
    ensures Contained(os, os', more)
  {
    forall h | h in Others(os, more) ensures h in Others(os', more) && Others(os', more)[h] == Others(os, more)[h] {
      assert h in Others(os, ids);
    }
    forall h | h in Others(os', more) ensures h in Others(os, more) {
      assert h in Others(os', ids);
    }
  }

  /** Nobody else's handles change. */
  lemma MineOfOther(os: Os, os': Os, ids: set<Id>, other: Id, flow: Flow := Quiet)
    requires Contained(os, os', ids, flow) && other !in ids
    ensures Mine(os', other) == Mine(os, other)
  {
    forall h | h in Mine(os, other) ensures h in Mine(os', other) && Mine(os', other)[h] == Mine(os, other)[h] {
      assert h in Others(os, ids);
    }
    forall h | h in Mine(os', other) ensures h in Mine(os, other) {
      assert h in Others(os', ids);
    }
  }
}
