/** Open of the UDP transport: which socket it keeps, and when, by the system's replies. */
module UdpOpen {
  import opened Basics
  import opened OperatingSystem
  import opened StreamIo
  import opened Candidates
  import opened Udp

  // ---------- one candidate, by its replies ----------

  // A candidate is answered by the replies to socket, to making it
  // non-blocking, to resolving local addresses, to one bind per local address
  // until one succeeds, and to connect.

  /** From `os'` on the replies are those of `os`, d later. */
  ghost predicate Shifted(os: Os, os': Os, d: nat) {
    forall i: nat :: ReplyAt(os', i) == ReplyAt(os, i + d)
  }

  /** The first of n replies that is zero, or n. */
  function FirstZero(os: Os, from: nat, n: nat): (j: nat)
    ensures j <= n && (j < n ==> ReplyAt(os, from + j).value == 0)
    ensures forall i :: from <= i < from + j ==> ReplyAt(os, i).value != 0
    decreases n
  {
    if n == 0 || ReplyAt(os, from).value == 0 then 0 else 1 + FirstZero(os, from + 1, n - 1)
  }

  /** The local addresses of the family that a reply resolves. */
  function LocalsAt(os: Os, at: nat, family: Family): seq<Address> {
    var reply := ReplyAt(os, at);
    if reply.value == 0 then Filter(reply.addresses, Some(family)) else []
  }

  /** Where the binds after the resolve stop. */
  function Binds(os: Os, at: nat, family: Family): nat {
    FirstZero(os, at + 1, |LocalsAt(os, at, family)|)
  }

  /** The first local address whose bind is answered zero. */
  function LocalFor(os: Os, at: nat, family: Family): (local: Option<Address>)
    ensures local.Some? ==> local.value.family == family
  {
    var (locals, j) := (LocalsAt(os, at, family), Binds(os, at, family));
    if j < |locals| then Some(locals[j]) else None
  }

  predicate CanSetUp(os: Os, family: Family, hasRemote: bool) {
    && !Denied(os, ReplyAt(os, 0)) && ReplyAt(os, 1).value == 0
    && LocalFor(os, 2, family).Some?
    && (hasRemote ==> ReplyAt(os, 4 + Binds(os, 2, family)).value == 0)
  }

  /** Non-blocking, bound to that local address, and with a remote connected to the candidate's own. */
  function KeptEndpoint(os: Os, id: Id, address: Address, hasRemote: bool): Endpoint {
    Endpoint(id, Some(address.family), LocalFor(os, 2, address.family),
             if hasRemote then Some(address) else None, true, false)
  }

  lemma ShiftedCompose(os: Os, mid: Os, os': Os, d: nat, e: nat)
    requires Shifted(os, mid, d) && Shifted(mid, os', e)
    ensures Shifted(os, os', d + e)
  {
    forall i: nat ensures ReplyAt(os', i) == ReplyAt(os, i + (d + e)) {
      assert ReplyAt(os', i) == ReplyAt(mid, i + e) == ReplyAt(os, i + e + d);
    }
  }

  lemma AcquireAnswer(os: Os, id: Id, family: Option<Family>)
    ensures var (os', h) := Acquire(os, id, family);
            Shifted(os, os', 1) && h == if Denied(os, ReplyAt(os, 0)) then INVALID else ReplyAt(os, 0).value
  {
  }

  lemma AskAnswer(os: Os, id: Id, h: int, use: Use)
    ensures var (os', ok) := Ask(os, id, h, use);
            Shifted(os, os', 1) && (ok <==> ReplyAt(os, 0).value == 0)
  {
  }

  lemma {:induction false} FirstZeroShift(os: Os, os': Os, d: nat, from: nat, n: nat)
    requires Shifted(os, os', d)
    ensures FirstZero(os', from, n) == FirstZero(os, from + d, n)
    decreases n
  {
    if n > 0 {
      FirstZeroShift(os, os', d, from + 1, n - 1);
      assert ReplyAt(os', from) == ReplyAt(os, from + d);
    }
  }

  lemma LocalShift(os: Os, os': Os, d: nat, at: nat, family: Family)
    requires Shifted(os, os', d)
    ensures LocalFor(os', at, family) == LocalFor(os, at + d, family)
    ensures Binds(os', at, family) == Binds(os, at + d, family)
  {
    assert ReplyAt(os', at) == ReplyAt(os, at + d);
    FirstZeroShift(os, os', d, at + 1, |LocalsAt(os', at, family)|);
  }

  lemma {:induction false} BindLoopAnswer(os: Os, id: Id, h: int, locals: seq<Address>)
    ensures var (os', bound) := BindLoop(os, id, h, locals);
            var j := FirstZero(os, 0, |locals|);
            && bound == (if j < |locals| then Some(locals[j]) else None)
            && (bound.Some? ==> Shifted(os, os', j + 1))
    decreases |locals|
  {
    hide Shifted, Ask, ReplyAt;
    if locals != [] {
      var (os1, ok) := Ask(os, id, h, Bound(locals[0]));
      AskAnswer(os, id, h, Bound(locals[0]));
      if !ok {
        BindLoopAnswer(os1, id, h, locals[1..]);
        FirstZeroShift(os, os1, 1, 0, |locals| - 1);
        var os' := BindLoop(os1, id, h, locals[1..]).0;
        if BindLoop(os, id, h, locals).1.Some? {
          ShiftedCompose(os, os1, os', 1, FirstZero(os1, 0, |locals| - 1) + 1);
        }
      }
    }
  }

  lemma ResolveAnswer(os: Os, family: Family)
    ensures var (os', found) := Resolve(os, Some(family));
            && Shifted(os, os', 1)
            && LocalsAt(os, 0, family) == if found.Some? then found.value.1 else []
  {
    hide Filter;
  }

  lemma FreeShifts(os: Os, os': Os, d: nat, list: nat)
    requires Shifted(os, os', d)
    ensures Shifted(os, Free(os', list), d)
  {
    forall i: nat ensures ReplyAt(Free(os', list), i) == ReplyAt(os, i + d) {
      assert ReplyAt(Free(os', list), i) == ReplyAt(os', i);
    }
  }

  lemma BindLocalAnswer(os: Os, id: Id, h: int, family: Family)
    ensures var (os', ok) := BindLocal(os, id, h, family);
            && (ok <==> LocalFor(os, 0, family).Some?)
            && (ok ==> Shifted(os, os', Binds(os, 0, family) + 2))
            && var (os1, found) := Resolve(os, Some(family));
               LocalFor(os, 0, family)
                 == if found.Some? then BindLoop(os1, id, h, found.value.1).1 else None
  {
    hide BindLoop, Shifted, Resolve, ReplyAt;
    var (os1, found) := Resolve(os, Some(family));
    ResolveAnswer(os, family);
    if found.Some? {
      BindLoopAnswer(os1, id, h, found.value.1);
      FirstZeroShift(os, os1, 1, 0, |found.value.1|);
      var (os2, bound) := BindLoop(os1, id, h, found.value.1);
      if bound.Some? {
        FreeShifts(os1, os2, FirstZero(os1, 0, |found.value.1|) + 1, found.value.0);
        ShiftedCompose(os, os1, Free(os2, found.value.0), 1, FirstZero(os1, 0, |found.value.1|) + 1);
      }
    }
  }

  // ---------- ownership of a candidate ----------

  /** A non-blocking socket of the family, not yet bound. */
  function Prepared(id: Id, family: Family): Endpoint {
    NewEndpoint(id, Some(family)).Mark(Configured)
  }

  lemma {:induction false} BindLoopHolding(
    os0: Os, os: Os, id: Id, h: int, family: Family, locals: seq<Address>)
    requires Holding(os0, os, id, h, Prepared(id, family))
    requires forall i :: 0 <= i < |locals| ==> locals[i].family == family
    ensures var (os', bound) := BindLoop(os, id, h, locals);
            && Holding(os0, os', id, h, Prepared(id, family).(bound := bound))
            && (bound.Some? ==> bound.value.family == family)
    decreases |locals|
  {
    hide Contained, Consistent, Mine, Others, Ask;
    if locals != [] {
      AskHolding(os0, os, id, h, Prepared(id, family), Bound(locals[0]));
      var (os1, ok) := Ask(os, id, h, Bound(locals[0]));
      if !ok {
        BindLoopHolding(os0, os1, id, h, family, locals[1..]);
      }
    }
  }

  lemma BindLocalHolding(os0: Os, os: Os, id: Id, h: int, family: Family)
    requires Holding(os0, os, id, h, Prepared(id, family))
    ensures var os' := BindLocal(os, id, h, family).0;
            Holding(os0, os', id, h, Prepared(id, family).(bound := LocalFor(os, 0, family)))
  {
    hide Contained, Consistent, Others, Mine, BindLoop, LocalFor, Binds;
    var (os1, found) := Resolve(os, Some(family));
    BindLocalAnswer(os, id, h, family);
    ResolveMine(os, id, Some(family));
    ResolveContained(os, {id}, Some(family));
    if found.Some? {
      ContainedRefl(os1, {id});
      BindLoopHolding(os1, os1, id, h, family, found.value.1);
      var os2 := BindLoop(os1, id, h, found.value.1).0;
      ResolveBracket(os, id, Some(family), os2);
      ContainedCompose(os0, os, Free(os2, found.value.0), {id});
    } else {
      ContainedCompose(os0, os, os1, {id});
    }
  }

  /** Nothing is retained but the kept socket. */
  ghost predicate Settled(os: Os, os': Os, id: Id, kept: Option<int>, endpoint: Endpoint) {
    && Consistent(os') && Contained(os, os', {id}) && os'.lists == os.lists
    && (kept.Some? ==> kept.value != INVALID)
    && Mine(os', id) == (if kept.Some? then map[kept.value := endpoint] else map[])
  }

  /** A candidate is kept exactly when it can be set up, and everything else about it is undone. */
  lemma CandidateSettled(os: Os, id: Id, address: Address, hasRemote: bool)
    requires Consistent(os) && Mine(os, id) == map[]
    ensures var (os', kept) := TryAddress(os, id, address, hasRemote);
            && Settled(os, os', id, kept, KeptEndpoint(os, id, address, hasRemote))
            && kept == (if CanSetUp(os, address.family, hasRemote) then Some(ReplyAt(os, 0).value) else None)
  {
    hide Contained, Consistent, Mine, Others, BindLocal, LocalFor, Binds, Ask, Acquire, Connect;
    var family := address.family;
    var (os1, h) := Acquire(os, id, Some(family));
    AcquireHolding(os, id, Some(family));
    AcquireAnswer(os, id, Some(family));
    if h != INVALID {
      var raw := NewEndpoint(id, Some(family));
      var (os2, configured) := Ask(os1, id, h, Configured);
      AskHolding(os, os1, id, h, raw, Configured);
      AskAnswer(os1, id, h, Configured);
      if configured {
        assert Shifted(os, os2, 2);
        LocalShift(os, os2, 2, 0, family);
        BoundSettled(os, os2, id, h, address, hasRemote);
      } else {
        DropHolding(os, os2, id, h, raw);
      }
    }
  }

  /** From the configured socket on. */
  lemma BoundSettled(os0: Os, os: Os, id: Id, h: int, address: Address, hasRemote: bool)
    requires Holding(os0, os, id, h, Prepared(id, address.family))
    ensures var (os3, bound) := BindLocal(os, id, h, address.family);
            var local := LocalFor(os, 0, address.family);
            var endpoint := Prepared(id, address.family).(bound := local);
            && (bound <==> local.Some?)
            && (!bound ==> Settled(os0, Release(os3, id, h), id, None, endpoint))
            && (bound && !hasRemote ==> Settled(os0, os3, id, Some(h), endpoint))
            && (bound && hasRemote ==>
                  var (os4, result) := Connect(os3, id, h, address);
                  && (result == Done <==> ReplyAt(os, 2 + Binds(os, 0, address.family)).value == 0)
                  && if result == Done then Settled(os0, os4, id, Some(h), endpoint.(peer := Some(address)))
                     else Settled(os0, Release(os4, id, h), id, None, endpoint))
  {
    hide Contained, Consistent, Others, Mine, Ask, BindLocal, LocalFor, Binds, ReplyAt;
    BindLocalHolding(os0, os, id, h, address.family);
    BindLocalAnswer(os, id, h, address.family);
    var (os3, bound) := BindLocal(os, id, h, address.family);
    var endpoint := Prepared(id, address.family).(bound := LocalFor(os, 0, address.family));
    if !bound {
      DropHolding(os0, os3, id, h, endpoint);
    } else if hasRemote {
      var (os4, result) := Connect(os3, id, h, address);
      AskHolding(os0, os3, id, h, endpoint, Connected(address));
      AskAnswer(os3, id, h, Connected(address));
      assert ReplyAt(os3, 0) == ReplyAt(os, 0 + (Binds(os, 0, address.family) + 2));
      if result != Done {
        DropHolding(os0, os4, id, h, endpoint);
      }
    }
  }

  // ---------- all candidates ----------

  /** The system after the first i candidates were tried. */
  function After(os: Os, id: Id, addresses: seq<Address>, hasRemote: bool, i: nat): Os
    requires i <= |addresses|
  {
    if i == 0 then os else TryAddress(After(os, id, addresses, hasRemote, i - 1), id, addresses[i - 1], hasRemote).0
  }

  lemma {:induction false} AfterShift(os: Os, id: Id, addresses: seq<Address>, hasRemote: bool, i: nat)
    requires i < |addresses|
    ensures After(TryAddress(os, id, addresses[0], hasRemote).0, id, addresses[1..], hasRemote, i)
         == After(os, id, addresses, hasRemote, i + 1)
  {
    hide TryAddress;
    if i > 0 {
      AfterShift(os, id, addresses, hasRemote, i - 1);
      assert addresses[1..][i - 1] == addresses[i];
    }
  }

  /** The first address whose candidate can be set up is kept, and no later one is tried. */
  lemma {:induction false} KeepsFirstUsable(os: Os, id: Id, addresses: seq<Address>, hasRemote: bool) returns (i: nat)
    ensures var (os', kept) := TryAll(os, id, addresses, hasRemote);
            && i <= |addresses| && (kept.Some? <==> i < |addresses|)
            && (forall j :: 0 <= j < i ==>
                  TryAddress(After(os, id, addresses, hasRemote, j), id, addresses[j], hasRemote).1.None?)
            && (if kept.Some?
                then TryAddress(After(os, id, addresses, hasRemote, i), id, addresses[i], hasRemote) == (os', kept)
                else os' == After(os, id, addresses, hasRemote, i))
    decreases |addresses|
  {
    hide TryAddress;
    i := 0;
    if addresses != [] {
      var (os1, kept) := TryAddress(os, id, addresses[0], hasRemote);
      if kept.None? {
        var k := KeepsFirstUsable(os1, id, addresses[1..], hasRemote);
        i := k + 1;
        forall j | 0 <= j < |addresses|
          ensures After(os1, id, addresses[1..], hasRemote, j) == After(os, id, addresses, hasRemote, j + 1)
        {
          AfterShift(os, id, addresses, hasRemote, j);
        }
        forall j | 0 <= j < i
          ensures TryAddress(After(os, id, addresses, hasRemote, j), id, addresses[j], hasRemote).1.None?
        {
          assert j > 0 ==> addresses[1..][j - 1] == addresses[j];
        }
      }
    }
  }

  /** Candidate i can be set up, at the replies it meets, and no candidate before it can. */
  ghost predicate FirstUsable(os: Os, id: Id, addresses: seq<Address>, hasRemote: bool, i: nat) {
    && i < |addresses| && CanSetUp(After(os, id, addresses, hasRemote, i), addresses[i].family, hasRemote)
    && forall j :: 0 <= j < i ==> !CanSetUp(After(os, id, addresses, hasRemote, j), addresses[j].family, hasRemote)
  }

  ghost predicate NoneUsable(os: Os, id: Id, addresses: seq<Address>, hasRemote: bool) {
    forall j :: 0 <= j < |addresses| ==>
      !CanSetUp(After(os, id, addresses, hasRemote, j), addresses[j].family, hasRemote)
  }

  /** Rejected candidates leave the object without handles. */
  lemma {:induction false} AfterSettled(os: Os, id: Id, addresses: seq<Address>, hasRemote: bool, i: nat)
    requires Consistent(os) && Mine(os, id) == map[] && i <= |addresses|
    requires forall j :: 0 <= j < i ==>
               TryAddress(After(os, id, addresses, hasRemote, j), id, addresses[j], hasRemote).1.None?
    ensures var mid := After(os, id, addresses, hasRemote, i);
            Consistent(mid) && Contained(os, mid, {id}) && mid.lists == os.lists && Mine(mid, id) == map[]
  {
    hide Contained, Consistent, Mine, Others, TryAddress, CanSetUp, KeptEndpoint;
    ContainedRefl(os, {id});
    if i > 0 {
      AfterSettled(os, id, addresses, hasRemote, i - 1);
      var before := After(os, id, addresses, hasRemote, i - 1);
      CandidateSettled(before, id, addresses[i - 1], hasRemote);
      ContainedCompose(os, before, After(os, id, addresses, hasRemote, i), {id});
    }
  }

  /** The loop keeps the first candidate that can be set up, with the endpoint it then has, or nothing. */
  lemma LoopSettled(os: Os, id: Id, addresses: seq<Address>, hasRemote: bool) returns (i: nat)
    requires Consistent(os) && Mine(os, id) == map[]
    ensures var (os', kept) := TryAll(os, id, addresses, hasRemote);
            && Consistent(os') && Contained(os, os', {id}) && os'.lists == os.lists
            && (kept.Some? <==> FirstUsable(os, id, addresses, hasRemote, i))
            && (kept.Some? <==> !NoneUsable(os, id, addresses, hasRemote))
            && (kept.Some? ==>
                  && kept.value == ReplyAt(After(os, id, addresses, hasRemote, i), 0).value != INVALID
                  && Mine(os', id) == map[kept.value :=
                       KeptEndpoint(After(os, id, addresses, hasRemote, i), id, addresses[i], hasRemote)])
            && (kept.None? ==> Mine(os', id) == map[])
  {
    hide Contained, Consistent, Mine, Others, TryAddress, TryAll, After, CanSetUp, KeptEndpoint;
    i := KeepsFirstUsable(os, id, addresses, hasRemote);
    forall j | 0 <= j < i
      ensures !CanSetUp(After(os, id, addresses, hasRemote, j), addresses[j].family, hasRemote)
    {
      AfterSettled(os, id, addresses, hasRemote, j);
      CandidateSettled(After(os, id, addresses, hasRemote, j), id, addresses[j], hasRemote);
    }
    AfterSettled(os, id, addresses, hasRemote, i);
    var mid := After(os, id, addresses, hasRemote, i);
    if i < |addresses| {
      CandidateSettled(mid, id, addresses[i], hasRemote);
      assert CanSetUp(After(os, id, addresses, hasRemote, i), addresses[i].family, hasRemote);
      assert !NoneUsable(os, id, addresses, hasRemote);
      ContainedCompose(os, mid, TryAll(os, id, addresses, hasRemote).0, {id});
    } else {
      assert NoneUsable(os, id, addresses, hasRemote);
    }
  }

  // ---------- Open ----------

  /** The socket is the first usable candidate's. */
  ghost predicate HoldsFirst(os: Os, id: Id, hasRemote: bool, socket: int, mine: map<int, Endpoint>) {
    var (os1, found) := Resolve(os, None);
    && found.Some?
    && exists i: nat ::
         && FirstUsable(os1, id, found.value.1, hasRemote, i)
         && var mid := After(os1, id, found.value.1, hasRemote, i);
            socket == ReplyAt(mid, 0).value
            && mine == map[socket := KeptEndpoint(mid, id, found.value.1[i], hasRemote)]
  }

  /**
   For every script: no resolved list is outstanding and no rejected candidate
   is live afterwards, and on failure nothing changed.  Once addresses are
   resolved Open succeeds iff some candidate can be set up; it keeps the first
   of them, bound to the first local address of its family whose bind works
   and, with a remote, connected to the candidate's own address.
   */
  lemma OpenContract(os: Os, id: Id, options: Options, u: Udp)
    requires Owns(os, id, u.stream)
    ensures var (os', u', status) := Open(os, id, options, u);
            var (os1, found) := Resolve(os, None);
            var hasRemote := options.remoteHost != "";
            var tries := !u.stream.open && (hasRemote <==> options.remotePort != 0);
            var none := found.None? || NoneUsable(os1, id, found.value.1, hasRemote);
            && Tidy(os, os', id, u'.stream)
            && (status != Ok ==> u' == u && Mine(os', id) == Mine(os, id))
            && (status == Ok ==>
                  && u'.stream.open && u'.remote == hasRemote
                  && HoldsFirst(os, id, hasRemote, u'.stream.socket, Mine(os', id)))
            && (status == AlreadyOpen <==> u.stream.open)
            && (status == InvalidArgument <==> !u.stream.open && !tries)
            && (status == Ok <==> tries && !none)
            && (status == OpenFailed <==> tries && none)
  {
    hide Contained, Consistent, Mine, Others, TryAll, Resolve, Tidy, FirstUsable, NoneUsable, KeptEndpoint, After,
         ReplyAt;
    CalmRefl(os, id);
    CalmTidy(os, os, id, u.stream, Quiet);
    assert !u.stream.open ==> Mine(os, id) == map[];
    if !u.stream.open && !options.HalfRemote() {
      var (os1, found) := Resolve(os, None);
      if found.Some? {
        ResolveMine(os, id, None);
        var i := LoopSettled(os1, id, found.value.1, options.HasRemote());
        var (os2, kept) := TryAll(os1, id, found.value.1, options.HasRemote());
        BracketTidy(os, id, None, os2, if kept.Some? then Stream(kept.value, true) else CLOSED);
      } else {
        ResolveFails(os, id, None, u.stream);
      }
    }
  }
}
