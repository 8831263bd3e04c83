/** When the TCP client's Open returns which status, in terms of the system's replies alone. */
module TcpOpenStatus {
  import opened Basics
  import opened OperatingSystem
  import opened StreamIo
  import opened TcpStream

  // ---------- one address ----------

  // An attempt is answered by up to five replies: to socket, to making it
  // non-blocking, to connect, to the wait, and to SO_ERROR.

  predicate HasSocket(os: Os) {
    !Denied(os, ReplyAt(os, 0)) && ReplyAt(os, 1).value == 0
  }

  /** connect neither succeeded nor failed at once. */
  predicate GoesOn(os: Os) {
    HasSocket(os) && ReplyAt(os, 2).value != 0 && ReplyAt(os, 2).again
  }

  function WaitReply(os: Os): int {
    ReplyAt(os, 3).value
  }

  predicate Connects(os: Os) {
    || (HasSocket(os) && ReplyAt(os, 2).value == 0)
    || (GoesOn(os) && WaitReply(os) > 0 && ReplyAt(os, 4).value == 0)
  }

  /** The status of a connect that went on and failed. */
  function FailedWait(value: int): Status {
    if value < 0 then WriteFailed else if value == 0 then Timeout else OpenFailed
  }

  lemma AttemptMeaning(os: Os, id: Id, address: Address, timeout: nat)
    ensures var attempt := TryAddress(os, id, address, timeout).1;
            && (attempt.Kept? <==> Connects(os))
            && (attempt.Pending? <==> GoesOn(os) && !Connects(os))
            && (attempt.Pending? ==> attempt.status == FailedWait(WaitReply(os)))
  {
    var (os1, h) := Acquire(os, id, Some(address.family));
    if h != INVALID {
      var (os2, configured) := Ask(os1, id, h, Configured);
      assert Pop(os1).1 == ReplyAt(os, 1) && Pop(os2).1 == ReplyAt(os, 2);
      if configured {
        ConnectMeaning(os2, id, h, address, timeout);
        assert forall i: nat :: i < 3 ==> ReplyAt(os2, i) == ReplyAt(os, i + 2);
      }
    }
  }

  lemma ConnectMeaning(os: Os, id: Id, h: int, address: Address, timeout: nat)
    ensures var attempt := TryConnect(os, id, h, address, timeout).1;
            var (reply, wait, error) := (ReplyAt(os, 0), ReplyAt(os, 1).value, ReplyAt(os, 2).value);
            var goesOn := reply.value != 0 && reply.again;
            && (attempt.Kept? <==> reply.value == 0 || (goesOn && wait > 0 && error == 0))
            && (attempt.Pending? <==> goesOn && !(wait > 0 && error == 0))
            && (attempt.Pending? ==> attempt.status == FailedWait(wait))
  {
    var os1 := Connect(os, id, h, address).0;
    assert Pop(os1).1 == ReplyAt(os, 1);
    assert Pop(Select(os1, id, h, timeout).0).1 == ReplyAt(os, 2);
  }

  // ---------- all addresses ----------

  /** The system after the attempts at the first i addresses. */
  function After(os: Os, id: Id, addresses: seq<Address>, timeout: nat, i: nat): Os
    requires i <= |addresses|
  {
    if i == 0 then os else TryAddress(After(os, id, addresses, timeout, i - 1), id, addresses[i - 1], timeout).0
  }

  ghost predicate NoneConnects(os: Os, id: Id, addresses: seq<Address>, timeout: nat) {
    forall i :: 0 <= i < |addresses| ==> !Connects(After(os, id, addresses, timeout, i))
  }

  ghost predicate NoneGoesOn(os: Os, id: Id, addresses: seq<Address>, timeout: nat, from: nat) {
    forall i :: from <= i < |addresses| ==> !GoesOn(After(os, id, addresses, timeout, i))
  }

  /** The i-th attempt is the last whose connect went on. */
  ghost predicate LastWait(os: Os, id: Id, addresses: seq<Address>, timeout: nat, i: nat) {
    i < |addresses| && GoesOn(After(os, id, addresses, timeout, i)) && NoneGoesOn(os, id, addresses, timeout, i + 1)
  }

  lemma {:induction false} AfterShift(os: Os, id: Id, addresses: seq<Address>, timeout: nat, i: nat)
    requires i < |addresses|
    ensures After(TryAddress(os, id, addresses[0], timeout).0, id, addresses[1..], timeout, i)
         == After(os, id, addresses, timeout, i + 1)
  {
    hide TryAddress;
    if i > 0 {
      AfterShift(os, id, addresses, timeout, i - 1);
      assert addresses[1..][i - 1] == addresses[i];
    }
  }

  /** The same facts, one address later. */
  lemma Shifted(os: Os, id: Id, addresses: seq<Address>, timeout: nat)
    requires addresses != []
    ensures var (os1, rest) := (TryAddress(os, id, addresses[0], timeout).0, addresses[1..]);
            && (NoneConnects(os, id, addresses, timeout) <==> !Connects(os) && NoneConnects(os1, id, rest, timeout))
            && (forall k: nat :: k < |addresses| ==>
                  (NoneGoesOn(os, id, addresses, timeout, k + 1) <==> NoneGoesOn(os1, id, rest, timeout, k)))
            && (forall k: nat :: k < |rest| ==>
                  (LastWait(os, id, addresses, timeout, k + 1) <==> LastWait(os1, id, rest, timeout, k)))
  {
    hide TryAddress, Connects, GoesOn;
    var (os1, rest) := (TryAddress(os, id, addresses[0], timeout).0, addresses[1..]);
    assert After(os, id, addresses, timeout, 0) == os;
    forall i | 0 <= i < |addresses|
      ensures After(os1, id, rest, timeout, i) == After(os, id, addresses, timeout, i + 1)
    {
      AfterShift(os, id, addresses, timeout, i);
    }
    if NoneConnects(os1, id, rest, timeout) && !Connects(os) {
      forall i | 0 <= i < |addresses| ensures !Connects(After(os, id, addresses, timeout, i)) {
        assert i > 0 ==> After(os, id, addresses, timeout, i) == After(os1, id, rest, timeout, i - 1);
      }
    }
    forall k: nat | k < |addresses| && NoneGoesOn(os1, id, rest, timeout, k)
      ensures NoneGoesOn(os, id, addresses, timeout, k + 1)
    {
      forall i | k + 1 <= i < |addresses| ensures !GoesOn(After(os, id, addresses, timeout, i)) {
        assert After(os, id, addresses, timeout, i) == After(os1, id, rest, timeout, i - 1);
      }
    }
  }

  lemma {:induction false} LoopStatus(os: Os, id: Id, addresses: seq<Address>, timeout: nat, default: Status)
    ensures var status := TryAll(os, id, addresses, timeout, default).2;
            && (!NoneConnects(os, id, addresses, timeout) ==> status == Ok)
            && (NoneConnects(os, id, addresses, timeout) ==>
                  && (NoneGoesOn(os, id, addresses, timeout, 0) ==> status == default)
                  && (forall i: nat :: LastWait(os, id, addresses, timeout, i) ==>
                        status == FailedWait(WaitReply(After(os, id, addresses, timeout, i)))))
    decreases |addresses|
  {
    hide TryAddress, Connects, GoesOn, WaitReply;
    if addresses != [] {
      var (os1, attempt) := TryAddress(os, id, addresses[0], timeout);
      AttemptMeaning(os, id, addresses[0], timeout);
      Shifted(os, id, addresses, timeout);
      assert After(os, id, addresses, timeout, 0) == os;
      if !attempt.Kept? {
        LoopStatus(os1, id, addresses[1..], timeout, if attempt.Pending? then attempt.status else default);
        if NoneConnects(os, id, addresses, timeout) {
          LoopWaits(os, id, addresses, timeout, default);
        }
      }
    }
  }

  /** The status of the loop in terms of the status of its tail. */
  lemma LoopWaits(os: Os, id: Id, addresses: seq<Address>, timeout: nat, default: Status)
    requires addresses != [] && NoneConnects(os, id, addresses, timeout)
    requires var (os1, attempt) := TryAddress(os, id, addresses[0], timeout);
             var carried := if attempt.Pending? then attempt.status else default;
             var status := TryAll(os1, id, addresses[1..], timeout, carried).2;
             && (NoneGoesOn(os1, id, addresses[1..], timeout, 0) ==> status == carried)
             && (forall i: nat :: LastWait(os1, id, addresses[1..], timeout, i) ==>
                   status == FailedWait(WaitReply(After(os1, id, addresses[1..], timeout, i))))
    ensures var status := TryAll(os, id, addresses, timeout, default).2;
            && (NoneGoesOn(os, id, addresses, timeout, 0) ==> status == default)
            && (forall i: nat :: LastWait(os, id, addresses, timeout, i) ==>
                  status == FailedWait(WaitReply(After(os, id, addresses, timeout, i))))
  {
    hide TryAddress, Connects, GoesOn, WaitReply;
    var (os1, attempt) := TryAddress(os, id, addresses[0], timeout);
    AttemptMeaning(os, id, addresses[0], timeout);
    Shifted(os, id, addresses, timeout);
    assert After(os, id, addresses, timeout, 0) == os;
    forall i: nat | LastWait(os, id, addresses, timeout, i)
      ensures TryAll(os, id, addresses, timeout, default).2
           == FailedWait(WaitReply(After(os, id, addresses, timeout, i)))
    {
      if i == 0 {
        assert NoneGoesOn(os1, id, addresses[1..], timeout, 0);
      } else {
        assert LastWait(os1, id, addresses[1..], timeout, i - 1);
        AfterShift(os, id, addresses, timeout, i - 1);
      }
    }
  }

  lemma {:induction false} SomeLastWait(os: Os, id: Id, addresses: seq<Address>, timeout: nat, from: nat)
    requires from <= |addresses| && !NoneGoesOn(os, id, addresses, timeout, from)
    ensures exists i: nat :: LastWait(os, id, addresses, timeout, i)
    decreases |addresses| - from
  {
    hide After, GoesOn;
    if NoneGoesOn(os, id, addresses, timeout, from + 1) {
      assert LastWait(os, id, addresses, timeout, from);
    } else {
      SomeLastWait(os, id, addresses, timeout, from + 1);
    }
  }

  /** The wait of the last connect that went on ended with this status, and no address connected. */
  ghost predicate LastWaitFails(os: Os, id: Id, addresses: seq<Address>, timeout: nat, status: Status) {
    && NoneConnects(os, id, addresses, timeout)
    && exists i: nat :: LastWait(os, id, addresses, timeout, i)
                        && FailedWait(WaitReply(After(os, id, addresses, timeout, i))) == status
  }

  /** Open gets as far as resolving the host. */
  predicate Resolves(options: Options, s: Stream) {
    !s.open && options.host != "" && options.port != 0
  }

  /**
   Each status of Open, by the replies.  Once the host is resolved: Ok iff some
   address connects; WriteFailed (which the documentation does not list) iff
   none connects and the wait of the last connect that went on failed; Timeout
   iff that wait timed out; OpenFailed iff none connects and no wait failed or
   timed out last.
   */
  lemma OpenStatus(os: Os, id: Id, options: Options, s: Stream)
    ensures var status := Open(os, id, options, s).2;
            var (os1, found) := Resolve(os, None);
            var addresses := if found.Some? then found.value.1 else [];
            var timeout := options.connectTimeout;
            var resolved := Resolves(options, s) && found.Some?;
            && (status == AlreadyOpen <==> s.open)
            && (status == InvalidArgument <==> !s.open && !Resolves(options, s))
            && (status == Ok <==> resolved && !NoneConnects(os1, id, addresses, timeout))
            && (status == WriteFailed <==> resolved && LastWaitFails(os1, id, addresses, timeout, WriteFailed))
            && (status == Timeout <==> resolved && LastWaitFails(os1, id, addresses, timeout, Timeout))
            && (status == OpenFailed <==>
                  || (Resolves(options, s) && found.None?)
                  || (resolved && LastWaitFails(os1, id, addresses, timeout, OpenFailed))
                  || (resolved && NoneConnects(os1, id, addresses, timeout)
                      && NoneGoesOn(os1, id, addresses, timeout, 0)))
  {
    hide TryAll, Resolve, NoneConnects, NoneGoesOn, LastWaitFails;
    var (os1, found) := Resolve(os, None);
    if Resolves(options, s) && found.Some? {
      LoopOutcome(os1, id, found.value.1, options.connectTimeout);
    }
  }

  lemma LoopOutcome(os: Os, id: Id, addresses: seq<Address>, timeout: nat)
    ensures var status := TryAll(os, id, addresses, timeout, OpenFailed).2;
            && (status == Ok <==> !NoneConnects(os, id, addresses, timeout))
            && (status == WriteFailed <==> LastWaitFails(os, id, addresses, timeout, WriteFailed))
            && (status == Timeout <==> LastWaitFails(os, id, addresses, timeout, Timeout))
            && (status == OpenFailed <==>
                  || LastWaitFails(os, id, addresses, timeout, OpenFailed)
                  || (NoneConnects(os, id, addresses, timeout) && NoneGoesOn(os, id, addresses, timeout, 0)))
            && status in {Ok, WriteFailed, Timeout, OpenFailed}
  {
    hide TryAll, NoneConnects, NoneGoesOn, After, WaitReply;
    LoopStatus(os, id, addresses, timeout, OpenFailed);
    if NoneConnects(os, id, addresses, timeout) && !NoneGoesOn(os, id, addresses, timeout, 0) {
      SomeLastWait(os, id, addresses, timeout, 0);
      var i: nat :| LastWait(os, id, addresses, timeout, i);
      assert LastWaitFails(os, id, addresses, timeout, FailedWait(WaitReply(After(os, id, addresses, timeout, i))));
    }
    NoneGoesOnNoLast(os, id, addresses, timeout);
  }

  lemma NoneGoesOnNoLast(os: Os, id: Id, addresses: seq<Address>, timeout: nat)
    ensures NoneGoesOn(os, id, addresses, timeout, 0) ==> forall i: nat :: !LastWait(os, id, addresses, timeout, i)
  {
    hide After, GoesOn;
  }

  // ---------- waiting ----------

  /** One wait of that length, or none. */
  ghost predicate Waited(os: Os, os': Os, id: Id, timeout: nat, once: bool) {
    var (before, after) := (Tally(os.log, id), Tally(os'.log, id));
    && after.waits == before.waits + (if once then 1 else 0)
    && after.time == before.time + (if once then timeout else 0)
  }

  lemma SetUpTally(os: Os, id: Id, h: int, use: Use, family: Option<Family>, list: nat)
    requires use.Configured? || use.Connected?
    ensures Tally(Ask(os, id, h, use).0.log, id) == Tally(os.log, id)
    ensures Tally(Release(os, id, h).log, id) == Tally(os.log, id)
    ensures Tally(Acquire(os, id, family).0.log, id) == Tally(os.log, id)
    ensures Tally(Resolve(os, family).0.log, id) == Tally(os.log, id)
    ensures Tally(Free(os, list).log, id) == Tally(os.log, id)
  {
    hide Tally, Filter;
    TallyAppend(os.log, Used(id, h, use), id);
    TallyAppend(os.log, Released(id, h), id);
    TallyAppend(os.log, Acquired(id, Acquire(os, id, family).1), id);
    TallyAppend(os.log, Resolved(os.nextList), id);
    TallyAppend(os.log, Freed(list), id);
  }

  lemma AwaitWaits(os: Os, id: Id, h: int, address: Address, timeout: nat)
    ensures Waited(os, Await(os, id, h, address, timeout).0, id, timeout, true)
  {
    hide Tally, Select, Ask, Release;
    var os1 := Select(os, id, h, timeout).0;
    SelectTally(os, id, h, timeout);
    SetUpTally(os1, id, h, Connected(address), None, 0);
    SetUpTally(Ask(os1, id, h, Connected(address)).0, id, h, Configured, None, 0);
  }

  lemma ConnectWaits(os: Os, id: Id, h: int, address: Address, timeout: nat)
    ensures var reply := ReplyAt(os, 0);
            Waited(os, TryConnect(os, id, h, address, timeout).0, id, timeout, reply.value != 0 && reply.again)
  {
    hide Tally, Await, Release;
    SetUpTally(os, id, h, Connected(address), None, 0);
    var os1 := Connect(os, id, h, address).0;
    SetUpTally(os1, id, h, Configured, None, 0);
    AwaitWaits(os1, id, h, address, timeout);
  }

  /** An attempt waits once, for the whole timeout, exactly when its connect goes on. */
  lemma AttemptWaits(os: Os, id: Id, address: Address, timeout: nat)
    ensures Waited(os, TryAddress(os, id, address, timeout).0, id, timeout, GoesOn(os))
  {
    hide Tally, TryConnect, Release;
    var (os1, h) := Acquire(os, id, Some(address.family));
    SetUpTally(os, id, h, Configured, Some(address.family), 0);
    SetUpTally(os1, id, h, Configured, None, 0);
    if h != INVALID {
      var (os2, configured) := Ask(os1, id, h, Configured);
      assert Pop(os1).1 == ReplyAt(os, 1) && ReplyAt(os2, 0) == ReplyAt(os, 2);
      SetUpTally(os2, id, h, Configured, None, 0);
      ConnectWaits(os2, id, h, address, timeout);
    }
  }

  lemma {:induction false} LoopWaitsBounded(os: Os, id: Id, addresses: seq<Address>, timeout: nat, status: Status)
    ensures var (before, after) := (Tally(os.log, id), Tally(TryAll(os, id, addresses, timeout, status).0.log, id));
            && before.waits <= after.waits <= before.waits + |addresses|
            && after.time == before.time + (after.waits - before.waits) * timeout
    decreases |addresses|
  {
    hide Tally, TryAddress, GoesOn;
    if addresses != [] {
      var (os1, attempt) := TryAddress(os, id, addresses[0], timeout);
      AttemptWaits(os, id, addresses[0], timeout);
      if !attempt.Kept? {
        var carried := if attempt.Pending? then attempt.status else status;
        LoopWaitsBounded(os1, id, addresses[1..], timeout, carried);
        var later := Tally(TryAll(os1, id, addresses[1..], timeout, carried).0.log, id).waits - Tally(os1.log, id).waits;
        assert (later + 1) * timeout == later * timeout + timeout;
      }
    }
  }

  /** For every script Open waits at most once per resolved address, each time for the connect timeout. */
  lemma OpenWaits(os: Os, id: Id, options: Options, s: Stream)
    ensures var (before, after) := (Tally(os.log, id), Tally(Open(os, id, options, s).0.log, id));
            var found := Resolve(os, None).1;
            && before.waits <= after.waits
            && after.waits - before.waits <= (if Resolves(options, s) && found.Some? then |found.value.1| else 0)
            && after.time == before.time + (after.waits - before.waits) * options.connectTimeout
  {
    hide Tally, TryAll, Resolve, Free;
    if Resolves(options, s) {
      SetUpTally(os, id, 0, Configured, None, 0);
      var (os1, found) := Resolve(os, None);
      if found.Some? {
        LoopWaitsBounded(os1, id, found.value.1, options.connectTimeout, OpenFailed);
        var os2 := TryAll(os1, id, found.value.1, options.connectTimeout, OpenFailed).0;
        SetUpTally(os2, id, 0, Configured, None, found.value.0);
      }
    }
  }
}
