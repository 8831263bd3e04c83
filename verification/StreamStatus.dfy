/** Which status a stream read or write reports, in terms of the system's replies alone. */
module StreamStatus {
  import opened Basics
  import opened OperatingSystem
  import opened StreamIo

  // ---------- writing ----------

  // Round i of the write loop is answered by reply 2i, to the wait, and reply
  // 2i + 1, to the send.

  /** How many of `size` bytes are left after the sends of the first k rounds. */
  function Left(os: Os, size: nat, k: nat): (left: nat)
    ensures left <= size
  {
    if k == 0 then size
    else
      var (left, sent) := (Left(os, size, k - 1), ReplyAt(os, 2 * k - 1).value);
      if sent <= 0 then left else left - Min(sent, left)
  }

  /** Round k has something to send, gets to send, and the send takes bytes or would block. */
  predicate GoesOn(os: Os, size: nat, k: nat) {
    var (wait, sent) := (ReplyAt(os, 2 * k), ReplyAt(os, 2 * k + 1));
    Left(os, size, k) > 0 && wait.value > 0 && (sent.value > 0 || (sent.value < 0 && sent.again))
  }

  /** Round k is the one that does not go on. */
  ghost predicate StopsAt(os: Os, size: nat, k: nat) {
    !GoesOn(os, size, k) && forall i: nat :: i < k ==> GoesOn(os, size, i)
  }

  /** What ends the write in round k: nothing left, the wait, or the send. */
  function EndOf(os: Os, size: nat, k: nat): Status {
    if Left(os, size, k) == 0 then Ok else if ReplyAt(os, 2 * k).value == 0 then Timeout else WriteFailed
  }

  /** The calls of round k that are made when it is the last. */
  function LastCalls(os: Os, size: nat, k: nat): nat {
    if Left(os, size, k) == 0 then 0 else if ReplyAt(os, 2 * k).value <= 0 then 1 else 2
  }

  lemma {:induction false} LeftShift(os: Os, os1: Os, size: nat, k: nat)
    requires forall i: nat :: ReplyAt(os1, i) == ReplyAt(os, i + 2)
    ensures Left(os1, Left(os, size, 1), k) == Left(os, size, k + 1)
  {
    if k > 0 {
      LeftShift(os, os1, size, k - 1);
      assert ReplyAt(os1, 2 * k - 1) == ReplyAt(os, 2 * k + 1);
    }
  }

  /** The same facts, one round later. */
  lemma StopsShift(os: Os, os1: Os, size: nat, k: nat)
    requires forall i: nat :: ReplyAt(os1, i) == ReplyAt(os, i + 2)
    requires GoesOn(os, size, 0) && StopsAt(os1, Left(os, size, 1), k)
    ensures StopsAt(os, size, k + 1)
    ensures EndOf(os, size, k + 1) == EndOf(os1, Left(os, size, 1), k)
    ensures LastCalls(os, size, k + 1) == LastCalls(os1, Left(os, size, 1), k)
  {
    var size1 := Left(os, size, 1);
    forall i: nat ensures GoesOn(os1, size1, i) == GoesOn(os, size, i + 1) {
      LeftShift(os, os1, size, i);
      assert ReplyAt(os1, 2 * i) == ReplyAt(os, 2 * i + 2) && ReplyAt(os1, 2 * i + 1) == ReplyAt(os, 2 * i + 3);
    }
    LeftShift(os, os1, size, k);
    assert ReplyAt(os1, 2 * k) == ReplyAt(os, 2 * k + 2);
    forall i: nat | i < k + 1 ensures GoesOn(os, size, i) {
      assert i > 0 ==> GoesOn(os1, size1, i - 1);
    }
  }

  /** One iteration, by its two replies. */
  lemma IterationStatus(os: Os, id: Id, h: int, input: seq<byte>, written: nat, timeout: nat)
    requires written < |input|
    ensures var (os1, progress) := Iteration(os, id, h, input, written, timeout);
            var size := |input| - written;
            && (progress.Proceed? <==> GoesOn(os, size, 0))
            && (progress.Proceed? ==>
                  && progress.written <= |input| && |input| - progress.written == Left(os, size, 1)
                  && (forall i: nat :: ReplyAt(os1, i) == ReplyAt(os, i + 2))
                  && |os1.log| == |os.log| + 2)
            && (progress.Return? ==>
                  progress.status == EndOf(os, size, 0) && |os1.log| == |os.log| + LastCalls(os, size, 0))
  {
    var os1 := Select(os, id, h, timeout).0;
    assert Pop(os1).1 == ReplyAt(os, 1);
    assert Left(os, |input| - written, 0) == |input| - written;
  }

  /** The loop ends in the round that does not go on, for the reason that stops it. */
  lemma {:induction false} WriteLoopStatus(
    os: Os, id: Id, h: int, input: seq<byte>, written: nat, timeout: nat) returns (k: nat)
    requires written <= |input|
    ensures var (os', status) := WriteLoop(os, id, h, input, written, timeout);
            var size := |input| - written;
            && StopsAt(os, size, k) && status == EndOf(os, size, k)
            && |os'.log| == |os.log| + 2 * k + LastCalls(os, size, k)
    decreases |os.script|
  {
    hide Iteration, StopsAt, EndOf, LastCalls;
    k := 0;
    if written < |input| {
      var size := |input| - written;
      var (os1, progress) := Iteration(os, id, h, input, written, timeout);
      IterationStatus(os, id, h, input, written, timeout);
      if progress.Proceed? {
        var k1 := WriteLoopStatus(os1, id, h, input, progress.written, timeout);
        k := k1 + 1;
        StopsShift(os, os1, size, k1);
      } else {
        NothingBefore(os, size);
      }
    } else {
      NothingLeft(os);
    }
  }

  lemma NothingBefore(os: Os, size: nat)
    requires !GoesOn(os, size, 0)
    ensures StopsAt(os, size, 0)
  {
  }

  lemma NothingLeft(os: Os)
    ensures StopsAt(os, 0, 0) && EndOf(os, 0, 0) == Ok && LastCalls(os, 0, 0) == 0
  {
  }

  lemma StopsOnce(os: Os, size: nat, k: nat, j: nat)
    requires StopsAt(os, size, k) && StopsAt(os, size, j)
    ensures k == j
  {
  }

  /** The write is accepted and round k is its last. */
  ghost predicate EndsAt(os: Os, s: Stream, input: Input, k: nat) {
    s.open && !input.Invalid() && StopsAt(os, |input.Data()|, k)
  }

  /**
   Each status of WriteAll, for every script.  An accepted write ends in one
   round: Ok iff the sends before it took everything; Timeout iff bytes are
   left and its wait was answered zero; WriteFailed iff bytes are left and its
   wait was negative, or its send took nothing or failed without would-block.
   The calls made are two per earlier round and, with bytes left, that wait
   and, if it was positive, that send.
   */
  lemma WriteAllStatus(os: Os, id: Id, s: Stream, input: Input, timeout: nat) returns (k: nat)
    ensures var (os', status) := WriteAll(os, id, s, input, timeout);
            var size := |input.Data()|;
            var (wait, sent) := (ReplyAt(os, 2 * k), ReplyAt(os, 2 * k + 1));
            var accepted := s.open && !(input.Null? && input.size != 0);
            var left := accepted && Left(os, size, k) > 0;
            && (accepted <==> EndsAt(os, s, input, k))
            && (forall j: nat :: EndsAt(os, s, input, j) ==> j == k)
            && (status == NotOpen <==> !s.open)
            && (status == InvalidArgument <==> s.open && !accepted)
            && (status == Ok <==> accepted && Left(os, size, k) == 0)
            && (status == Timeout <==> left && wait.value == 0)
            && (status == WriteFailed <==>
                  left && (wait.value < 0 || (wait.value > 0 && (sent.value == 0 || (sent.value < 0 && !sent.again)))))
            && |os'.log| - |os.log| == (if !accepted then 0
                                        else 2 * k + if !left then 0 else if wait.value <= 0 then 1 else 2)
  {
    hide WriteLoop, StopsAt, Left, ReplyAt;
    k := 0;
    if s.open && !input.Invalid() {
      k := WriteLoopStatus(os, id, s.socket, input.Data(), 0, timeout);
      forall j: nat | EndsAt(os, s, input, j) ensures j == k {
        StopsOnce(os, |input.Data()|, k, j);
      }
      LastRound(os, |input.Data()|, k);
    }
  }

  lemma LastRound(os: Os, size: nat, k: nat)
    requires StopsAt(os, size, k)
    ensures !GoesOn(os, size, k)
  {
  }

  // ---------- reading ----------

  /**
   Each status of ReadSome, by the replies to the wait and to the receive; the
   bytes the caller gets; and the calls made.  An empty receipt is a hang-up
   for TCP and a read of no bytes for the serial stream.
   */
  lemma ReadStatus(os: Os, id: Id, s: Stream, isNull: bool, size: nat, timeout: nat, tcp: bool)
    ensures var (os', s', status, bytes) := ReadSome(os, id, s, isNull, size, timeout, tcp);
            var (wait, data) := (ReplyAt(os, 0), ReplyAt(os, 1));
            var waits := s.open && !isNull && size != 0;
            var ready := waits && wait.value > 0;
            var hangUp := ready && tcp && data.value >= 0 && data.data == [];
            && (status == NotOpen <==> !s.open)
            && (status == InvalidArgument <==> s.open && isNull && size != 0)
            && (status == Timeout <==> waits && wait.value == 0)
            && (status == WouldBlock <==> ready && data.value < 0 && data.again)
            && (status == ReadFailed <==> (waits && wait.value < 0) || (ready && data.value < 0 && !data.again))
            && (status == ConnectionClosed <==> hangUp)
            && (status == Ok <==> (s.open && size == 0) || (ready && data.value >= 0 && !hangUp))
            && bytes == (if ready && data.value >= 0 then data.data[..Min(size, |data.data|)] else [])
            && s' == (if hangUp then CLOSED else s)
            && os'.log == os.log
                 + (if waits then [Used(id, s.socket, Selected(timeout))] else [])
                 + (if ready then [Used(id, s.socket, Received(bytes))] else [])
                 + (if hangUp && s.socket != INVALID then [Released(id, s.socket)] else [])
  {
    if s.open && !isNull && size != 0 {
      var os1 := Select(os, id, s.socket, timeout).0;
      assert Pop(os1).1 == ReplyAt(os, 1);
    }
  }
}
