/** The fake channels as objects, filling caller-owned buffers. */
module FakeTransport {
  import opened Basics
  import opened Buffers
  import Fakes

  class FakeByteStream {
    var open: bool
    var readChunks: seq<seq<byte>>
    var writes: seq<seq<byte>>
    var nextReadStatus: Status
    var nextWriteStatus: Status

    ghost function Value(): Fakes.FakeStream
      reads this
    {
      Fakes.FakeStream(open, readChunks, writes, nextReadStatus, nextWriteStatus)
    }

    constructor ()
      ensures Value() == Fakes.INITIAL_STREAM
    {
      open, readChunks, writes, nextReadStatus, nextWriteStatus := false, [], [], Ok, Ok;
    }

    method Open() returns (status: Status)
      modifies this
      ensures (Value(), status) == Fakes.OpenStream(old(Value()))
      ensures Value() == old(Value()).(open := true) && status == if old(open) then AlreadyOpen else Ok
    {
      if open {
        return AlreadyOpen;
      }
      open := true;
      return Ok;
    }

    method Close() returns (status: Status)
      modifies this
      ensures status == Ok && Value() == old(Value()).(open := false)
    {
      open := false;
      return Ok;
    }

    method ReadSome(output: array?<byte>, outputSize: nat) returns (status: Status, bytesRead: nat)
      requires output != null ==> outputSize <= output.Length
      modifies this, output
      ensures var (f', status', bytes) := Fakes.ReadSome(old(Value()), output == null, outputSize);
              && Value() == f' && status == status' && bytesRead == |bytes|
              && (bytes != [] ==> output != null && bytesRead <= output.Length && output[..bytesRead] == bytes)
      ensures output != null ==> forall i :: bytesRead <= i < output.Length ==> output[i] == old(output[i])
    {
      bytesRead := 0;
      if !open {
        return NotOpen, bytesRead;
      }
      if output == null && outputSize != 0 {
        return InvalidArgument, bytesRead;
      }
      if nextReadStatus != Ok {
        status := nextReadStatus;
        nextReadStatus := Ok;
        return status, bytesRead;
      }
      if readChunks == [] {
        return WouldBlock, bytesRead;
      }
      var chunk := readChunks[0];
      var count := Min(outputSize, |chunk|);
      CopyOut(output, chunk[..count]);
      bytesRead := count;
      if count == |chunk| {
        readChunks := readChunks[1..];
      } else {
        readChunks := [chunk[count..]] + readChunks[1..];
      }
      return Ok, bytesRead;
    }

    method WriteAll(input: Input) returns (status: Status)
      modifies this
      ensures (Value(), status) == Fakes.WriteAll(old(Value()), input)
    {
      if !open {
        return NotOpen;
      }
      if input.Invalid() {
        return InvalidArgument;
      }
      if nextWriteStatus != Ok {
        status := nextWriteStatus;
        nextWriteStatus := Ok;
        return status;
      }
      writes := writes + [input.Data()];
      return Ok;
    }

    method ScriptRead(bytes: seq<byte>)
      modifies this
      ensures Value() == old(Value()).(chunks := old(readChunks) + [bytes])
    {
      readChunks := readChunks + [bytes];
    }

    method ScriptNextReadStatus(status: Status)
      modifies this
      ensures Value() == old(Value()).(nextRead := status)
    {
      nextReadStatus := status;
    }

    method ScriptNextWriteStatus(status: Status)
      modifies this
      ensures Value() == old(Value()).(nextWrite := status)
    {
      nextWriteStatus := status;
    }

    method Reset()
      modifies this
      ensures Value() == Fakes.INITIAL_STREAM
    {
      open, readChunks, writes, nextReadStatus, nextWriteStatus := false, [], [], Ok, Ok;
    }
  }

  class FakeDatagramTransport {
    var open: bool
    var receiveDatagrams: seq<seq<byte>>
    var sentDatagrams: seq<seq<byte>>
    var nextReceiveStatus: Status
    var nextSendStatus: Status

    ghost function Value(): Fakes.FakeDatagrams
      reads this
    {
      Fakes.FakeDatagrams(open, receiveDatagrams, sentDatagrams, nextReceiveStatus, nextSendStatus)
    }

    constructor ()
      ensures Value() == Fakes.INITIAL_DATAGRAMS
    {
      open, receiveDatagrams, sentDatagrams, nextReceiveStatus, nextSendStatus := false, [], [], Ok, Ok;
    }

    method Open() returns (status: Status)
      modifies this
      ensures status == (if old(open) then AlreadyOpen else Ok) && Value() == old(Value()).(open := true)
    {
      if open {
        return AlreadyOpen;
      }
      open := true;
      return Ok;
    }

    method Close() returns (status: Status)
      modifies this
      ensures status == Ok && Value() == old(Value()).(open := false)
    {
      open := false;
      return Ok;
    }

    method ScriptReceive(bytes: seq<byte>)
      modifies this
      ensures Value() == old(Value()).(queue := old(receiveDatagrams) + [bytes])
    {
      receiveDatagrams := receiveDatagrams + [bytes];
    }

    method Send(input: Input) returns (status: Status)
      modifies this
      ensures (Value(), status) == Fakes.SendDatagram(old(Value()), input)
    {
      if !open {
        return NotOpen;
      }
      if input.Invalid() {
        return InvalidArgument;
      }
      if nextSendStatus != Ok {
        status := nextSendStatus;
        nextSendStatus := Ok;
        return status;
      }
      sentDatagrams := sentDatagrams + [input.Data()];
      return Ok;
    }

    method Receive(output: array?<byte>, outputSize: nat) returns (status: Status, bytesRead: nat)
      requires output != null ==> outputSize <= output.Length
      modifies this, output
      ensures var (f', status', bytes) := Fakes.ReceiveDatagram(old(Value()), output == null, outputSize);
              && Value() == f' && status == status' && bytesRead == |bytes|
              && (bytes != [] ==> output != null && bytesRead <= output.Length && output[..bytesRead] == bytes)
      ensures output != null ==> forall i :: bytesRead <= i < output.Length ==> output[i] == old(output[i])
    {
      bytesRead := 0;
      if !open {
        return NotOpen, bytesRead;
      }
      if output == null && outputSize != 0 {
        return InvalidArgument, bytesRead;
      }
      if nextReceiveStatus != Ok {
        status := nextReceiveStatus;
        nextReceiveStatus := Ok;
        return status, bytesRead;
      }
      if receiveDatagrams == [] {
        return WouldBlock, bytesRead;
      }
      var datagram := receiveDatagrams[0];
      if outputSize < |datagram| {
        return OutputBufferTooSmall, bytesRead;
      }
      CopyOut(output, datagram);
      bytesRead := |datagram|;
      receiveDatagrams := receiveDatagrams[1..];
      return Ok, bytesRead;
    }
  }

  class FakeTimerScheduler {
    var now: nat

    constructor ()
      ensures now == 0
    {
      now := 0;
    }

    method SleepFor(milliseconds: nat) returns (status: Status)
      requires milliseconds < Fakes.DURATION_RANGE
      modifies this
      ensures status == Ok && now == Fakes.SleepFor(old(now), milliseconds)
    {
      now := (now + milliseconds) % Fakes.CLOCK_RANGE;
      return Ok;
    }
  }
}
