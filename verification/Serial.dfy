/** The serial stream: one device handle, opened directly. */
module Serial {
  import opened Basics
  import opened OperatingSystem
  import opened StreamIo
  import opened Candidates

  datatype Options = Options(deviceName: string, baudRate: nat, dataBits: nat, readTimeout: nat, writeTimeout: nat)
  {
    predicate Valid() {
      deviceName != "" && baudRate != 0 && 5 <= dataBits <= 8
    }
  }

  function Open(os: Os, id: Id, options: Options, s: Stream): (Os, Stream, Status) {
    if s.open then (os, s, AlreadyOpen)
    else if !options.Valid() then (os, s, InvalidArgument)
    else
      var (os1, h) := Acquire(os, id, None);
      if h == INVALID then (os1, s, OpenFailed) else (os1, Stream(h, true), Ok)
  }

  lemma OpenContract(os: Os, id: Id, options: Options, s: Stream)
    requires Owns(os, id, s)
    ensures var (os', s', status) := Open(os, id, options, s);
            var rejected := options.deviceName == "" || options.baudRate == 0 || !(5 <= options.dataBits <= 8);
            && Tidy(os, os', id, s')
            && (status == Ok <==> !s.open && s'.open)
            && (status != Ok ==> s' == s)
            && (status == AlreadyOpen <==> s.open)
            && (status == InvalidArgument <==> !s.open && rejected)
            && (status == OpenFailed <==> !s.open && !rejected && Denied(os, ReplyAt(os, 0)))
            && (status == Ok ==> s'.socket == ReplyAt(os, 0).value && !rejected)
            && status in {Ok, AlreadyOpen, InvalidArgument, OpenFailed}
  {
    ContainedRefl(os, {id});
    if !s.open && options.Valid() {
      AcquireHolding(os, id, None);
    }
  }
}
