/** The revised controller in the Linux platform module. Only the members
    that changed are modelled here; the rest are the `Drive` members. */
module LinuxDrive {
  import opened Primitives
  import C = Constants
  import S = Structures
  import A = Addressing
  import Posix
  import opened Errors
  import opened Ioctl
  import Drive

  /** `set_lock`, as written: `EDRIVE_CANT_DO_THIS` is not imported into the
      platform module, so the pattern that names it binds any value, and
      every successful lock request reports `Unsupported`. */
  function SetLock(locked: bool, ret: IoResult): (r: Call<()>)
    ensures r.request == Some(LockDoorReq(Drive.LockArgument(locked)))
    ensures !r.outcome.Ok? && !r.outcome.Panic?
    ensures r.outcome == Err(Busy) <==> ret == IoErr(Posix.EBUSY)
    ensures ret.IoErr? && ret.errno != Posix.EBUSY ==> r.outcome == Err(Errno(ret.errno))
    ensures r.outcome == Err(Unsupported) <==> ret.IoOk?
  {
    Call(Some(LockDoorReq(Drive.LockArgument(locked))),
         match ret
         case IoErr(e) => if e == Posix.EBUSY then Err(Busy) else Err(Errno(e))
         case IoOk(_) => Err(Unsupported))
  }

  /** The revision disagrees with the first one exactly on the successful
      lock requests the drive did not refuse: locking with result 0
      reports `Unsupported` where the first revision reports success. */
  lemma SetLockRevisionsDiffer(locked: bool, ret: IoResult)
    ensures SetLock(locked, ret) != Drive.SetLock(locked, ret)
            <==> ret.IoOk? && ret.value != C.EDRIVE_CANT_DO_THIS
    ensures SetLock(true, IoOk(0)).outcome == Err(Unsupported)
    ensures Drive.SetLock(true, IoOk(0)).outcome == Ok(())
  {
  }

  /** `subchannel()`: the request is a default-initialised record with no
      track preset; the reply is decoded as in the first revision. */
  function Subchannel(ret: IoResult, reply: S.RawSubChannel): (r: Call<S.SubChannel>)
    ensures r.request == Some(SubChannelReq(None))
    ensures r.outcome == Drive.SubchannelOutcome(ret, reply)
  {
    Call(Some(SubChannelReq(None)), Drive.SubchannelOutcome(ret, reply))
  }

  /** The caller's buffer with the seek time code written into its first
      three bytes. */
  function Preset(buf: seq<u8>, m: S.Msf0): (p: seq<u8>)
    requires |buf| >= 3
    ensures |p| == |buf|
    ensures S.DecodeMsf0(p[..3]) == m
    ensures p[3..] == buf[3..]
  {
    S.EncodeMsf0(m) + buf[3..]
  }

  /** `read_raw_into`, revised: a lead-in address is `InvalidAddress`, then
      a buffer shorter than one raw frame is `InvalidBufferSize` with the
      needed and the given size; neither touches the buffer or the device.
      Otherwise the seek time code goes into the buffer's first three bytes
      and the buffer itself is the request; the drive then transfers
      `sector` into it. */
  function ReadRawInto(address: S.Addr, buf: seq<u8>, ret: IoResult, sector: seq<u8>)
    : (r: BufferCall<u8>)
    ensures r.call.request.None? <==> A.Invalid(Drive.RawTarget(address)) || |buf| < C.CD_FRAMESIZE_RAW
    ensures r.call.request.None? ==> r.buf == buf && r.call.outcome.Err?
    ensures A.Invalid(Drive.RawTarget(address)) ==> r.call.outcome == Err(InvalidAddress)
    ensures !A.Invalid(Drive.RawTarget(address)) && |buf| < C.CD_FRAMESIZE_RAW
            ==> r.call.outcome == Err(InvalidBufferSize(C.CD_FRAMESIZE_RAW, |buf|))
    ensures r.call.outcome.Err? && r.call.outcome.error.InvalidBufferSize?
            ==> r.call.outcome.error.got == |buf| < r.call.outcome.error.needed
    ensures r.call.request.Some? ==>
              && r.call.request.value.ReadRawBufferReq?
              && var sent := r.call.request.value.buffer;
              && |sent| == |buf|
              && S.DecodeMsf0(sent[..3]) == Drive.RawTarget(address)
              && sent[3..] == buf[3..]
              && r.buf == Overlay(sent, sector)
    ensures r.call.request.Some? ==> (r.call.outcome.Panic? <==> ret.IoErr?) && !r.call.outcome.Err?
  {
    var m := Drive.RawTarget(address);
    if A.Invalid(m) then BufferCall(Call(None, Err(InvalidAddress)), buf)
    else if |buf| < C.CD_FRAMESIZE_RAW then
      BufferCall(Call(None, Err(InvalidBufferSize(C.CD_FRAMESIZE_RAW, |buf|))), buf)
    else
      var sent := Preset(buf, m);
      BufferCall(Call(Some(ReadRawBufferReq(sent)), if ret.IoErr? then Panic(IoctlFailed) else Ok(())),
                 Overlay(sent, sector))
  }

  /** Where the first revision sends a request for an empty buffer, the
      revision refuses it with the needed and the given size. */
  lemma ReadRawRevisionsDiffer(ret: IoResult, sector: seq<u8>)
    ensures Drive.ReadRawInto(S.Msf(S.Msf0(0, 2, 0)), [], ret).request.Some?
    ensures ReadRawInto(S.Msf(S.Msf0(0, 2, 0)), [], ret, sector).call
            == Call(None, Err(InvalidBufferSize(2352, 0)))
  {
  }
}
