/** The boundary between the controller and the kernel. Each ioctl the
    controller declares becomes a `Request` value recording which control
    code it would be issued with and what the argument held; the kernel's
    answer comes back in as an `IoResult` (plus, where the kernel fills in
    a record, that record as a separate input). */
module Ioctl {
  import opened Primitives
  import C = Constants
  import S = Structures
  import Posix
  import opened Errors

  /** An ioctl's return: the call's result number, or the error number the
      call failed with. */
  datatype IoResult = IoOk(value: int) | IoErr(errno: Posix.Errno)

  /** The request a controller call hands to the kernel. */
  datatype Request =
    | DriveStatusReq
    | DiscStatusReq
    | GetMcnReq
    | ReadTocHeaderReq
    | ReadTocEntryReq(track: u8, format: u8)
    | LockDoorReq(lock: int)
    | EjectReq
    | CloseTrayReq
    | SubChannelReq(presetTrack: Option<u8>)
    | ReadAudioReq(audio: S.ReadAudio)
    | ReadRawSeekReq(seek: S.MsfLong)
    | ReadRawBufferReq(buffer: seq<u8>)

  /** The operation each request is issued as. */
  function RequestOperation(r: Request): C.Operation {
    match r
    case DriveStatusReq => C.Operation.DriveStatus
    case DiscStatusReq => C.DiscStatus
    case GetMcnReq => C.GetMcn
    case ReadTocHeaderReq => C.ReadTocHeader
    case ReadTocEntryReq(_, _) => C.ReadTocEntry
    case LockDoorReq(_) => C.LockDoor
    case EjectReq => C.Eject
    case CloseTrayReq => C.Operation.CloseTray
    case SubChannelReq(_) => C.SubChannel
    case ReadAudioReq(_) => C.ReadAudio
    case ReadRawSeekReq(_) => C.ReadRaw
    case ReadRawBufferReq(_) => C.ReadRaw
  }

  /** The control code a request is issued with: a CD-ROM code that names
      the request's operation and no other. */
  function RequestCode(r: Request): (code: int)
    ensures code / 0x100 == 0x53 && 0x5301 <= code <= 0x5396
    ensures C.IoctlToOp(code) == Some(RequestOperation(r))
  {
    C.ControlCodeRange(RequestOperation(r));
    C.IoctlRoundTrip(RequestOperation(r));
    C.OpToIoctl(RequestOperation(r))
  }

  /** The control codes of the requests the controller declares. */
  lemma ControllerCodes(r: Request)
    ensures r.DriveStatusReq? ==> RequestCode(r) == 0x5326
    ensures r.DiscStatusReq? ==> RequestCode(r) == 0x5327
    ensures r.GetMcnReq? ==> RequestCode(r) == 0x5311
    ensures r.ReadTocHeaderReq? ==> RequestCode(r) == 0x5305
    ensures r.ReadTocEntryReq? ==> RequestCode(r) == 0x5306
    ensures r.LockDoorReq? ==> RequestCode(r) == 0x5329
    ensures r.EjectReq? ==> RequestCode(r) == 0x5309
    ensures r.CloseTrayReq? ==> RequestCode(r) == 0x5319
    ensures r.SubChannelReq? ==> RequestCode(r) == 0x530b
    ensures r.ReadAudioReq? ==> RequestCode(r) == 0x530e
    ensures r.ReadRawSeekReq? || r.ReadRawBufferReq? ==> RequestCode(r) == 0x5314
  {
  }

  /** One controller call: the request it issued, if it reached the
      device, and how it ended. */
  datatype Call<+T> = Call(request: Option<Request>, outcome: Outcome<T>)

  /** A call that also writes into a caller's buffer: the call, and the
      buffer as the caller finds it afterwards. */
  datatype BufferCall<T> = BufferCall(call: Call<()>, buf: seq<T>)

  /** A buffer after the drive transferred `data` into the start of it;
      nothing is written past the buffer's end. */
  function Overlay<T>(buf: seq<T>, data: seq<T>): (r: seq<T>)
    ensures |r| == |buf|
    ensures forall i :: 0 <= i < |r| ==> r[i] == if i < |data| then data[i] else buf[i]
  {
    if |data| >= |buf| then data[..|buf|] else data + buf[|data|..]
  }
}
