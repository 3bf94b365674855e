/** The drive controller `CDRom`: each method is a pure function from its
    arguments and the kernel's answer to the request it issued (if any)
    and its outcome. The checks a method makes before calling the device
    decide whether a request is issued at all; an `unwrap()` on a failed
    ioctl and every `panic!` end the call with `Panic`. The revised
    controller repeats `status`, `disc_type`, `mcn`, `toc_header`,
    `toc_entry`, `eject`, `close`, `read_audio` and `read_audio_into`
    unchanged, so these members model both. */
module Drive {
  import opened Primitives
  import C = Constants
  import S = Structures
  import A = Addressing
  import Posix
  import opened Errors
  import opened Ioctl

  /** `status`: the drive-status request; an ioctl error panics, an
      unknown status number is absence. */
  function Status(ret: IoResult): (r: Call<Option<C.Status>>)
    ensures r.request == Some(DriveStatusReq)
    ensures r.outcome.Panic? <==> ret.IoErr?
    ensures !r.outcome.Err?
    ensures r.outcome.Ok? ==> (r.outcome.value.Some? <==> 0 <= ret.value <= 4)
    ensures r.outcome.Ok? && r.outcome.value.Some? ==> C.StatusCode(r.outcome.value.value) == ret.value
  {
    Call(Some(DriveStatusReq),
         match ret
         case IoErr(_) => Panic(IoctlFailed)
         case IoOk(v) => Ok(C.DecodeStatus(v)))
  }

  /** `disc_type`: the disc-status request; both an ioctl error and an
      unknown disc number are absence. */
  function DiscType(ret: IoResult): (r: Call<Option<C.DiscType>>)
    ensures r.request == Some(DiscStatusReq)
    ensures r.outcome.Ok?
    ensures r.outcome.value.Some? <==> ret.IoOk? && (ret.value == 0 || 100 <= ret.value <= 105)
    ensures r.outcome.value.Some? ==> C.DiscTypeCode(r.outcome.value.value) == ret.value
  {
    Call(Some(DiscStatusReq),
         match ret
         case IoErr(_) => Ok(None)
         case IoOk(v) => Ok(C.DecodeDiscType(v)))
  }

  /** `mcn`: the kernel fills a 14-byte array; the catalog number is all of
      it but the final terminator byte. An ioctl error is absence. */
  function Mcn(ret: IoResult, reply: seq<u8>): (r: Call<Option<seq<u8>>>)
    requires |reply| == 14
    ensures r.request == Some(GetMcnReq)
    ensures r.outcome.Ok?
    ensures r.outcome.value.None? <==> ret.IoErr?
    ensures r.outcome.value.Some? ==> |r.outcome.value.value| == 13
    ensures r.outcome.value.Some? ==> r.outcome.value.value + [reply[13]] == reply
  {
    Call(Some(GetMcnReq),
         match ret
         case IoErr(_) => Ok(None)
         case IoOk(_) => Ok(Some(reply[..|reply| - 1])))
  }

  /** `toc_header`, as written: only "no medium" is reported; every other
      ioctl error still yields the default header. */
  function TocHeader(ret: IoResult, reply: S.TocHeader): (r: Call<S.TocHeader>)
    ensures r.request == Some(ReadTocHeaderReq)
    ensures !r.outcome.Panic?
    ensures r.outcome.Err? <==> ret == IoErr(Posix.ENOMEDIUM)
    ensures r.outcome.Err? ==> r.outcome.error == NoDisc
    ensures ret.IoOk? ==> r.outcome == Ok(reply)
    ensures ret.IoErr? && ret.errno != Posix.ENOMEDIUM ==> r.outcome == Ok(S.DEFAULT_TOC_HEADER)
  {
    Call(Some(ReadTocHeaderReq),
         if ret == IoErr(Posix.ENOMEDIUM) then Err(NoDisc)
         else if ret.IoOk? then Ok(reply)
         else Ok(S.DEFAULT_TOC_HEADER))
  }

  /** `toc_header` with every ioctl error reported: "no medium" is
      `NoDisc` and every other ioctl error passes through as `Errno`. */
  function TocHeaderChecked(ret: IoResult, reply: S.TocHeader): (r: Call<S.TocHeader>)
    ensures r.request == Some(ReadTocHeaderReq)
    ensures r.outcome.Ok? <==> ret.IoOk?
    ensures r.outcome.Ok? ==> r.outcome.value == reply
    ensures r.outcome == Err(NoDisc) <==> ret == IoErr(Posix.ENOMEDIUM)
    ensures ret.IoErr? && ret.errno != Posix.ENOMEDIUM ==> r.outcome == Err(Errno(ret.errno))
  {
    Call(Some(ReadTocHeaderReq),
         match ret
         case IoOk(_) => Ok(reply)
         case IoErr(e) => if e == Posix.ENOMEDIUM then Err(NoDisc) else Err(Errno(e)))
  }

  /** The two readings of `toc_header` differ exactly on ioctl errors other
      than "no medium", which the code as written turns into success: an
      I/O error yields the empty header 0..0. */
  lemma TocHeaderMasksErrors(ret: IoResult, reply: S.TocHeader)
    ensures TocHeader(ret, reply) != TocHeaderChecked(ret, reply)
            <==> ret.IoErr? && ret.errno != Posix.ENOMEDIUM
    ensures TocHeader(IoErr(Posix.EIO), reply).outcome == Ok(S.TocHeader(0, 0))
    ensures TocHeaderChecked(IoErr(Posix.EIO), reply).outcome == Err(Errno(Posix.EIO))
  {
  }

  /** `toc_entry`: the request presets the track and the wanted format; the
      reply is decoded by the format the kernel returned. There is no error
      result: a failed ioctl or an unknown format panics. */
  function TocEntry(index: u8, addressType: C.AddressType, ret: IoResult, reply: S.RawTocEntry)
    : (r: Call<S.TocEntry>)
    ensures r.request == Some(ReadTocEntryReq(index, C.AddressTypeCode(addressType)))
    ensures !r.outcome.Err?
    ensures r.outcome.Panic? <==> ret.IoErr? || (reply.format != 1 && reply.format != 2)
    ensures r.outcome.Ok? ==> r.outcome.value.track == reply.track
    ensures r.outcome.Ok? ==> r.outcome.value.adr * 16 + r.outcome.value.ctrl == reply.adrCtrl
                              && r.outcome.value.adr < 16 && r.outcome.value.ctrl < 16
    ensures r.outcome.Ok? ==> C.AddressTypeCode(S.AddrFormat(r.outcome.value.addr)) == reply.format
                              && S.IsViewOf(r.outcome.value.addr, reply.addr)
  {
    Call(Some(ReadTocEntryReq(index, C.AddressTypeCode(addressType))),
         if ret.IoErr? then Panic(IoctlFailed)
         else match S.DecodeTocEntry(reply)
              case Some(e) => Ok(e)
              case None => Panic(UnknownFormat))
  }

  /** The argument the lock request carries. */
  function LockArgument(locked: bool): int {
    if locked then 1 else 0
  }

  /** `set_lock`: a busy drive is `Busy`, any other ioctl error is `Errno`;
      a drive answering "cannot do this" is `Unsupported`. */
  function SetLock(locked: bool, ret: IoResult): (r: Call<()>)
    ensures r.request == Some(LockDoorReq(LockArgument(locked)))
    ensures r.request.value.lock == 1 <==> locked
    ensures !r.outcome.Panic?
    ensures r.outcome == Err(Busy) <==> ret == IoErr(Posix.EBUSY)
    ensures ret.IoErr? && ret.errno != Posix.EBUSY ==> r.outcome == Err(Errno(ret.errno))
    ensures r.outcome == Err(Unsupported) <==> ret == IoOk(C.EDRIVE_CANT_DO_THIS)
    ensures r.outcome.Ok? <==> ret.IoOk? && ret.value != C.EDRIVE_CANT_DO_THIS
  {
    Call(Some(LockDoorReq(LockArgument(locked))),
         match ret
         case IoErr(e) => if e == Posix.EBUSY then Err(Busy) else Err(Errno(e))
         case IoOk(v) => if v == C.EDRIVE_CANT_DO_THIS then Err(Unsupported) else Ok(()))
  }

  /** `eject`: a result of 2 means the door is locked. */
  function Eject(ret: IoResult): (r: Call<()>)
    ensures r.request == Some(EjectReq)
    ensures r.outcome.Panic? <==> ret.IoErr?
    ensures r.outcome.Err? <==> ret == IoOk(2)
    ensures r.outcome.Err? ==> r.outcome.error == DoorLocked
  {
    Call(Some(EjectReq),
         match ret
         case IoErr(_) => Panic(IoctlFailed)
         case IoOk(v) => if v == 2 then Err(DoorLocked) else Ok(()))
  }

  /** `close`: a result of `ENOSYS` means closing is unsupported, a result
      of `EBUSY` that the door is locked. */
  function Close(ret: IoResult): (r: Call<()>)
    ensures r.request == Some(CloseTrayReq)
    ensures r.outcome.Panic? <==> ret.IoErr?
    ensures r.outcome == Err(Unsupported) <==> ret == IoOk(Posix.ENOSYS as int)
    ensures r.outcome == Err(DoorLocked) <==> ret == IoOk(Posix.EBUSY as int)
    ensures r.outcome.Ok? <==> ret.IoOk? && ret.value != Posix.ENOSYS as int && ret.value != Posix.EBUSY as int
  {
    Call(Some(CloseTrayReq),
         match ret
         case IoErr(_) => Panic(IoctlFailed)
         case IoOk(v) =>
           if v == Posix.ENOSYS as int then Err(Unsupported)
           else if v == Posix.EBUSY as int then Err(DoorLocked)
           else Ok(()))
  }

  /** The outcome of a sub-channel read, once the request is issued:
      shared by both controller revisions, which differ only in the
      request. */
  function SubchannelOutcome(ret: IoResult, reply: S.RawSubChannel): (o: Outcome<S.SubChannel>)
    ensures !o.Err?
    ensures o.Panic? <==> ret.IoErr? || (reply.format != 1 && reply.format != 2)
    ensures o.Ok? ==> S.AddrFormat(o.value.absAddr) == S.AddrFormat(o.value.relAddr)
    ensures o.Ok? ==> C.AddressTypeCode(S.AddrFormat(o.value.absAddr)) == reply.format
    ensures o.Ok? ==> S.IsViewOf(o.value.absAddr, reply.absAddr) && S.IsViewOf(o.value.relAddr, reply.relAddr)
    ensures o.Ok? ==> o.value.adr * 16 + o.value.ctrl == reply.adrCtrl && o.value.adr < 16 && o.value.ctrl < 16
    ensures o.Ok? ==> o.value.track == reply.track && o.value.index == reply.index
                      && o.value.audioStatus == reply.audioStatus
  {
    if ret.IoErr? then Panic(IoctlFailed)
    else match S.DecodeSubChannel(reply)
         case Some(sc) => Ok(sc)
         case None => Panic(UnknownFormat)
  }

  /** `subchannel(track)`: the request presets the track. */
  function Subchannel(track: u8, ret: IoResult, reply: S.RawSubChannel): (r: Call<S.SubChannel>)
    ensures r.request == Some(SubChannelReq(Some(track)))
    ensures r.outcome == SubchannelOutcome(ret, reply)
  {
    Call(Some(SubChannelReq(Some(track))), SubchannelOutcome(ret, reply))
  }

  /** The size in 16-bit samples of `frames` raw frames. */
  function AudioSamples(frames: nat): (n: nat)
    ensures 2 * n == frames * C.CD_FRAMESIZE_RAW
  {
    (frames * C.CD_FRAMESIZE_RAW) / 2
  }

  /** A time code in the lead-in. */
  predicate InLeadIn(address: S.Addr) {
    address.Msf? && A.Invalid(address.msf)
  }

  /** What `read_audio_into` checks before calling the device. */
  predicate AudioReadAccepted(address: S.Addr, frames: nat, samples: nat) {
    !InLeadIn(address) && 1 <= frames <= C.CD_FRAMES && samples >= AudioSamples(frames)
  }

  /** `read_audio_into`: the checks run in the order lead-in address,
      frame count, buffer size, and each failure panics before any device
      call. Otherwise the request carries the address with its own format
      tag beside it, the frame count and the buffer; after the call an
      ioctl error, or a non-zero status, becomes `Errno`. The buffer comes
      back holding whatever the drive transferred into it (`pcm`). */
  function ReadAudioInto(address: S.Addr, frames: nat, buf: seq<i16>, ret: IoResult, pcm: seq<i16>)
    : (r: BufferCall<i16>)
    ensures r.call.request.None? <==> !AudioReadAccepted(address, frames, |buf|)
    ensures r.call.request.None? ==> r.call.outcome.Panic? && r.buf == buf
    ensures InLeadIn(address) ==> r.call.outcome == Panic(LeadInAddress)
    ensures !InLeadIn(address) && !(1 <= frames <= C.CD_FRAMES) ==> r.call.outcome == Panic(FrameCount)
    ensures !InLeadIn(address) && 1 <= frames <= C.CD_FRAMES && |buf| < AudioSamples(frames)
            ==> r.call.outcome == Panic(BufferTooSmall)
    ensures r.call.request.Some? ==>
              && r.call.request.value.ReadAudioReq?
              && var ra := r.call.request.value.audio;
              && S.RequestedAddress(ra) == Some(address)
              && ra.nframes == frames
              && ra.bufBytes == 2 * |buf|
              && S.BufferHoldsFrames(ra)
    ensures r.call.request.Some? ==> r.buf == Overlay(buf, pcm)
    ensures r.call.request.Some? ==> (r.call.outcome.Ok? <==> ret == IoOk(0))
    ensures r.call.request.Some? && ret.IoErr? ==> r.call.outcome == Err(Errno(ret.errno))
    ensures r.call.request.Some? && ret.IoOk? && ret.value != 0
            ==> r.call.outcome == Err(Errno(Posix.FromRaw(ret.value)))
  {
    if InLeadIn(address) then BufferCall(Call(None, Panic(LeadInAddress)), buf)
    else if frames < 1 || frames > C.CD_FRAMES then BufferCall(Call(None, Panic(FrameCount)), buf)
    else if |buf| < AudioSamples(frames) then BufferCall(Call(None, Panic(BufferTooSmall)), buf)
    else
      S.AddrUnionRoundTrip(address);
      var ra := S.ReadAudio(S.EncodeAddrUnion(address), C.AddressTypeCode(S.AddrFormat(address)),
                            frames, 2 * |buf|);
      var outcome := match ret
                     case IoErr(e) => Err(Errno(e))
                     case IoOk(status) => if status != 0 then Err(Errno(Posix.FromRaw(status))) else Ok(());
      BufferCall(Call(Some(ReadAudioReq(ra)), outcome), Overlay(buf, pcm))
  }

  /** A fresh buffer of `n` zero samples. */
  function Zeros(n: nat): (z: seq<i16>)
    ensures |z| == n
    ensures forall i :: 0 <= i < n ==> z[i] == 0
  {
    seq(n, i => 0)
  }

  /** `read_audio`: `read_audio_into` on a fresh zeroed buffer of exactly
      the size the frame count needs, returning that buffer. Its own buffer
      always passes the size check, so it panics only on a lead-in address
      or a bad frame count. */
  function ReadAudio(address: S.Addr, frames: nat, ret: IoResult, pcm: seq<i16>): (r: Call<seq<i16>>)
    ensures r.outcome.Panic? <==> InLeadIn(address) || !(1 <= frames <= C.CD_FRAMES)
    ensures r.outcome != Panic(BufferTooSmall)
    ensures r.request.Some? <==> !r.outcome.Panic?
    ensures r.outcome.Ok? <==> r.request.Some? && ret == IoOk(0)
    ensures r.outcome.Ok? ==> |r.outcome.value| == AudioSamples(frames)
    ensures r.outcome.Ok? ==> forall i :: 0 <= i < |r.outcome.value| ==>
              r.outcome.value[i] == if i < |pcm| then pcm[i] else 0
  {
    var into := ReadAudioInto(address, frames, Zeros(AudioSamples(frames)), ret, pcm);
    Call(into.call.request,
         match into.call.outcome
         case Ok(_) => Ok(into.buf)
         case Err(e) => Err(e)
         case Panic(p) => Panic(p))
  }

  /** The time code a raw read seeks to: a logical address is converted
      with `from_lba` first. */
  function RawTarget(address: S.Addr): S.Msf0 {
    match address
    case Lba(l) => A.FromLba(l)
    case Msf(m) => m
  }

  /** `read_raw_into`, first revision: a lead-in address is
      `InvalidAddress` with no request; otherwise the request's seek range
      starts at the address and its end is zero. The buffer is not
      consulted at all: its pointer is overwritten by the seek range. */
  function ReadRawInto(address: S.Addr, buf: seq<u8>, ret: IoResult): (r: Call<()>)
    ensures r.request.None? <==> A.Invalid(RawTarget(address))
    ensures r.request.None? ==> r.outcome == Err(InvalidAddress)
    ensures r.request.Some? ==> r.request.value.ReadRawSeekReq?
                                && S.Start(r.request.value.seek) == RawTarget(address)
                                && S.End(r.request.value.seek) == S.Msf0(0, 0, 0)
    ensures r.request.Some? ==> (r.outcome.Panic? <==> ret.IoErr?) && !r.outcome.Err?
  {
    var m := RawTarget(address);
    if A.Invalid(m) then Call(None, Err(InvalidAddress))
    else
      Call(Some(ReadRawSeekReq(S.MsfLong(m.minute, m.second, m.frame, 0, 0, 0))),
           if ret.IoErr? then Panic(IoctlFailed) else Ok(()))
  }

  /** The first revision's raw read issues a request for any buffer, even
      an empty one: nothing checks that a raw frame fits. */
  lemma ReadRawIgnoresBuffer(address: S.Addr, buf: seq<u8>, other: seq<u8>, ret: IoResult)
    ensures ReadRawInto(address, buf, ret) == ReadRawInto(address, other, ret)
    ensures ReadRawInto(S.Msf(S.Msf0(0, 2, 0)), [], IoOk(0)).request.Some?
  {
  }

  /** A logical address at or after the lead-in, up to the largest `u8`
      minute, is rejected by the raw read exactly when it is negative. */
  lemma {:induction false} RawReadRejectsNegativeLba(l: i32, buf: seq<u8>, ret: IoResult)
    requires A.InMinuteRange(l)
    ensures ReadRawInto(S.Lba(l), buf, ret).outcome == Err(InvalidAddress) <==> l < 0
  {
    A.LeadInIffNegative(l);
  }

  /** The sizing examples: ten frames need 11760 samples, so 11759 panics
      before any request while 11760 is sent; 0 and 76 frames are refused
      and 75 frames are accepted. */
  lemma ReadAudioIntoExamples(address: S.Addr, buf: seq<i16>, ret: IoResult, pcm: seq<i16>)
    requires !InLeadIn(address)
    ensures AudioSamples(10) == 11760
    ensures |buf| == 11759 ==> ReadAudioInto(address, 10, buf, ret, pcm).call == Call(None, Panic(BufferTooSmall))
    ensures |buf| == 11760 ==> ReadAudioInto(address, 10, buf, ret, pcm).call.request.Some?
    ensures ReadAudioInto(address, 0, buf, ret, pcm).call == Call(None, Panic(FrameCount))
    ensures ReadAudioInto(address, 76, buf, ret, pcm).call == Call(None, Panic(FrameCount))
    ensures |buf| >= AudioSamples(75) ==> ReadAudioInto(address, 75, buf, ret, pcm).call.request.Some?
  {
  }
}
