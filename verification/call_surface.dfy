/** The call surface every controller offers (`CDRomTrait`), stated over
    the model: which calls answer with absence rather than an error, which
    cannot fail with an error at all, and the rule that the controller's
    own checks come before any device call. */
module CallSurface {
  import opened Primitives
  import C = Constants
  import S = Structures
  import opened Errors
  import opened Ioctl
  import Drive
  import LinuxDrive

  /** `status`, `disc_type` and `mcn` return an `Option`: an unknown code or
      a missing catalog number is absence, never an error. */
  lemma QueriesAnswerWithAbsence(ret: IoResult, reply: seq<u8>)
    requires |reply| == 14
    ensures !Drive.Status(ret).outcome.Err?
    ensures Drive.DiscType(ret).outcome.Ok?
    ensures Drive.Mcn(ret, reply).outcome.Ok?
    ensures ret.IoOk? && !(0 <= ret.value <= 4) ==> Drive.Status(ret).outcome == Ok(None)
    ensures ret.IoErr? ==> Drive.DiscType(ret).outcome == Ok(None) && Drive.Mcn(ret, reply).outcome == Ok(None)
  {
  }

  /** `toc_entry` returns a `TocEntry`, not a `Result`: it never yields an
      error, and `subchannel` in either revision never does either. */
  lemma EntryReadsHaveNoErrors(index: u8, t: C.AddressType, ret: IoResult, entry: S.RawTocEntry,
                               track: u8, sub: S.RawSubChannel)
    ensures !Drive.TocEntry(index, t, ret, entry).outcome.Err?
    ensures !Drive.Subchannel(track, ret, sub).outcome.Err?
    ensures !LinuxDrive.Subchannel(ret, sub).outcome.Err?
  {
  }

  /** The controller's own checks come before the device: a read that fails
      with `InvalidAddress` or `InvalidBufferSize`, or that panics on its
      arguments, issues no request. */
  lemma PreconditionsPrecedeDevice(address: S.Addr, frames: nat, samples: seq<i16>, bytes: seq<u8>,
                                   ret: IoResult, pcm: seq<i16>, sector: seq<u8>)
    ensures var r := Drive.ReadAudioInto(address, frames, samples, ret, pcm);
            r.call.request.None? <==> r.call.outcome.Panic? && r.call.outcome.reason != IoctlFailed
    ensures var r := Drive.ReadRawInto(address, bytes, ret);
            r.request.None? <==> r.outcome.Err? && IsPrecondition(r.outcome.error)
    ensures var r := LinuxDrive.ReadRawInto(address, bytes, ret, sector);
            r.call.request.None? <==> r.call.outcome.Err? && IsPrecondition(r.call.outcome.error)
  {
  }

  /** `read_audio_into` succeeds only with a buffer of at least
      `(n_frames * 2352) / 2` samples. */
  lemma ReadAudioIntoNeedsBuffer(address: S.Addr, frames: nat, buf: seq<i16>, ret: IoResult, pcm: seq<i16>)
    ensures Drive.ReadAudioInto(address, frames, buf, ret, pcm).call.outcome.Ok?
            ==> |buf| >= (frames * C.CD_FRAMESIZE_RAW) / 2
  {
  }

  /** `read_audio(a, n)` is `read_audio_into(a, n, buf)` on a fresh zeroed
      buffer of `(n * 2352) / 2` samples, returning that buffer. */
  lemma ReadAudioIsReadAudioInto(address: S.Addr, frames: nat, ret: IoResult, pcm: seq<i16>)
    ensures var buf := Drive.Zeros((frames * C.CD_FRAMESIZE_RAW) / 2);
            var into := Drive.ReadAudioInto(address, frames, buf, ret, pcm);
            var r := Drive.ReadAudio(address, frames, ret, pcm);
            && r.request == into.call.request
            && (r.outcome.Ok? <==> into.call.outcome.Ok?)
            && (r.outcome.Ok? ==> r.outcome.value == into.buf)
            && (into.call.outcome.Err? ==> r.outcome == Err(into.call.outcome.error))
            && (into.call.outcome.Panic? ==> r.outcome == Panic(into.call.outcome.reason))
  {
  }
}
