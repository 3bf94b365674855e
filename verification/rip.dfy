/** The ripping routine: second by second from 0:02, 75 frames at a
    time, into one reused buffer of one second of samples, stopping at the
    first read that fails. Writing the samples to a file and hashing them
    are left out; the output is the sequence of samples emitted. */
module Rip {
  import opened Primitives
  import C = Constants
  import S = Structures
  import A = Addressing
  import Drive
  import Ioctl
  import opened Errors

  /** Seconds the routine reads. */
  const RIP_SECONDS: nat := 4500

  /** Its sample buffer holds one second: 75 raw frames of 2352 bytes, as
      16-bit samples. */
  const RIP_BUFFER_SAMPLES: nat := 88200

  /** The time code of the `i`-th read: minute `(i+2)/60`, second
      `(i+2)%60`, frame 0, each cast `as u8`. */
  function RipAddress(i: nat): S.Addr {
    S.Msf(S.Msf0(WrapU8((i + 2) / 60), WrapU8((i + 2) % 60), 0))
  }

  /** Every read the routine makes passes `read_audio_into`'s checks, so it
      issues a request instead of panicking. */
  lemma {:induction false} RipReadsAreAccepted(i: nat, buf: seq<i16>, ret: Ioctl.IoResult, pcm: seq<i16>)
    requires i < RIP_SECONDS && |buf| == RIP_BUFFER_SAMPLES
    ensures RIP_BUFFER_SAMPLES == Drive.AudioSamples(C.CD_FRAMES)
    ensures Drive.AudioReadAccepted(RipAddress(i), C.CD_FRAMES, |buf|)
    ensures Drive.ReadAudioInto(RipAddress(i), C.CD_FRAMES, buf, ret, pcm).call.request.Some?
  {
    DivBelow(i + 2, 60, 0x100);
  }

  /** The `i`-th read starts at logical block `75 * i`: the reads cover the
      disc from block 0 on, one second after another, with no gap and no
      overlap. */
  lemma {:induction false} RipReadsTile(i: nat)
    requires i < RIP_SECONDS
    ensures A.ToLba(RipAddress(i).msf) == C.CD_FRAMES * i
  {
    DivBelow(i + 2, 60, 0x100);
    DivModUnique(i + 2, 60, (i + 2) / 60, (i + 2) % 60);
  }

  /** How far a run of successful reads reaches: the first index at or
      after `i` whose read does not return 0, or the end. */
  function Run(rets: seq<Ioctl.IoResult>, i: nat): (j: nat)
    requires i <= |rets|
    ensures i <= j <= |rets|
    ensures forall k :: i <= k < j ==> rets[k] == Ioctl.IoOk(0)
    ensures j < |rets| ==> rets[j] != Ioctl.IoOk(0)
    decreases |rets| - i
  {
    if i == |rets| || rets[i] != Ioctl.IoOk(0) then i else Run(rets, i + 1)
  }

  /** The ripping loop from second `i` on, with the sample buffer as the
      previous iteration left it. Each iteration reads one second into the
      buffer; on success the whole buffer goes to the output, on any error
      the loop stops. `rets[k]` and `pcms[k]` are what the device answers
      to the `k`-th read. */
  function RipFrom(i: nat, buf: seq<i16>, rets: seq<Ioctl.IoResult>, pcms: seq<seq<i16>>): (audio: seq<i16>)
    requires i <= RIP_SECONDS && |buf| == RIP_BUFFER_SAMPLES
    requires |rets| == RIP_SECONDS && |pcms| == RIP_SECONDS
    ensures |audio| == (Run(rets, i) - i) * RIP_BUFFER_SAMPLES
    decreases RIP_SECONDS - i
  {
    if i == RIP_SECONDS then []
    else
      RipReadsAreAccepted(i, buf, rets[i], pcms[i]);
      var r := Drive.ReadAudioInto(RipAddress(i), C.CD_FRAMES, buf, rets[i], pcms[i]);
      if r.call.outcome.Ok? then r.buf + RipFrom(i + 1, r.buf, rets, pcms) else []
  }

  /** `rip_cd`: the drive status and the disc type are queried and
      unwrapped before the loop, so a failed status call, a status outside
      0 to 4 or an unknown disc type panics before any read. Otherwise the
      loop runs from the first second on a zeroed buffer. */
  function RipCd(statusRet: Ioctl.IoResult, discRet: Ioctl.IoResult,
                 rets: seq<Ioctl.IoResult>, pcms: seq<seq<i16>>): (r: Outcome<seq<i16>>)
    requires |rets| == RIP_SECONDS && |pcms| == RIP_SECONDS
    ensures !r.Err?
    ensures statusRet.IoErr? ==> r == Panic(IoctlFailed)
    ensures r.Panic? <==> !(statusRet.IoOk? && 0 <= statusRet.value <= 4
                            && discRet.IoOk? && (discRet.value == 0 || 100 <= discRet.value <= 105))
    ensures r.Panic? && statusRet.IoOk? ==> r == Panic(NoAnswer)
    ensures r.Ok? ==> |r.value| == Run(rets, 0) * RIP_BUFFER_SAMPLES
    ensures r.Ok? ==> r.value == RipFrom(0, Drive.Zeros(RIP_BUFFER_SAMPLES), rets, pcms)
  {
    var status := Drive.Status(statusRet).outcome;
    var disc := Drive.DiscType(discRet).outcome;
    if status.Panic? then Panic(status.reason)
    else if !(status.Ok? && status.value.Some?) then Panic(NoAnswer)
    else if disc.value.None? then Panic(NoAnswer)
    else Ok(RipFrom(0, Drive.Zeros(RIP_BUFFER_SAMPLES), rets, pcms))
  }

  /** One successful iteration: the buffer takes the drive's samples and
      is emitted before the rest of the loop. */
  lemma RipStep(i: nat, buf: seq<i16>, rets: seq<Ioctl.IoResult>, pcms: seq<seq<i16>>)
    requires i < RIP_SECONDS && |buf| == RIP_BUFFER_SAMPLES
    requires |rets| == RIP_SECONDS && |pcms| == RIP_SECONDS && rets[i] == Ioctl.IoOk(0)
    ensures var next := Ioctl.Overlay(buf, pcms[i]);
            RipFrom(i, buf, rets, pcms) == next + RipFrom(i + 1, next, rets, pcms)
  {
    RipReadsAreAccepted(i, buf, rets[i], pcms[i]);
  }

  /** The `k`-th second of the output holds what the drive delivered for
      the `k`-th read, at the same offset: sample `j` of read `i + k` is
      sample `k * 88200 + j` of the output. */
  lemma {:induction false} RipDelivers(i: nat, buf: seq<i16>, rets: seq<Ioctl.IoResult>, pcms: seq<seq<i16>>,
                                       k: nat, j: nat)
    requires i <= RIP_SECONDS && |buf| == RIP_BUFFER_SAMPLES
    requires |rets| == RIP_SECONDS && |pcms| == RIP_SECONDS
    requires i + k < Run(rets, i) && j < RIP_BUFFER_SAMPLES && j < |pcms[i + k]|
    ensures k * RIP_BUFFER_SAMPLES + j < |RipFrom(i, buf, rets, pcms)|
    ensures RipFrom(i, buf, rets, pcms)[k * RIP_BUFFER_SAMPLES + j] == pcms[i + k][j]
    decreases k
  {
    MulMonotone(RIP_BUFFER_SAMPLES, k + 1, Run(rets, i) - i);
    RipStep(i, buf, rets, pcms);
    var next := Ioctl.Overlay(buf, pcms[i]);
    if k > 0 {
      RipDelivers(i + 1, next, rets, pcms, k - 1, j);
      var rest := RipFrom(i + 1, next, rets, pcms);
      var pos := (k - 1) * RIP_BUFFER_SAMPLES + j;
      assert k * RIP_BUFFER_SAMPLES + j == |next| + pos;
      assert (next + rest)[|next| + pos] == rest[pos];
    }
  }
}
