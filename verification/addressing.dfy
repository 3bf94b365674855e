/** Conversion between logical block addresses and time codes, and the
    lead-in test. The controller calls `Msf::from_lba`, `Msf::to_lba` and
    `Msf::invalid`, whose bodies are absent from the crate's
    `src/structures.rs`. They are defined here from `CD_SECS`, `CD_FRAMES`
    and `CD_MSF_OFFSET` (60 seconds a minute, 75 frames a second, a
    150-frame offset), written with Rust's truncating
    `/` and `%` and the `as u8` cast so that they are total on `i32`. */
module Addressing {
  import opened Primitives
  import C = Constants
  import opened Structures

  /** Frames in one minute of disc time. */
  const FRAMES_PER_MINUTE: int := C.CD_SECS * C.CD_FRAMES

  /** Logical blocks whose time code still fits a `u8` minute. */
  predicate InMinuteRange(l: int) {
    -C.CD_MSF_OFFSET <= l < 0x100 * FRAMES_PER_MINUTE - C.CD_MSF_OFFSET
  }

  /** `Msf::invalid`: the time code falls in the two-second lead-in. */
  predicate Invalid(m: Msf0) {
    m.minute == 0 && m.second < 2
  }

  /** `Msf::to_lba`: frames since the start of the disc, less the lead-in. */
  function ToLba(m: Msf0): (l: i32)
    ensures -C.CD_MSF_OFFSET <= l <= 1166730
    ensures m.frame < C.CD_FRAMES ==> (Invalid(m) <==> l < 0)
  {
    ((m.minute * C.CD_SECS + m.second) * C.CD_FRAMES + m.frame) - C.CD_MSF_OFFSET
  }

  /** `Msf::from_lba`: the time code of a logical block. */
  function FromLba(l: i32): (m: Msf0)
    ensures -C.CD_MSF_OFFSET <= l ==> m.second < C.CD_SECS && m.frame < C.CD_FRAMES
  {
    var n := l + C.CD_MSF_OFFSET;
    Msf0(WrapU8(TruncDiv(n, FRAMES_PER_MINUTE)),
         WrapU8(TruncRem(TruncDiv(n, C.CD_FRAMES), C.CD_SECS)),
         WrapU8(TruncRem(n, C.CD_FRAMES)))
  }

  /** The components of `FromLba` for a block at or after the lead-in. */
  lemma {:induction false} FromLbaParts(l: i32)
    requires InMinuteRange(l)
    ensures var n := l + C.CD_MSF_OFFSET;
            FromLba(l) == Msf0(n / FRAMES_PER_MINUTE, (n / C.CD_FRAMES) % C.CD_SECS, n % C.CD_FRAMES)
            && n / FRAMES_PER_MINUTE == (n / C.CD_FRAMES) / C.CD_SECS
  {
    var n := l + C.CD_MSF_OFFSET;
    var q := n / C.CD_FRAMES;
    var f := n % C.CD_FRAMES;
    var s := q % C.CD_SECS;
    DivModUnique(n, C.CD_FRAMES, q, f);
    DivModUnique(q, C.CD_SECS, q / C.CD_SECS, s);
    DivModUnique(n, FRAMES_PER_MINUTE, q / C.CD_SECS, C.CD_FRAMES * s + f);
    DivBelow(n, FRAMES_PER_MINUTE, 0x100);
  }

  /** Every logical block from the lead-in up to the largest `u8` minute
      survives the trip through a time code. */
  lemma {:induction false} LbaRoundTrip(l: i32)
    requires InMinuteRange(l)
    ensures ToLba(FromLba(l)) == l
  {
    FromLbaParts(l);
    var n := l + C.CD_MSF_OFFSET;
    DivModUnique(n, C.CD_FRAMES, n / C.CD_FRAMES, n % C.CD_FRAMES);
    DivModUnique(n / C.CD_FRAMES, C.CD_SECS, n / FRAMES_PER_MINUTE, (n / C.CD_FRAMES) % C.CD_SECS);
  }

  /** The time code of a logical block is in the lead-in exactly when the
      block is negative. */
  lemma {:induction false} LeadInIffNegative(l: i32)
    requires InMinuteRange(l)
    ensures Invalid(FromLba(l)) <==> l < 0
  {
    LbaRoundTrip(l);
  }

  /** A well-formed time code (second below 60, frame below 75) survives
      the trip through a logical block. */
  lemma {:induction false} MsfRoundTrip(m: Msf0)
    requires m.second < C.CD_SECS && m.frame < C.CD_FRAMES
    ensures FromLba(ToLba(m)) == m
  {
    var n := ToLba(m) + C.CD_MSF_OFFSET;
    var secs := m.minute * C.CD_SECS + m.second;
    DivModUnique(n, C.CD_FRAMES, secs, m.frame);
    DivModUnique(secs, C.CD_SECS, m.minute, m.second);
    DivModUnique(n, FRAMES_PER_MINUTE, m.minute, C.CD_FRAMES * m.second + m.frame);
  }

  /** The trip from time code to block and back is not exact for time
      codes that are not well formed: 0:60.00 comes back as 1:00.00. */
  lemma {:induction false} MsfRoundTripNotExact()
    ensures ToLba(Msf0(0, 60, 0)) == ToLba(Msf0(1, 0, 0))
    ensures FromLba(ToLba(Msf0(0, 60, 0))) == Msf0(1, 0, 0)
  {
    MsfRoundTrip(Msf0(1, 0, 0));
  }
}
