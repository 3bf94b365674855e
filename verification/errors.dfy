/** The crate's error taxonomy, and what a controller call can come to:
    a value, a typed error, or a panic. */
module Errors {
  import Posix

  /** `CDRomError`. The `Errno` variant wraps an operating-system error
      number and exists on Linux only. */
  datatype CDRomError =
    | Errno(errno: Posix.Errno)
    | NoDisc
    | NotAudioCD
    | DoorLocked
    | Unsupported
    | Busy
    | InvalidAddress
    | InvalidBufferSize(needed: nat, got: nat)

  /** The errors the controller raises from its own checks, before any
      device call; every other error is decoded from a device answer. */
  predicate IsPrecondition(e: CDRomError) {
    e.InvalidAddress? || e.InvalidBufferSize?
  }

  /** Why a controller call panicked instead of returning. */
  datatype PanicReason =
    | LeadInAddress    // read_audio_into given a time code in the lead-in
    | FrameCount       // read_audio_into given fewer than 1 or more than 75 frames
    | BufferTooSmall   // read_audio_into given too small a sample buffer
    | UnknownFormat    // the kernel returned an address format other than 1 or 2
    | IoctlFailed      // `unwrap()` on an ioctl that returned an error
    | NoAnswer         // `unwrap()` on a query that answered `None`

  /** A controller call's result: `Ok`/`Err` as the Rust `Result` the call
      returns, or a panic. */
  datatype Outcome<+T> = Ok(value: T) | Err(error: CDRomError) | Panic(reason: PanicReason)
}
