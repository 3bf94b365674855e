/** The operating-system error numbers the drive controller tests for.
    The values are the Linux (asm-generic) ones; nothing in the model
    depends on them beyond their being pairwise distinct and positive. */
module Posix {

  /** `nix::errno::Errno`: an error number as the kernel reports it. */
  newtype Errno = int

  const EIO: Errno := 5
  const EBUSY: Errno := 16
  const ENOSYS: Errno := 38
  const EOPNOTSUPP: Errno := 95
  const ENOMEDIUM: Errno := 123

  /** `Errno::from_raw`: a raw status number read as an error number. */
  function FromRaw(status: int): (e: Errno)
    ensures e as int == status
  {
    status as Errno
  }
}
