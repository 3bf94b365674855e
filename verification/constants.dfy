/** The operation registry and the numeric vocabulary of the Linux CD-ROM
    ioctl family: opcodes and the control codes built from them, the
    decoders for the drive-status, disc-type and address-format numbers,
    the frame geometry, and the capability bits. */
module Constants {
  import opened Primitives
  import Posix

  /** A drive reporting "cannot do this" answers with `EOPNOTSUPP`. */
  const EDRIVE_CANT_DO_THIS: int := Posix.EOPNOTSUPP as int

  /** The ioctl type byte of every CD-ROM control code. */
  const IOC_BYTE: u8 := 0x53

  /** The symbolic drive operations, each declared with a one-byte opcode. */
  datatype Operation =
    | Pause
    | Resume
    | PlayMsf
    | PlayTrackIndex
    | ReadTocHeader
    | ReadTocEntry
    | Stop
    | Start
    | Eject
    | VolumeControl
    | SubChannel
    | ReadMode2
    | ReadMode1
    | ReadAudio
    | EjectSoftware
    | MultiSession
    | GetMcn
    | Reset
    | VolumeRead
    | ReadRaw
    | ReadCooked
    | Seek
    | PlayBlock
    | ReadAll
    | GetSpindown
    | SetSpindown
    | CloseTray
    | SetOptions
    | ClearOptions
    | SelectSpeed
    | SelectDisk
    | MediaChanged
    | DriveStatus
    | DiscStatus
    | ChangerNslots
    | LockDoor
    | Debug
    | GetCapability
    | AudioBufferSize
    | DvdReadStructure
    | DvdWriteStructure
    | DvdAuthenticate
    | SendPacket
    | NextWritable
    | LastWritten
    | TimedMediaChange

  /** The one-byte opcode each operation is declared with. */
  function Opcode(op: Operation): u8 {
    match op
    case Pause => 0x01
    case Resume => 0x02
    case PlayMsf => 0x03
    case PlayTrackIndex => 0x04
    case ReadTocHeader => 0x05
    case ReadTocEntry => 0x06
    case Stop => 0x07
    case Start => 0x08
    case Eject => 0x09
    case VolumeControl => 0x0a
    case SubChannel => 0x0b
    case ReadMode2 => 0x0c
    case ReadMode1 => 0x0d
    case ReadAudio => 0x0e
    case EjectSoftware => 0x0f
    case MultiSession => 0x10
    case GetMcn => 0x11
    case Reset => 0x12
    case VolumeRead => 0x13
    case ReadRaw => 0x14
    case ReadCooked => 0x15
    case Seek => 0x16
    case PlayBlock => 0x17
    case ReadAll => 0x18
    case GetSpindown => 0x1d
    case SetSpindown => 0x1e
    case CloseTray => 0x19
    case SetOptions => 0x20
    case ClearOptions => 0x21
    case SelectSpeed => 0x22
    case SelectDisk => 0x23
    case MediaChanged => 0x25
    case DriveStatus => 0x26
    case DiscStatus => 0x27
    case ChangerNslots => 0x28
    case LockDoor => 0x29
    case Debug => 0x30
    case GetCapability => 0x31
    case AudioBufferSize => 0x82
    case DvdReadStructure => 0x90
    case DvdWriteStructure => 0x91
    case DvdAuthenticate => 0x92
    case SendPacket => 0x93
    case NextWritable => 0x94
    case LastWritten => 0x95
    case TimedMediaChange => 0x96
  }

  /** `Operation::from_u8`: the operation declared with opcode `b`, if any. */
  function OperationFromOpcode(b: int): Option<Operation>
  {
    match b
    case 0x01 => Some(Pause)
    case 0x02 => Some(Resume)
    case 0x03 => Some(PlayMsf)
    case 0x04 => Some(PlayTrackIndex)
    case 0x05 => Some(ReadTocHeader)
    case 0x06 => Some(ReadTocEntry)
    case 0x07 => Some(Stop)
    case 0x08 => Some(Start)
    case 0x09 => Some(Eject)
    case 0x0a => Some(VolumeControl)
    case 0x0b => Some(SubChannel)
    case 0x0c => Some(ReadMode2)
    case 0x0d => Some(ReadMode1)
    case 0x0e => Some(ReadAudio)
    case 0x0f => Some(EjectSoftware)
    case 0x10 => Some(Operation.MultiSession)
    case 0x11 => Some(GetMcn)
    case 0x12 => Some(Operation.Reset)
    case 0x13 => Some(VolumeRead)
    case 0x14 => Some(ReadRaw)
    case 0x15 => Some(ReadCooked)
    case 0x16 => Some(Seek)
    case 0x17 => Some(PlayBlock)
    case 0x18 => Some(ReadAll)
    case 0x19 => Some(Operation.CloseTray)
    case 0x1d => Some(GetSpindown)
    case 0x1e => Some(SetSpindown)
    case 0x20 => Some(SetOptions)
    case 0x21 => Some(ClearOptions)
    case 0x22 => Some(Operation.SelectSpeed)
    case 0x23 => Some(SelectDisk)
    case 0x25 => Some(Operation.MediaChanged)
    case 0x26 => Some(Operation.DriveStatus)
    case 0x27 => Some(DiscStatus)
    case 0x28 => Some(ChangerNslots)
    case 0x29 => Some(LockDoor)
    case 0x30 => Some(Debug)
    case 0x31 => Some(GetCapability)
    case 0x82 => Some(AudioBufferSize)
    case 0x90 => Some(DvdReadStructure)
    case 0x91 => Some(DvdWriteStructure)
    case 0x92 => Some(DvdAuthenticate)
    case 0x93 => Some(SendPacket)
    case 0x94 => Some(NextWritable)
    case 0x95 => Some(LastWritten)
    case 0x96 => Some(TimedMediaChange)
    case _ => None
  }

  /** Decoding an operation's own opcode gives the operation back. */
  lemma OpcodeRoundTrip(op: Operation)
    ensures OperationFromOpcode(Opcode(op)) == Some(op)
  {
  }

  /** The full control code of an operation: the type byte shifted into
      the high byte, plus the opcode. */
  function OpToIoctl(op: Operation): (code: int)
    ensures code / 0x100 == IOC_BYTE as int
    ensures code % 0x100 == Opcode(op) as int
  {
    (IOC_BYTE as int) * 0x100 + Opcode(op) as int
  }

  /** Every control code is a CD-ROM code between `0x5301` and `0x5396`,
      and the example codes come out as the kernel defines them. */
  lemma ControlCodeRange(op: Operation)
    ensures 0x5301 <= OpToIoctl(op) <= 0x5396
    ensures op == Eject ==> OpToIoctl(op) == 0x5309
    ensures op == LockDoor ==> OpToIoctl(op) == 0x5329
  {
  }

  /** The control code is a function of the opcode alone. */
  function IoctlToOp(code: int): Option<Operation>
  {
    if code / 0x100 == IOC_BYTE as int then OperationFromOpcode(code % 0x100) else None
  }

  lemma {:induction false} IoctlRoundTrip(op: Operation)
    ensures IoctlToOp(OpToIoctl(op)) == Some(op)
  {
    OpcodeRoundTrip(op);
  }

  /** Distinct operations never alias onto the same control code. */
  lemma {:induction false} OpToIoctlInjective(a: Operation, b: Operation)
    ensures OpToIoctl(a) == OpToIoctl(b) ==> a == b
  {
    IoctlRoundTrip(a);
    IoctlRoundTrip(b);
  }

  /** Answers to the drive-status request. */
  datatype Status = NoInfo | NoDisc | TrayOpen | DriveNotReady | DiscOK

  function StatusCode(s: Status): int {
    match s
    case NoInfo => 0
    case NoDisc => 1
    case TrayOpen => 2
    case DriveNotReady => 3
    case DiscOK => 4
  }

  /** `Status::from_i32`. */
  function DecodeStatus(v: int): (r: Option<Status>)
    ensures r.Some? <==> 0 <= v <= 4
    ensures r.Some? ==> StatusCode(r.value) == v
  {
    match v
    case 0 => Some(Status.NoInfo)
    case 1 => Some(Status.NoDisc)
    case 2 => Some(TrayOpen)
    case 3 => Some(DriveNotReady)
    case 4 => Some(DiscOK)
    case _ => None
  }

  lemma StatusRoundTrip(s: Status)
    ensures DecodeStatus(StatusCode(s)) == Some(s)
  {
  }

  /** Answers to the disc-status request. */
  datatype DiscType = NoInfo | Audio | Data1 | Data2 | XA21 | XA22 | Mixed

  function DiscTypeCode(t: DiscType): int {
    match t
    case NoInfo => 0
    case Audio => 100
    case Data1 => 101
    case Data2 => 102
    case XA21 => 103
    case XA22 => 104
    case Mixed => 105
  }

  /** `DiscType::from_i32`. */
  function DecodeDiscType(v: int): (r: Option<DiscType>)
    ensures r.Some? <==> v == 0 || 100 <= v <= 105
    ensures r.Some? ==> DiscTypeCode(r.value) == v
  {
    match v
    case 0 => Some(DiscType.NoInfo)
    case 100 => Some(Audio)
    case 101 => Some(Data1)
    case 102 => Some(Data2)
    case 103 => Some(XA21)
    case 104 => Some(XA22)
    case 105 => Some(Mixed)
    case _ => None
  }

  lemma DiscTypeRoundTrip(t: DiscType)
    ensures DecodeDiscType(DiscTypeCode(t)) == Some(t)
  {
  }

  /** The address-format discriminant: `CDROM_LBA` or `CDROM_MSF`. */
  datatype AddressType = Lba | Msf

  function AddressTypeCode(t: AddressType): u8 {
    match t
    case Lba => 0x01
    case Msf => 0x02
  }

  /** `AddressType::from_u8`. */
  function DecodeAddressType(v: int): (r: Option<AddressType>)
    ensures r == Some(Lba) <==> v == 1
    ensures r == Some(Msf) <==> v == 2
    ensures r.None? <==> v != 1 && v != 2
  {
    match v
    case 0x01 => Some(Lba)
    case 0x02 => Some(Msf)
    case _ => None
  }

  lemma AddressTypeRoundTrip(t: AddressType)
    ensures DecodeAddressType(AddressTypeCode(t) as int) == Some(t)
  {
  }

  /** Audio states a sub-channel reply may report. */
  datatype AudioState = Invalid | Play | Paused | Completed | Error | NoStatus

  function AudioStateCode(a: AudioState): u8 {
    match a
    case Invalid => 0x00
    case Play => 0x11
    case Paused => 0x12
    case Completed => 0x13
    case Error => 0x14
    case NoStatus => 0x15
  }

  /** `AudioStates::from_u8`. */
  function DecodeAudioState(v: int): (r: Option<AudioState>)
    ensures r.Some? <==> v == 0 || 0x11 <= v <= 0x15
    ensures r.Some? ==> AudioStateCode(r.value) as int == v
  {
    match v
    case 0x00 => Some(Invalid)
    case 0x11 => Some(Play)
    case 0x12 => Some(Paused)
    case 0x13 => Some(Completed)
    case 0x14 => Some(Error)
    case 0x15 => Some(NoStatus)
    case _ => None
  }

  lemma AudioStateRoundTrip(a: AudioState)
    ensures DecodeAudioState(AudioStateCode(a) as int) == Some(a)
  {
  }

  // Frame geometry of a compact disc.
  const CD_MINS: int := 74
  const CD_SECS: int := 60
  const CD_FRAMES: int := 75
  const CD_SYNC_SIZE: int := 12
  const CD_MSF_OFFSET: int := 150
  const CD_CHUNK_SIZE: int := 24
  const CD_NUM_OF_CHUNKS: int := 98
  const CD_FRAMESIZE_SUB: int := 96
  const CD_HEAD_SIZE: int := 4
  const CD_SUBHEAD_SIZE: int := 8
  const CD_EDC_SIZE: int := 4
  const CD_ZERO_SIZE: int := 8
  const CD_ECC_SIZE: int := 276
  const CD_FRAMESIZE: int := 2048
  const CD_FRAMESIZE_RAW: int := 2352
  const CD_FRAMESIZE_RAWER: int := 2646
  const CD_FRAMESIZE_RAW1: int := CD_FRAMESIZE_RAW - CD_SYNC_SIZE
  const CD_FRAMESIZE_RAW0: int := CD_FRAMESIZE_RAW - CD_SYNC_SIZE - CD_HEAD_SIZE
  const CD_XA_HEAD: int := CD_HEAD_SIZE + CD_SUBHEAD_SIZE
  const CD_XA_TAIL: int := CD_EDC_SIZE + CD_ECC_SIZE
  const CD_XA_SYNC_HEAD: int := CD_SYNC_SIZE + CD_XA_HEAD

  /** The derived sizes, and the two ways a raw frame is made up: sync,
      header, 2048 data bytes, EDC, zero fill and ECC for mode 1; sync,
      XA header, 2048 data bytes and XA tail for XA form 1. */
  lemma FrameGeometry()
    ensures CD_FRAMESIZE_RAW1 == 2340 && CD_FRAMESIZE_RAW0 == 2336
    ensures CD_XA_HEAD == 12 && CD_XA_TAIL == 280 && CD_XA_SYNC_HEAD == 24
    ensures CD_FRAMESIZE_RAW == CD_SYNC_SIZE + CD_HEAD_SIZE + CD_FRAMESIZE + CD_EDC_SIZE + CD_ZERO_SIZE + CD_ECC_SIZE
    ensures CD_FRAMESIZE_RAW == CD_XA_SYNC_HEAD + CD_FRAMESIZE + CD_XA_TAIL
    ensures CD_FRAMESIZE_RAW0 == CD_FRAMESIZE_RAW1 - CD_HEAD_SIZE
  {
  }

  /** Drive capability flags. */
  datatype Capability =
    | CloseTray
    | OpenTray
    | Lock
    | SelectSpeed
    | SelectDisc
    | MultiSession
    | Mcn
    | MediaChanged
    | PlayAudio
    | Reset
    | DriveStatus
    | GenericPacket
    | CdR
    | CdRW
    | Dvd
    | DvdR
    | DvdRam
    | MODrive
    | Mrw
    | MrwW
    | Ram

  /** Two to the power `k`. */
  function Pow2(k: nat): nat
  {
    if k == 0 then 1 else 2 * Pow2(k - 1)
  }

  /** The bit position of each capability flag. */
  function CapabilityShift(c: Capability): nat {
    match c
    case CloseTray => 0
    case OpenTray => 1
    case Lock => 2
    case SelectSpeed => 3
    case SelectDisc => 4
    case MultiSession => 5
    case Mcn => 6
    case MediaChanged => 7
    case PlayAudio => 8
    case Reset => 9
    case DriveStatus => 11
    case GenericPacket => 12
    case CdR => 13
    case CdRW => 14
    case Dvd => 15
    case DvdR => 16
    case DvdRam => 17
    case MODrive => 18
    case Mrw => 19
    case MrwW => 24
    case Ram => 25
  }

  ghost predicate IsPowerOfTwo(n: int) {
    exists k: nat :: Pow2(k) == n
  }

  /** The declared value of each capability flag. */
  function CapabilityValue(c: Capability): int
  {
    match c
    case CloseTray => 0x1
    case OpenTray => 0x2
    case Lock => 0x4
    case SelectSpeed => 0x8
    case SelectDisc => 0x10
    case MultiSession => 0x20
    case Mcn => 0x40
    case MediaChanged => 0x80
    case PlayAudio => 0x100
    case Reset => 0x200
    case DriveStatus => 0x800
    case GenericPacket => 0x1000
    case CdR => 0x2000
    case CdRW => 0x4000
    case Dvd => 0x8000
    case DvdR => 0x10000
    case DvdRam => 0x20000
    case MODrive => 0x40000
    case Mrw => 0x80000
    case MrwW => 0x1000000
    case Ram => 0x2000000
  }

  /** The capability declared with value `v`, if any. */
  function CapabilityFromValue(v: int): (r: Option<Capability>)
    ensures r.Some? ==> CapabilityValue(r.value) == v
  {
    match v
    case 0x1 => Some(Capability.CloseTray)
    case 0x2 => Some(Capability.OpenTray)
    case 0x4 => Some(Capability.Lock)
    case 0x8 => Some(Capability.SelectSpeed)
    case 0x10 => Some(Capability.SelectDisc)
    case 0x20 => Some(Capability.MultiSession)
    case 0x40 => Some(Capability.Mcn)
    case 0x80 => Some(Capability.MediaChanged)
    case 0x100 => Some(Capability.PlayAudio)
    case 0x200 => Some(Capability.Reset)
    case 0x800 => Some(Capability.DriveStatus)
    case 0x1000 => Some(Capability.GenericPacket)
    case 0x2000 => Some(Capability.CdR)
    case 0x4000 => Some(Capability.CdRW)
    case 0x8000 => Some(Capability.Dvd)
    case 0x10000 => Some(Capability.DvdR)
    case 0x20000 => Some(Capability.DvdRam)
    case 0x40000 => Some(Capability.MODrive)
    case 0x80000 => Some(Capability.Mrw)
    case 0x1000000 => Some(Capability.MrwW)
    case 0x2000000 => Some(Capability.Ram)
    case _ => None
  }

  /** The powers of two up to the highest capability bit. */
  lemma Pow2Table()
    ensures Pow2(0) == 0x1 && Pow2(1) == 0x2 && Pow2(2) == 0x4 && Pow2(3) == 0x8
    ensures Pow2(4) == 0x10 && Pow2(5) == 0x20 && Pow2(6) == 0x40 && Pow2(7) == 0x80
    ensures Pow2(8) == 0x100 && Pow2(9) == 0x200 && Pow2(11) == 0x800
    ensures Pow2(12) == 0x1000 && Pow2(13) == 0x2000 && Pow2(14) == 0x4000
    ensures Pow2(15) == 0x8000 && Pow2(16) == 0x10000 && Pow2(17) == 0x20000
    ensures Pow2(18) == 0x40000 && Pow2(19) == 0x80000
    ensures Pow2(24) == 0x1000000 && Pow2(25) == 0x2000000
  {
    assert Pow2(1) == 0x2;
    assert Pow2(2) == 0x4;
    assert Pow2(3) == 0x8;
    assert Pow2(4) == 0x10;
    assert Pow2(5) == 0x20;
    assert Pow2(6) == 0x40;
    assert Pow2(7) == 0x80;
    assert Pow2(8) == 0x100;
    assert Pow2(9) == 0x200;
    assert Pow2(10) == 0x400;
    assert Pow2(11) == 0x800;
    assert Pow2(12) == 0x1000;
    assert Pow2(13) == 0x2000;
    assert Pow2(14) == 0x4000;
    assert Pow2(15) == 0x8000;
    assert Pow2(16) == 0x10000;
    assert Pow2(17) == 0x20000;
    assert Pow2(18) == 0x40000;
    assert Pow2(19) == 0x80000;
    assert Pow2(20) == 0x100000;
    assert Pow2(21) == 0x200000;
    assert Pow2(22) == 0x400000;
    assert Pow2(23) == 0x800000;
    assert Pow2(24) == 0x1000000;
    assert Pow2(25) == 0x2000000;
  }

  /** Each flag is a single bit: its value is a power of two, namely
      `2^shift` for its declared bit position. */
  lemma CapabilityIsSingleBit(c: Capability)
    ensures CapabilityValue(c) == Pow2(CapabilityShift(c))
    ensures IsPowerOfTwo(CapabilityValue(c))
  {
    Pow2Table();
  }

  /** No two capabilities share a value. */
  lemma {:induction false} CapabilityValuesDistinct(a: Capability, b: Capability)
    ensures a != b ==> CapabilityValue(a) != CapabilityValue(b)
  {
    assert CapabilityFromValue(CapabilityValue(a)) == Some(a);
    assert CapabilityFromValue(CapabilityValue(b)) == Some(b);
  }
}
