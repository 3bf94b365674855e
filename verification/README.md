# sunny_milk CD-ROM adapter, modelled in Dafny

The crate drives an audio CD through the Linux CD-ROM `ioctl` interface.
It names every CD-ROM operation and its control code. It lays out the
records the kernel reads and writes: time codes, the untagged address
union, the audio-read request and the raw-read union. It turns each
kernel reply into a typed answer or an error from one taxonomy
(`CDRomError`).

This model covers the protocol adapter: constants and codes, record
layouts, address conversion, the two controller revisions (`CDRom` in
`src/main.rs` and the revised one in `src/platform/linux.rs`), and the
ripping loop. No device exists in the model.
Each call to the device becomes an input `IoResult`, which is either
`IoOk(n)` or `IoErr(errno)`. Whatever the kernel writes back is a second
input, such as the reply record, the PCM samples or the raw sector. A
controller method is a pure function of its arguments and these inputs.
It yields a `Call`: the request it would send to the device (`None` when
a check refuses the call first) and its `Outcome`, which is `Ok`, `Err`
with a `CDRomError`, or `Panic` for the places where the Rust code
unwraps or panics. Methods that fill a caller's buffer return a
`BufferCall`, which also holds the buffer's contents afterwards.

Files and modules:

- `primitives.dfy` (`Primitives`): Rust integer widths, `Option`,
  truncating `/` and `%`, the `as u8` cast, and a little-endian C `int`.
- `posix.dfy` (`Posix`): the Linux errno values the adapter tests.
- `constants.dfy` (`Constants`): operations and control codes, and the
  status, disc-type, address-type, audio-state and capability codes.
  Also the frame geometry.
- `structures.dfy` (`Structures`): byte layouts of the kernel records, and
  decoding of table-of-contents and sub-channel replies.
- `addressing.dfy` (`Addressing`): logical block number to time code and
  back, and the lead-in test.
- `errors.dfy` (`Errors`): `CDRomError`, the panic reasons, `Outcome`.
- `ioctl.dfy` (`Ioctl`): the requests a controller sends, their control
  codes, and the overlay of kernel-written data on a buffer.
- `drive.dfy` (`Drive`): the controller of `src/main.rs`. The Linux
  revision repeats its status, disc type, MCN, table-of-contents, eject,
  close and audio-read methods line for line.
- `linux_drive.dfy` (`LinuxDrive`): the members the Linux revision changes:
  `set_lock`, `subchannel` and `read_raw_into`.
- `call_surface.dfy` (`CallSurface`): the promises of the `CDRomTrait`
  surface in `src/lib.rs`, stated over the controllers.
- `rip.dfy` (`Rip`): the ripping loop of `rip_cd`: its addresses, its buffer and the samples it emits.

## Model

| member | source | states |
|---|---|---|
| Constants.OpToIoctl | src/constants.rs:141-146 | a control code's high byte is the CD-ROM type byte 0x53 and its low byte is the operation's opcode |
| Constants.OpcodeRoundTrip | src/constants.rs:11-139 | reading an operation's opcode back as an operation gives the same operation |
| Constants.IoctlRoundTrip | src/constants.rs:141-146 | decoding an operation's control code gives the operation back |
| Constants.OpToIoctlInjective | src/constants.rs:14-146 | two distinct operations never share a control code |
| Constants.ControlCodeRange | src/constants.rs:14-146 | every control code lies between 0x5301 and 0x5396; Eject is 0x5309 and LockDoor is 0x5329 |
| Constants.DecodeStatus | src/constants.rs:148-157 | a drive status is recognised exactly for the values 0 to 4, and the status found carries that value as its code |
| Constants.StatusRoundTrip | src/constants.rs:148-157 | every status decodes from its own code |
| Constants.DecodeDiscType | src/constants.rs:159-170 | a disc type is recognised exactly for 0 and for 100 to 105, and it carries the value as its code |
| Constants.DiscTypeRoundTrip | src/constants.rs:159-170 | every disc type decodes from its own code |
| Constants.DecodeAddressType | src/constants.rs:195-201 | 1 is the logical format, 2 the time-code format, and every other value is no format |
| Constants.AddressTypeRoundTrip | src/constants.rs:195-201 | every address format decodes from its own code |
| Constants.DecodeAudioState | src/constants.rs:203-212 | an audio state is recognised exactly for 0 and for 0x11 to 0x15, and it carries the value as its code |
| Constants.AudioStateRoundTrip | src/constants.rs:203-212 | every audio state decodes from its own code |
| Constants.FrameGeometry | src/constants.rs:172-193 | the derived sizes are 2340, 2336, 12, 280 and 24 bytes; sync, header, 2048 data bytes, EDC, zero fill and ECC add up to one 2352-byte raw frame, and so do the XA sync head, 2048 data bytes and the XA tail |
| Constants.CapabilityIsSingleBit | src/constants.rs:214-236 | every capability value is a single bit, namely two to the power of its bit position |
| Constants.CapabilityValuesDistinct | src/constants.rs:214-236 | distinct capabilities have distinct values, so they can be combined in one mask |
| Structures.Msf0RoundTrip | src/structures.rs:3-10 | a time code is three bytes in the order minute, second, frame; every three-byte string is a time code, and it survives the trip both ways |
| Structures.MsfLongLayout | src/structures.rs:20-36 | a time range is six bytes: the start time code, then the end time code; it survives the trip both ways |
| Structures.EncodeAddrUnion | src/structures.rs:12-18 | the union's bytes hold the address in the view of its own variant: a little-endian C `int` over four bytes, or a time code over the first three |
| Structures.DecodeAddrUnion | src/structures.rs:12-18 | the union's bytes mean an address exactly when the separate format is 1 or 2; the address then has that format and the bytes are its view |
| Structures.AddrUnionRoundTrip | src/structures.rs:12-18 | an address written into the union and read back under its own format is the same address |
| Structures.AddrUnionIsUntagged | src/structures.rs:12-18 | the bytes of any time code are also the bytes of some logical address, so only the format tells them apart |
| Structures.WithSeekRange | src/structures.rs:38-42 | writing a seek range into the raw-read union sets bytes 0 to 5 to the range and leaves the other 2640 bytes alone |
| Structures.AdrCtrlSplit | src/main.rs:242-245 | the high nibble (the one the code calls `adr`) and the low nibble (the one it calls `ctrl`) rebuild the packed byte; 0x14 splits into 1 and 4 |
| Structures.AdrCtrlUnique | src/main.rs:242-245 | splitting a byte packed from two nibbles gives both nibbles back |
| Structures.DecodeTocEntry | src/main.rs:242-253 | an entry decodes exactly when the returned format is 1 or 2; it keeps the track, splits the packed nibbles, and reads the address in the view the format names |
| Structures.DecodeSubChannel | src/main.rs:306-327 | a reply decodes exactly when its format is 1 or 2; one format governs the absolute and the relative address, and status, track and index are kept |
| Addressing.ToLba | src/constants.rs:173-176 | a logical block lies between -150 and 1166730, so it always fits an `i32`; for a time code with a valid frame, it is negative exactly when the time code lies in the two-second lead-in |
| Addressing.FromLba | src/constants.rs:173-176 | for a block at or after the start of the lead-in, the time code has a second below 60 and a frame below 75 |
| Addressing.LbaRoundTrip | src/constants.rs:173-176 | every block from -150 up to the largest minute a byte can hold survives the trip through a time code |
| Addressing.MsfRoundTrip | src/constants.rs:173-176 | every well-formed time code (second below 60, frame below 75) survives the trip through a logical block |
| Addressing.MsfRoundTripNotExact | src/constants.rs:173-176 | a time code that is not well formed does not survive the trip: 0:60.00 comes back as 1:00.00 |
| Addressing.LeadInIffNegative | src/main.rs:384-391 | the time code of a block is in the lead-in exactly when the block is negative |
| Ioctl.RequestCode | src/main.rs:160-173 | every request goes out under a CD-ROM control code, and that code decodes to the operation the request performs |
| Ioctl.ControllerCodes | src/main.rs:160-173 | the control codes the controller uses: status 0x5326, disc 0x5327, MCN 0x5311, header 0x5305, entry 0x5306, lock 0x5329, eject 0x5309, close 0x5319, sub-channel 0x530b, audio 0x530e, raw 0x5314 |
| Drive.Status | src/main.rs:189-196 | a failing call panics; otherwise the status is known exactly for 0 to 4 and matches the returned value; never an error |
| Drive.DiscType | src/main.rs:198-205 | never fails; the disc type is known exactly when the call succeeds with 0 or 100 to 105, and it matches the value |
| Drive.Mcn | src/main.rs:207-219 | the catalogue number is absent exactly when the call fails; when present it is the reply without its final terminator byte |
| Drive.TocHeader | src/main.rs:221-231 | as written: only a missing medium is an error (NoDisc); every other failure yields the empty header 0..0; success yields the reply |
| Drive.TocHeaderChecked | src/main.rs:221-231 | the intended contract: success exactly when the call succeeds; a missing medium is NoDisc; any other failure passes its errno through |
| Drive.TocHeaderMasksErrors | src/main.rs:224-230 | the two header readers differ exactly on failures other than a missing medium; a failure with EIO reads as the empty header |
| Drive.TocEntry | src/main.rs:233-256 | asks for the given track in the given format; never an error; panics exactly when the call fails or the returned format is neither 1 nor 2; otherwise the entry matches the reply |
| Drive.SetLock | src/main.rs:258-273 | sends 1 exactly when locking; EBUSY is Busy; any other failure passes its errno; a returned EOPNOTSUPP is Unsupported; every other success is Ok |
| Drive.Eject | src/main.rs:275-285 | a failing call panics; the result 2 is DoorLocked and nothing else is an error |
| Drive.Close | src/main.rs:287-297 | a failing call panics; a returned ENOSYS is Unsupported, a returned EBUSY is DoorLocked, every other success is Ok |
| Drive.SubchannelOutcome | src/main.rs:306-327 | never an error; panics exactly when the call fails or the returned format is neither 1 nor 2; both addresses share the returned format and the nibbles rebuild the packed byte |
| Drive.Subchannel | src/main.rs:299-305 | the request presets the track field to the caller's track |
| Drive.ReadAudioInto | src/main.rs:345-381 | a lead-in address, a frame count outside 1 to 75, or a buffer below frames*2352/2 samples each panic before any request; an accepted read asks for the caller's address under its own format, the frame count and a buffer large enough; success exactly when the call returns 0; a failure passes its errno; a nonzero return becomes an errno; the buffer then holds the kernel's samples |
| Drive.ReadAudio | src/main.rs:333-339 | panics exactly for a lead-in address or a bad frame count, never for buffer size; on success returns exactly frames*2352/2 samples, the kernel's where it wrote and zero elsewhere |
| Drive.ReadAudioIntoExamples | src/main.rs:357-363 | 10 frames need 11760 samples; 11759 samples panic and 11760 are accepted; 0 and 76 frames panic; 75 frames are accepted |
| Drive.ReadRawInto | src/main.rs:383-410 | a lead-in target is InvalidAddress with no request; otherwise the seek range starts at the target time code, a failure panics, and nothing else is an error |
| Drive.ReadRawIgnoresBuffer | src/main.rs:393-403 | the outcome never depends on the caller's buffer; even an empty buffer reaches the device |
| Drive.RawReadRejectsNegativeLba | src/main.rs:384-391 | a logical address is refused as InvalidAddress exactly when it is negative |
| LinuxDrive.SetLock | src/platform/linux.rs:148-163 | as written: never Ok; EBUSY is Busy; any other failure passes its errno; every success is Unsupported |
| LinuxDrive.SetLockRevisionsDiffer | src/platform/linux.rs:159-162 | the two lock revisions differ exactly on successes other than EOPNOTSUPP; locking with result 0 is Unsupported here and Ok in the other revision |
| LinuxDrive.Subchannel | src/platform/linux.rs:189-217 | the request leaves the track field unset; the outcome follows the same rules as the other revision |
| LinuxDrive.Preset | src/platform/linux.rs:290-292 | the first three bytes of the buffer become the target time code and the rest are untouched |
| LinuxDrive.ReadRawInto | src/platform/linux.rs:272-299 | an invalid address is refused first, then a buffer below 2352 bytes is InvalidBufferSize(2352, length); a refused call sends nothing and leaves the buffer alone; an accepted call sends the preset buffer, panics exactly when the call fails, and leaves the sector in the buffer |
| LinuxDrive.ReadRawRevisionsDiffer | src/platform/linux.rs:286-288 | with an empty buffer at 0:02.00 the old revision issues the read and the revised one refuses with InvalidBufferSize(2352, 0) |
| CallSurface.QueriesAnswerWithAbsence | src/lib.rs:49-58 | status, disc type and catalogue number report no answer instead of an error |
| CallSurface.EntryReadsHaveNoErrors | src/lib.rs:60-70 | table-of-contents entries and sub-channel reads never return an error value |
| CallSurface.PreconditionsPrecedeDevice | src/lib.rs:40-44 | whenever a read is refused for its address or buffer, no request reaches the device |
| CallSurface.ReadAudioIntoNeedsBuffer | src/lib.rs:77-86 | a successful audio read into a buffer implies the buffer holds frames*2352/2 samples |
| CallSurface.ReadAudioIsReadAudioInto | src/lib.rs:72-75 | reading audio is reading into a zeroed buffer of frames*2352/2 samples |
| Rip.RipReadsAreAccepted | src/main.rs:91-106 | the one-second buffer holds exactly what 75 frames need, and every read of the ripping loop passes the controller's checks and reaches the device |
| Rip.RipReadsTile | src/main.rs:97-106 | the i-th read of the ripping loop starts at logical block 75*i, so consecutive one-second reads tile the disc without gap or overlap |
| Rip.Run | src/main.rs:103-109 | the first read at or after a given one that does not succeed with 0; every read before it succeeds |
| Rip.RipFrom | src/main.rs:97-120 | the loop emits one full buffer for each read up to the first failure and nothing after it |
| Rip.RipCd | src/main.rs:78-129 | the routine panics before any read when the status call fails, the status is outside 0 to 4 or the disc type is unknown; otherwise its output is one second of samples for each read before the first failure |
| Rip.RipStep | src/main.rs:103-119 | a successful read overlays the drive's samples on the reused buffer and emits that buffer before the rest of the loop |
| Rip.RipDelivers | src/main.rs:103-119 | sample j that the drive delivered for the k-th successful read is sample k*88200+j of the output |

## Left out

- Opening the device (`CDRom::new`) and the file descriptor: every device call is an input, so no descriptor is needed.
- The `nix` ioctl wrappers: a call is represented by its `Request` and its `IoResult`. How `nix` maps an unknown errno is not modelled.
- What the kernel writes into records and buffers is an arbitrary input. The device's behaviour is not modelled.
- The interactive `main` loop and all printing: they are I/O around calls the model already covers.
- `rip_cd` writing WAV files, MD5 sums and progress lines: the model stops at the sequence of samples the loop emits. The panics of opening the device and creating the WAV file (src/main.rs:79, 90) and of flushing it are I/O failures and are not modelled.
- `src/packet_commands.rs`: it is not compiled into the crate, and no controller member uses it.
- Raw pointer fields and `repr(C)` padding. The audio request keeps the buffer's size in bytes in place of its pointer. The union's fourth byte after a time code is written as zero.
- The model assumes a little-endian host; the crate restricts only the operating system (src/lib.rs:13-17), and on a big-endian Linux target the `int` view of the address union would read differently.
- Drive.ReadRawInto: in `src/main.rs` the seek range overwrites the union's buffer pointer, so the caller's buffer is never filled; the model leaves the buffer out of the result.
- Drive.Mcn: the 13 bytes are returned as bytes; the lossy UTF-8 conversion to a `String` is left out because it has no effect on ASCII digits.
- Drive.TocEntry: the data-mode byte of the entry record is left out; no caller reads it.
- Drive.Subchannel: the other fields of the request record are left out; only the track preset differs between the revisions.
- Drive.ReadAudio: the buffer size `frames * 2352` (src/main.rs:334) is computed before any check on `frames` and is unbounded here; in the source a huge frame count overflows `usize` or fails the allocation before the frame check is reached, and neither is modelled.
- Addressing.ToLba: computed on unbounded integers; the largest time code, 255:255.255, gives 1166730, which fits an `i32`, so no wrap-around arises.
- Addressing.FromLba: the bodies of `Msf::from_lba`, `Msf::to_lba` and `Msf::invalid` are absent from the crate's `src/structures.rs`; they are defined here from `CD_SECS`, `CD_FRAMES` and `CD_MSF_OFFSET`, with Rust's truncating `/` and `%` and the `as u8` cast.
- Addressing.LbaRoundTrip: stated only for blocks from -150 up to 256*4500-150; above that the minute byte wraps around.
- Linux members of `src/platform/linux.rs` that repeat `src/main.rs` line for line are modelled once, in `Drive`.
- The display messages of `CDRomError`: they are text only and do not affect behaviour.
- Target-specific type aliases (`CDRom` on other platforms): only the Linux adapter is modelled.
- Drive.ReadAudioInto: `CDRomError::InvalidBufferSize` exists (src/lib.rs:43-44) and the revised raw read uses it, but `read_audio_into` panics on a small buffer (src/main.rs:361-363); the model follows the code.

## Findings

| source | as written | input that shows it | evidently intended | confidence | as-written member | corrected member |
|---|---|---|---|---|---|---|
| src/platform/linux.rs:159-162 | `EDRIVE_CANT_DO_THIS` is not imported at line 14, so the match arm binds a fresh variable and catches every successful result | `set_lock(true)` with the call returning 0 gives `Err(Unsupported)` | only a result equal to EOPNOTSUPP is Unsupported and every other success is `Ok`, as in src/main.rs:269-272 | high; not executed | LinuxDrive.SetLockRevisionsDiffer | Drive.SetLock |
| src/main.rs:224-230 | only ENOMEDIUM is reported; every other failure of the header read is dropped and the default header is returned | the header read fails with EIO and `toc_header` gives `Ok(TocHeader { 0, 0 })` | other failures pass their errno to the caller | medium; not executed | Drive.TocHeaderMasksErrors | Drive.TocHeaderChecked |
| src/main.rs:383-410 | no check of the buffer's length, and the seek range overwrites the union's buffer pointer | an empty buffer at address 0:02.00 still reaches the device | a buffer below 2352 bytes is refused with `InvalidBufferSize(2352, len)`, as in src/platform/linux.rs:286-288 | high; not executed | Drive.ReadRawIgnoresBuffer | LinuxDrive.ReadRawInto |
