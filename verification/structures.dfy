/** The records exchanged with the kernel, modelled as byte layouts rather
    than memory: the three-byte time code, the six-byte time range, the
    untagged four-byte address union, the 2646-byte raw-read union, the
    audio-read request, and the decoded forms of the table-of-contents and
    sub-channel replies. Padding and pointer fields are not modelled. */
module Structures {
  import opened Primitives
  import C = Constants

  /** `Msf0`: a minute/second/frame time code, three bytes on the wire. */
  datatype Msf0 = Msf0(minute: u8, second: u8, frame: u8)

  function EncodeMsf0(m: Msf0): (b: seq<u8>)
    ensures |b| == 3
  {
    [m.minute, m.second, m.frame]
  }

  function DecodeMsf0(b: seq<u8>): Msf0
    requires |b| == 3
  {
    Msf0(b[0], b[1], b[2])
  }

  /** The three bytes are minute, second, frame in that order, and every
      three-byte string is some time code. */
  lemma Msf0RoundTrip(m: Msf0, b: seq<u8>)
    requires |b| == 3
    ensures DecodeMsf0(EncodeMsf0(m)) == m
    ensures EncodeMsf0(DecodeMsf0(b)) == b
    ensures DecodeMsf0(b).minute == b[0] && DecodeMsf0(b).second == b[1] && DecodeMsf0(b).frame == b[2]
  {
  }

  /** `Msf` in the record layout (`MsfLong` in the controller): a start and
      an end time code, six bytes. */
  datatype MsfLong = MsfLong(min0: u8, sec0: u8, frame0: u8, min1: u8, sec1: u8, frame1: u8)

  function Start(m: MsfLong): Msf0 {
    Msf0(m.min0, m.sec0, m.frame0)
  }

  function End(m: MsfLong): Msf0 {
    Msf0(m.min1, m.sec1, m.frame1)
  }

  function EncodeMsfLong(m: MsfLong): (b: seq<u8>)
    ensures |b| == 6
  {
    [m.min0, m.sec0, m.frame0, m.min1, m.sec1, m.frame1]
  }

  function DecodeMsfLong(b: seq<u8>): MsfLong
    requires |b| == 6
  {
    MsfLong(b[0], b[1], b[2], b[3], b[4], b[5])
  }

  /** The six bytes are the start time code followed by the end time code,
      and decoding gives the range back. */
  lemma MsfLongLayout(m: MsfLong, b: seq<u8>)
    requires |b| == 6
    ensures EncodeMsfLong(m) == EncodeMsf0(Start(m)) + EncodeMsf0(End(m))
    ensures DecodeMsfLong(EncodeMsfLong(m)) == m
    ensures EncodeMsfLong(DecodeMsfLong(b)) == b
  {
  }

  /** An address as the controller sees it: a logical block number or a
      time code. */
  datatype Addr = Lba(lba: i32) | Msf(msf: Msf0)

  /** The format discriminant that says which view of the union is meant. */
  function AddrFormat(a: Addr): C.AddressType {
    match a
    case Lba(_) => C.Lba
    case Msf(_) => C.Msf
  }

  /** The address union on the wire: four bytes, no tag. */
  type UnionBytes = b: seq<u8> | |b| == 4 witness [0, 0, 0, 0]

  /** `b` holds `a` in the view `a`'s own variant selects: a C `int` over all
      four bytes, or a time code over the first three. */
  predicate IsViewOf(a: Addr, b: UnionBytes) {
    match a
    case Lba(l) => EncodeI32(l) == b
    case Msf(m) => EncodeMsf0(m) == b[..3]
  }

  /** Writing an address into the union. The byte after a time code is
      padding; it is written as zero. */
  function EncodeAddrUnion(a: Addr): (b: UnionBytes)
    ensures IsViewOf(a, b)
  {
    match a
    case Lba(l) => EncodeI32(l)
    case Msf(m) => EncodeMsf0(m) + [0]
  }

  /** Reading the union under the format discriminant that travels beside
      it: `1` is the logical view, `2` the time-code view, anything else
      has no meaning. */
  function DecodeAddrUnion(format: int, b: UnionBytes): (r: Option<Addr>)
    ensures r.Some? <==> format == 1 || format == 2
    ensures r.Some? ==> C.AddressTypeCode(AddrFormat(r.value)) as int == format
    ensures r.Some? ==> IsViewOf(r.value, b)
  {
    I32BytesRoundTrip(b);
    if format == C.AddressTypeCode(C.Lba) as int then Some(Lba(DecodeI32(b)))
    else if format == C.AddressTypeCode(C.Msf) as int then Some(Msf(DecodeMsf0(b[..3])))
    else None
  }

  /** Reading the union back under the address's own format gives the
      address back. */
  lemma {:induction false} AddrUnionRoundTrip(a: Addr)
    ensures DecodeAddrUnion(C.AddressTypeCode(AddrFormat(a)) as int, EncodeAddrUnion(a)) == Some(a)
  {
    match a
    case Lba(l) => I32RoundTrip(l);
    case Msf(m) =>
  }

  /** The union carries no tag: the bytes of every time code are also the
      bytes of a logical address, so only the separate discriminant says
      which was meant. */
  lemma {:induction false} AddrUnionIsUntagged(m: Msf0)
    ensures var l := DecodeI32(EncodeAddrUnion(Msf(m)));
            EncodeAddrUnion(Lba(l)) == EncodeAddrUnion(Msf(m)) && Lba(l) != Msf(m)
  {
    I32BytesRoundTrip(EncodeAddrUnion(Msf(m)));
  }

  /** The raw-read union: an `Msf` seek range overlaid on a buffer of
      `CD_FRAMESIZE_RAWER` bytes. */
  type RawResult = b: seq<u8> | |b| == C.CD_FRAMESIZE_RAWER witness seq(2646, i => 0)

  /** Writing the seek range into the union: it takes bytes 0 to 5 and
      leaves the rest of the buffer as it was. */
  function WithSeekRange(raw: RawResult, m: MsfLong): (r: RawResult)
    ensures DecodeMsfLong(r[..6]) == m
    ensures r[6..] == raw[6..]
  {
    EncodeMsfLong(m) + raw[6..]
  }

  /** `ReadAudio`, without its pointer: the address union, the format tag
      kept outside it, the frame count, and the size in bytes of the
      buffer the pointer designates. */
  datatype ReadAudio = ReadAudio(addr: UnionBytes, addrFormat: u8, nframes: i32, bufBytes: nat)

  /** The buffer of a request holds `nframes` raw frames of 2352 bytes. */
  predicate BufferHoldsFrames(ra: ReadAudio) {
    ra.bufBytes >= ra.nframes * C.CD_FRAMESIZE_RAW
  }

  /** The address a request designates, read under its own tag. */
  function RequestedAddress(ra: ReadAudio): Option<Addr> {
    DecodeAddrUnion(ra.addrFormat as int, ra.addr)
  }

  /** The upper nibble of the packed byte, the one the code calls `adr`
      (`adr_ctrl >> 4`). */
  function Adr(adrCtrl: u8): (a: u8)
    ensures a < 16
  {
    adrCtrl / 16
  }

  /** The lower nibble of the packed byte, the one the code calls `ctrl`
      (`adr_ctrl & 0x0F`). */
  function Ctrl(adrCtrl: u8): (c: u8)
    ensures c < 16
  {
    adrCtrl % 16
  }

  /** The two nibbles make up the byte, and `0x14` splits as 1 and 4. */
  lemma AdrCtrlSplit(b: u8)
    ensures Adr(b) * 16 + Ctrl(b) == b
    ensures b == 0x14 ==> Adr(b) == 1 && Ctrl(b) == 4
  {
  }

  /** Splitting a byte packed from two nibbles recovers both nibbles. */
  lemma {:induction false} AdrCtrlUnique(adr: int, ctrl: int)
    requires 0 <= adr < 16 && 0 <= ctrl < 16
    ensures Adr(adr * 16 + ctrl) == adr && Ctrl(adr * 16 + ctrl) == ctrl
  {
    DivModUnique(adr * 16 + ctrl, 16, adr, ctrl);
  }

  /** The track range a table-of-contents header reports. */
  datatype TocHeader = TocHeader(firstTrack: u8, lastTrack: u8)

  /** `TocHeader::default()`. */
  const DEFAULT_TOC_HEADER := TocHeader(0, 0)

  /** A decoded table-of-contents entry. */
  datatype TocEntry = TocEntry(track: u8, adr: u8, ctrl: u8, addr: Addr)

  /** The entry record as the kernel leaves it after the call. */
  datatype RawTocEntry = RawTocEntry(track: u8, adrCtrl: u8, format: u8, addr: UnionBytes)

  /** Decoding the entry record: nibble split and the address variant
      chosen by the returned format. */
  function DecodeTocEntry(raw: RawTocEntry): (r: Option<TocEntry>)
    ensures r.Some? <==> raw.format == 1 || raw.format == 2
    ensures r.Some? ==> r.value.track == raw.track
    ensures r.Some? ==> r.value.adr * 16 + r.value.ctrl == raw.adrCtrl && r.value.adr < 16 && r.value.ctrl < 16
    ensures r.Some? ==> C.AddressTypeCode(AddrFormat(r.value.addr)) == raw.format
    ensures r.Some? ==> IsViewOf(r.value.addr, raw.addr)
  {
    match DecodeAddrUnion(raw.format as int, raw.addr)
    case Some(a) => Some(TocEntry(raw.track, Adr(raw.adrCtrl), Ctrl(raw.adrCtrl), a))
    case None => None
  }

  /** A decoded sub-channel reply. */
  datatype SubChannel = SubChannel(audioStatus: u8, adr: u8, ctrl: u8, track: u8, index: u8,
                                   absAddr: Addr, relAddr: Addr)

  /** The sub-channel record as the kernel leaves it after the call. */
  datatype RawSubChannel = RawSubChannel(format: u8, audioStatus: u8, adrCtrl: u8, track: u8,
                                         index: u8, absAddr: UnionBytes, relAddr: UnionBytes)

  /** Decoding the sub-channel record: one returned format governs both
      addresses. */
  function DecodeSubChannel(raw: RawSubChannel): (r: Option<SubChannel>)
    ensures r.Some? <==> raw.format == 1 || raw.format == 2
    ensures r.Some? ==> r.value.adr * 16 + r.value.ctrl == raw.adrCtrl && r.value.adr < 16 && r.value.ctrl < 16
    ensures r.Some? ==> r.value.audioStatus == raw.audioStatus && r.value.track == raw.track && r.value.index == raw.index
    ensures r.Some? ==> AddrFormat(r.value.absAddr) == AddrFormat(r.value.relAddr)
    ensures r.Some? ==> C.AddressTypeCode(AddrFormat(r.value.absAddr)) == raw.format
    ensures r.Some? ==> IsViewOf(r.value.absAddr, raw.absAddr) && IsViewOf(r.value.relAddr, raw.relAddr)
  {
    match (DecodeAddrUnion(raw.format as int, raw.absAddr), DecodeAddrUnion(raw.format as int, raw.relAddr))
    case (Some(abs), Some(rel)) =>
      Some(SubChannel(raw.audioStatus, Adr(raw.adrCtrl), Ctrl(raw.adrCtrl), raw.track, raw.index, abs, rel))
    case _ => None
  }
}
