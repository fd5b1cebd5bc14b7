/**
 * The NTPPacket record: a fixed 48-byte frame packed with the struct format
 * "!B B b b 3I 4d". The first byte carries LI/VN/Mode in the layout of
 * section 7.3 of RFC 5905; the four timestamps travel as IEEE-754 doubles,
 * kept here as opaque 8-byte values.
 */
module Packet {
  import opened Results
  import opened Wire

  /** struct.calcsize("!B B b b 3I 4d"): four single bytes, three 4-byte words, four 8-byte doubles. */
  const FRAME_SIZE: nat := 48

  const MODE_CLIENT: int := 3
  const MODE_SERVER: int := 4

  /** The wire image of one `d` slot: the bit pattern of a double, not interpreted. */
  type Stamp = s: seq<byte> | |s| == 8 witness [0, 0, 0, 0, 0, 0, 0, 0]

  /** The double 0.0, which is what the constructor's timestamp defaults pack to. */
  const ZERO_STAMP: Stamp := [0, 0, 0, 0, 0, 0, 0, 0]

  /** The thirteen fields of an NTPPacket; T is how a timestamp is held. */
  datatype Frame<T> = Frame(
    li: int, version: int, mode: int,
    stratum: int, poll: int, precision: int,
    rootDelay: int, rootDispersion: int, referenceId: int,
    referenceTimestamp: T, orgTimestamp: T, rcvTimestamp: T, xmtTimestamp: T)

  /** The fields NTPPacket's constructor sets: LI 0, version 4, the given mode and transmit time, all else zero. */
  function DefaultFrame<T>(mode: int, zero: T, xmtTimestamp: T): (f: Frame<T>)
    ensures f.li == 0 && f.version == 4 && f.mode == mode && f.xmtTimestamp == xmtTimestamp
  {
    Frame(0, 4, mode, 0, 0, 0, 0, 0, 0, zero, zero, zero, xmtTimestamp)
  }

  datatype Header = Header(li: int, version: int, mode: int)

  datatype CodecError =
    | PackOutOfRange   // struct.pack: a value does not fit its slot
    | ShortBuffer(got: nat)  // struct.unpack: fewer than FRAME_SIZE bytes

  /**
   * `li << 6 | version << 3 | mode`. Fields that fit their 2, 3 and 3 bits do
   * not overlap, so the OR is then the sum `64 li + 8 version + mode`.
   */
  function PackHeader(li: nat, version: nat, mode: nat): (b: nat)
    ensures li < 4 && version < 8 && mode < 8 ==> b == li * 64 + version * 8 + mode
  {
    DisjointFields(li, version, mode);
    BitOr(BitOr(ShiftLeft(li, 6), ShiftLeft(version, 3)), mode)
  }

  /** `b >> 6 & 0x3`, `b >> 3 & 0x7`, `b & 0x7`. */
  function UnpackHeader(b: byte): (h: Header)
    ensures 0 <= h.li < 4 && 0 <= h.version < 8 && 0 <= h.mode < 8
  {
    Header(b / 64 % 4, b / 8 % 8, b % 8)
  }

  lemma DisjointFields(li: nat, version: nat, mode: nat)
    ensures li < 4 && version < 8 && mode < 8 ==>
      BitOr(BitOr(ShiftLeft(li, 6), ShiftLeft(version, 3)), mode) == li * 64 + version * 8 + mode
  {
    if li < 4 && version < 8 && mode < 8 {
      var both := ShiftLeft(8 * li + version, 3);
      OrShiftedFields(li, version);
      ShiftLeftThree(8 * li + version);
      assert Pow2(3) == 8;
      BitOrDisjoint(8 * li + version, 3, mode);
      assert BitOr(both, mode) == both + mode;
    }
  }

  /** `li << 6 | version << 3` is `(8 * li + version) << 3`. */
  lemma OrShiftedFields(li: nat, version: nat)
    requires version < 8
    ensures BitOr(ShiftLeft(li, 6), ShiftLeft(version, 3)) == ShiftLeft(8 * li + version, 3)
  {
    var high, low := ShiftLeft(li, 6), ShiftLeft(version, 3);
    ShiftLeftThree(li);
    ShiftLeftThree(8 * li);
    ShiftLeftThree(version);
    ShiftLeftThree(8 * li + version);
    assert Pow2(6) == 64;
    BitOrDisjoint(li, 6, low);
  }

  lemma ShiftLeftThree(x: nat)
    ensures ShiftLeft(x, 3) == 8 * x
    ensures ShiftLeft(x, 6) == ShiftLeft(8 * x, 3)
  {
    assert ShiftLeft(x, 1) == 2 * x;
    assert ShiftLeft(x, 2) == 4 * x;
    var y := 8 * x;
    assert ShiftLeft(x, 4) == 2 * y && ShiftLeft(y, 1) == 2 * y;
    assert ShiftLeft(x, 5) == 4 * y && ShiftLeft(y, 2) == 4 * y;
  }

  /** The three fields placed side by side, 2 + 3 + 3 bits, split back apart. */
  lemma UnpackFields(li: nat, version: nat, mode: nat)
    requires li < 4 && version < 8 && mode < 8
    ensures 64 * li + 8 * version + mode < 256
    ensures UnpackHeader(64 * li + 8 * version + mode) == Header(li, version, mode)
  {
    var b := 64 * li + 8 * version + mode;
    assert b / 8 == 8 * li + version && b % 8 == mode;
    assert b / 64 == li;
  }

  /** Packing in-range fields and unpacking the byte gives the fields back. */
  lemma HeaderRoundTrip(li: nat, version: nat, mode: nat)
    requires li < 4 && version < 8 && mode < 8
    ensures PackHeader(li, version, mode) < 256
    ensures UnpackHeader(PackHeader(li, version, mode)) == Header(li, version, mode)
  {
    UnpackFields(li, version, mode);
  }

  /** Every byte is three fields side by side. */
  lemma SplitByte(b: byte)
    ensures var h := UnpackHeader(b); b == 64 * h.li + 8 * h.version + h.mode
  {
    var li, rest := b / 64, b % 64;
    var version, mode := rest / 8, rest % 8;
    assert b == 64 * li + 8 * version + mode;
    assert b / 8 == 8 * li + version;
  }

  /** Unpacking any byte and packing the three fields gives the byte back. */
  lemma ByteRoundTrip(b: byte)
    ensures var h := UnpackHeader(b); PackHeader(h.li, h.version, h.mode) == b
  {
    var h := UnpackHeader(b);
    SplitByte(b);
  }

  /** A request built by the constructor starts with 0x23: LI 0, version 4, mode 3. */
  lemma DefaultRequestHeader()
    ensures PackHeader(0, 4, MODE_CLIENT) == 0x23
  {
  }

  /** Every value fits its slot exactly, so nothing is lost by a pack and unpack. */
  predicate InRange(f: Frame<Stamp>)
  {
    && 0 <= f.li < 4 && 0 <= f.version < 8 && 0 <= f.mode < 8
    && IsUByte(f.stratum) && IsSByte(f.poll) && IsSByte(f.precision)
    && IsU32(f.rootDelay) && IsU32(f.rootDispersion) && IsU32(f.referenceId)
  }

  /** What struct.pack accepts: the combined header byte and every integer slot in range. */
  predicate Packable(f: Frame<Stamp>)
  {
    && f.li >= 0 && f.version >= 0 && f.mode >= 0
    && PackHeader(f.li, f.version, f.mode) < 256
    && IsUByte(f.stratum) && IsSByte(f.poll) && IsSByte(f.precision)
    && IsU32(f.rootDelay) && IsU32(f.rootDispersion) && IsU32(f.referenceId)
  }

  /** convert_to_bytes: struct.pack of the header byte and the twelve other fields. */
  function Encode(f: Frame<Stamp>): (r: Result<seq<byte>, CodecError>)
    ensures r.Ok? <==> Packable(f)
    ensures r.Ok? ==> |r.value| == FRAME_SIZE
  {
    // A negative operand makes `|` negative, which format `B` refuses.
    if f.li < 0 || f.version < 0 || f.mode < 0 then Err(PackOutOfRange)
    else
      var header := PackHeader(f.li, f.version, f.mode);
      if header >= 256 || !IsUByte(f.stratum) || !IsSByte(f.poll) || !IsSByte(f.precision)
         || !IsU32(f.rootDelay) || !IsU32(f.rootDispersion) || !IsU32(f.referenceId)
      then Err(PackOutOfRange)
      else
        Pow256Four();
        Ok([header as byte, f.stratum as byte, SignedByte(f.poll), SignedByte(f.precision)]
           + ToBigEndian(f.rootDelay, 4) + ToBigEndian(f.rootDispersion, 4) + ToBigEndian(f.referenceId, 4)
           + f.referenceTimestamp + f.orgTimestamp + f.rcvTimestamp + f.xmtTimestamp)
  }

  /** convert_to_obj's reading: struct.unpack of data[0:48], then the header byte split into three. */
  function Decode(data: seq<byte>): (r: Result<Frame<Stamp>, CodecError>)
    ensures r.Err? <==> |data| < FRAME_SIZE
    ensures r.Ok? ==> InRange(r.value)
  {
    var buf := if |data| < FRAME_SIZE then data else data[..FRAME_SIZE];
    if |buf| != FRAME_SIZE then Err(ShortBuffer(|buf|))
    else
      var h := UnpackHeader(buf[0]);
      var reference: Stamp, org: Stamp, rcv: Stamp, xmt: Stamp :=
        buf[16..24], buf[24..32], buf[32..40], buf[40..48];
      Pow256Four();
      Ok(Frame(h.li, h.version, h.mode,
               buf[1], FromSignedByte(buf[2]), FromSignedByte(buf[3]),
               FromBigEndian(buf[4..8]), FromBigEndian(buf[8..12]), FromBigEndian(buf[12..16]),
               reference, org, rcv, xmt))
  }

  /** Where each field lands in the packed frame. */
  lemma EncodeLayout(f: Frame<Stamp>)
    requires Packable(f)
    ensures var b := Encode(f).value;
      && b[0] == PackHeader(f.li, f.version, f.mode) && b[1] == f.stratum
      && b[2] == SignedByte(f.poll) && b[3] == SignedByte(f.precision)
      && b[4..8] == ToBigEndian(f.rootDelay, 4) && b[8..12] == ToBigEndian(f.rootDispersion, 4)
      && b[12..16] == ToBigEndian(f.referenceId, 4)
      && b[16..24] == f.referenceTimestamp && b[24..32] == f.orgTimestamp
      && b[32..40] == f.rcvTimestamp && b[40..48] == f.xmtTimestamp
  {
    Pow256Four();
    var head := [PackHeader(f.li, f.version, f.mode) as byte, f.stratum as byte, SignedByte(f.poll), SignedByte(f.precision)];
    var words := ToBigEndian(f.rootDelay, 4) + ToBigEndian(f.rootDispersion, 4) + ToBigEndian(f.referenceId, 4);
    var stamps := f.referenceTimestamp + f.orgTimestamp + f.rcvTimestamp + f.xmtTimestamp;
    var b := Encode(f).value;
    assert b == head + words + stamps;
    assert b[4..16] == words;
    assert b[16..48] == stamps;
  }

  /** Fields in range survive an encode and decode unchanged. */
  lemma DecodeEncode(f: Frame<Stamp>)
    requires InRange(f)
    ensures Encode(f).Ok?
    ensures Decode(Encode(f).value) == Ok(f)
  {
    HeaderRoundTrip(f.li, f.version, f.mode);
    Pow256Four();
    EncodeLayout(f);
    var bytes := Encode(f).value;
    FromToBigEndian(f.rootDelay, 4);
    FromToBigEndian(f.rootDispersion, 4);
    FromToBigEndian(f.referenceId, 4);
    assert bytes[..FRAME_SIZE] == bytes;
  }

  /** Any 48 bytes decode, and encoding what was decoded gives those 48 bytes back. */
  lemma EncodeDecode(data: seq<byte>)
    requires |data| >= FRAME_SIZE
    ensures Decode(data).Ok?
    ensures Encode(Decode(data).value) == Ok(data[..FRAME_SIZE])
  {
    var buf := data[..FRAME_SIZE];
    var f := Decode(data).value;
    var h := UnpackHeader(buf[0]);
    ByteRoundTrip(buf[0]);
    HeaderRoundTrip(h.li, h.version, h.mode);
    SignedByteOfUnpacked(buf[2]);
    SignedByteOfUnpacked(buf[3]);
    ToFromBigEndian(buf[4..8]);
    ToFromBigEndian(buf[8..12]);
    ToFromBigEndian(buf[12..16]);
    assert buf == [buf[0], buf[1], buf[2], buf[3]] + buf[4..8] + buf[8..12] + buf[12..16]
                  + buf[16..24] + buf[24..32] + buf[32..40] + buf[40..48];
  }

  /** Bytes after the first 48 are never looked at. */
  lemma DecodeIgnoresTrailing(data: seq<byte>, trailing: seq<byte>)
    requires |data| == FRAME_SIZE
    ensures Decode(data + trailing) == Decode(data)
  {
    assert (data + trailing)[..FRAME_SIZE] == data;
    assert data[..FRAME_SIZE] == data;
  }

  /**
   * An NTPPacket object. The constructor fills in the defaults; convert_to_obj
   * overwrites every field from a received buffer, or raises before touching any.
   */
  class NtpPacket {
    var li: int
    var version: int
    var mode: int
    var stratum: int
    var poll: int
    var precision: int
    var rootDelay: int
    var rootDispersion: int
    var referenceId: int
    var referenceTimestamp: Stamp
    var orgTimestamp: Stamp
    var rcvTimestamp: Stamp
    var xmtTimestamp: Stamp

    /** The packet's fields as one value. */
    function Value(): Frame<Stamp>
      reads this
    {
      Frame(li, version, mode, stratum, poll, precision, rootDelay, rootDispersion, referenceId,
            referenceTimestamp, orgTimestamp, rcvTimestamp, xmtTimestamp)
    }

    constructor (mode: int := MODE_CLIENT, xmtTimestamp: Stamp := ZERO_STAMP)
      ensures Value() == DefaultFrame(mode, ZERO_STAMP, xmtTimestamp)
      ensures InRange(Value()) <==> 0 <= mode < 8
    {
      li := 0;
      version := 4;
      this.mode := mode;
      stratum := 0;
      poll := 0;
      precision := 0;
      rootDelay := 0;
      rootDispersion := 0;
      referenceId := 0;
      referenceTimestamp := ZERO_STAMP;
      orgTimestamp := ZERO_STAMP;
      rcvTimestamp := ZERO_STAMP;
      this.xmtTimestamp := xmtTimestamp;
    }

    /** convert_to_bytes: 48 bytes that decode back to this packet when its fields are in range. */
    function ConvertToBytes(): (r: Result<seq<byte>, CodecError>)
      reads this
      ensures r.Ok? ==> |r.value| == FRAME_SIZE
      ensures InRange(Value()) ==> r.Ok? && Decode(r.value) == Ok(Value())
    {
      var r := Encode(Value());
      if InRange(Value()) then DecodeEncode(Value()); r else r
    }

    /** The field assignments at the end of convert_to_obj, one per unpacked value. */
    method Assign(u: Frame<Stamp>)
      modifies this
      ensures Value() == u
    {
      li, version, mode := u.li, u.version, u.mode;
      stratum, poll, precision := u.stratum, u.poll, u.precision;
      rootDelay, rootDispersion, referenceId := u.rootDelay, u.rootDispersion, u.referenceId;
      referenceTimestamp, orgTimestamp := u.referenceTimestamp, u.orgTimestamp;
      rcvTimestamp, xmtTimestamp := u.rcvTimestamp, u.xmtTimestamp;
    }

    /** convert_to_obj: unpack first, so a short buffer raises with the packet untouched. */
    method ConvertToObj(data: seq<byte>) returns (r: Outcome<CodecError>)
      modifies this
      ensures |data| < FRAME_SIZE ==> r == Fail(ShortBuffer(|data|)) && Value() == old(Value())
      ensures |data| >= FRAME_SIZE ==> r == Pass && Value() == Decode(data).value
    {
      var unpacked := Decode(data);
      if unpacked.Err? {
        return Fail(unpacked.error);
      }
      Assign(unpacked.value);
      return Pass;
    }
  }
}
