/** CRC-32/MPEG-2 (Annex A of ISO/IEC 13818-1): polynomial 0x04C11DB7, initial value all ones, no
  * reflection, no final inversion.  `calculate_mpeg2_crc32` (src/psi/mod.rs:207-209) takes it from
  * a library by that name. */
module MpegCrc {
  import opened Common

  const POLYNOMIAL: bv32 := 0x04C1_1DB7

  function ShiftBit(c: bv32): bv32 {
    if c & 0x8000_0000 != 0 then (c << 1) ^ POLYNOMIAL else c << 1
  }

  function ShiftByte(c: bv32): bv32 {
    ShiftBit(ShiftBit(ShiftBit(ShiftBit(ShiftBit(ShiftBit(ShiftBit(ShiftBit(c))))))))
  }

  function Update(c: bv32, b: bv8): bv32 {
    ShiftByte(c ^ (b as bv32 << 24))
  }

  function Crc32(c: bv32, data: seq<Byte>): bv32
    decreases |data|
  {
    if data == [] then c else Crc32(Update(c, data[0] as bv8), data[1..])
  }

  const INITIAL: bv32 := 0xFFFF_FFFF

  function ByteOf(b: bv8): Byte {
    b as int
  }

  function TopByte(c: bv32): bv8 {
    (c >> 24) as bv8
  }

  /** `crc.to_be_bytes()`: four times the top byte of what is left. */
  function BigEndian(c: bv32): (s: seq<Byte>)
    ensures |s| == 4
  {
    [ByteOf(TopByte(c)), ByteOf(TopByte(c << 8)), ByteOf(TopByte(c << 16)), ByteOf(TopByte(c << 24))]
  }

  function Checksum(data: seq<Byte>): (s: seq<Byte>)
    ensures |s| == 4
  {
    BigEndian(Crc32(INITIAL, data))
  }

  function WithCrc(data: seq<Byte>): seq<Byte> {
    data + Checksum(data)
  }

  lemma ShiftClean(c: bv32)
    requires c & 0xFF00_0000 == 0
    ensures ShiftByte(c) == c << 8
  {
  }

  lemma XorTop(c: bv32, b: bv8)
    requires b == (c >> 24) as bv8
    ensures (c ^ (b as bv32 << 24)) & 0xFF00_0000 == 0
    ensures (c ^ (b as bv32 << 24)) << 8 == c << 8
  {
  }

  lemma UpdateTop(c: bv32, b: bv8)
    requires b == (c >> 24) as bv8
    ensures Update(c, b) == c << 8
  {
    XorTop(c, b);
    ShiftClean(c ^ (b as bv32 << 24));
  }

  lemma {:induction false} CrcAppend(c: bv32, a: seq<Byte>, b: seq<Byte>)
    ensures Crc32(c, a + b) == Crc32(Crc32(c, a), b)
    decreases |a|
  {
    if a == [] {
      assert a + b == b;
    } else {
      assert (a + b)[1..] == a[1..] + b;
      CrcAppend(Update(c, a[0] as bv8), a[1..], b);
    }
  }

  lemma ByteThere(b: bv8)
    ensures ByteOf(b) as bv8 == b
  {
  }

  lemma OwnByte(c: bv32, b: bv8, s: seq<Byte>)
    requires b == TopByte(c) && s != [] && s[0] == ByteOf(b)
    ensures Crc32(c, s) == Crc32(c << 8, s[1..])
  {
    ByteThere(b);
    UpdateTop(c, b);
  }

  lemma Shifts(c: bv32)
    ensures (c << 8) << 8 == c << 16 && (c << 16) << 8 == c << 24 && (c << 24) << 8 == 0
  {
  }

  lemma OwnBytesCancel(c: bv32)
    ensures Crc32(c, BigEndian(c)) == 0
  {
    var s := BigEndian(c);
    Shifts(c);
    OwnByte(c, TopByte(c), s);
    OwnByte(c << 8, TopByte(c << 8), s[1..]);
    OwnByte(c << 16, TopByte(c << 16), s[1..][1..]);
    OwnByte(c << 24, TopByte(c << 24), s[1..][1..][1..]);
    assert s[1..][1..][1..][1..] == [];
  }

  /** Running the checksum over data followed by its own checksum gives zero: the test a receiver
    * applies to every section accepts whatever `WithCrc` built. */
  lemma ReceiverAccepts(data: seq<Byte>)
    ensures Crc32(INITIAL, WithCrc(data)) == 0
  {
    CrcAppend(INITIAL, data, Checksum(data));
    OwnBytesCancel(Crc32(INITIAL, data));
  }
}
