/** Vocabulary shared by every module: bytes, transport packets, optional results.
  *
  * Bit masks and shifts on bytes are written arithmetically.  Every mask in the modelled code
  * selects a contiguous run of bits, so `b & 0x0F` is `b % 16`, `b >> 4` is `b / 16`, and
  * `(b & 0xF0) | n` with `n < 16` is `b / 16 * 16 + n`; nothing is approximated.
  */
module Common {

  type Byte = b: int | 0 <= b < 256

  type Bytes = seq<Byte>

  const TS_PACKET_SIZE: nat := 188
  const TS_SYNC_BYTE: Byte := 0x47

  /** The number of values of a `u64`. */
  const U64: nat := 0x1_0000_0000_0000_0000

  type Packet = p: seq<Byte> | |p| == TS_PACKET_SIZE witness Fill(TS_PACKET_SIZE, 0)

  /** A 13-bit packet identifier. */
  type Pid = p: int | 0 <= p < 8192

  const SDT_PID: Pid := 0x11

  /** What marks a DVB string as UTF-8. */
  const UTF8_PREFIX: Byte := 0x15

  datatype Option<+T> = None | Some(value: T)

  function Min(a: int, b: int): int {
    if a <= b then a else b
  }

  function SaturatingSub(a: nat, b: nat): nat {
    if a >= b then a - b else 0
  }

  function Fill(n: nat, b: Byte): (s: seq<Byte>)
    ensures |s| == n
  {
    seq(n, _ => b)
  }

  /** The high byte of a 16-bit value (`high`, and every `(x >> 8) as u8`). */
  function High(x: nat): Byte {
    x / 256 % 256
  }

  /** The low byte of a 16-bit value (`low`, and every `x as u8`). */
  function Low(x: nat): Byte {
    x % 256
  }

  function Flatten(parts: seq<Bytes>): Bytes {
    if parts == [] then [] else parts[0] + Flatten(parts[1..])
  }

  lemma {:induction false} FlattenAppend(a: seq<Bytes>, b: seq<Bytes>)
    ensures Flatten(a + b) == Flatten(a) + Flatten(b)
  {
    if a == [] {
      assert a + b == b;
    } else {
      assert (a + b)[1..] == a[1..] + b;
      FlattenAppend(a[1..], b);
    }
  }

  /** The bytes of a list of packets, one after the other. */
  function Concat(packets: seq<Packet>): (bytes: seq<Byte>)
    ensures |bytes| == TS_PACKET_SIZE * |packets|
  {
    if packets == [] then [] else packets[0] + Concat(packets[1..])
  }

  lemma {:induction false} ConcatAppend(a: seq<Packet>, b: seq<Packet>)
    ensures Concat(a + b) == Concat(a) + Concat(b)
  {
    if a == [] {
      assert a + b == b;
    } else {
      assert (a + b)[1..] == a[1..] + b;
      ConcatAppend(a[1..], b);
    }
  }
}
