/** The cached bit reader of src/pes/golomb.rs against plain bit sequences
  * (sections 7.2 and 9.1 of ITU-T H.264). */
module Bits {
  import opened Common

  type Bit = b: int | 0 <= b < 2

  function Pow2(n: nat): (p: nat)
    ensures p > 0
  {
    if n == 0 then 1 else 2 * Pow2(n - 1)
  }

  /** The low `n` bits of `v`, most significant first. */
  function ToBits(v: nat, n: nat): (s: seq<Bit>)
    ensures |s| == n
  {
    if n == 0 then [] else ToBits(v / 2, n - 1) + [v % 2]
  }

  function FromBits(s: seq<Bit>): nat {
    if s == [] then 0 else 2 * FromBits(s[..|s| - 1]) + s[|s| - 1]
  }

  function BytesBits(data: seq<Byte>): seq<Bit> {
    if data == [] then [] else ToBits(data[0], 8) + BytesBits(data[1..])
  }

  // ----- arithmetic of bit strings -----

  lemma MulAtLeast(p: int, d: int)
    requires p > 0
    ensures d > 0 ==> p * d >= p
    ensures d < 0 ==> p * d <= -p
  {
  }

  lemma DivModUnique(x: nat, p: nat, q: nat, r: nat)
    requires p > 0 && x == q * p + r && r < p
    ensures x / p == q && x % p == r
  {
    var d := x / p - q;
    assert x == p * (x / p) + x % p;
    assert p * d == p * (x / p) - p * q;
    MulAtLeast(p, d);
  }

  lemma DivNonnegative(x: nat, p: nat)
    requires p > 0
    ensures x / p >= 0
  {
  }

  /** `v >> m`. */
  function Shr(v: nat, m: nat): (q: nat) {
    DivNonnegative(v, Pow2(m));
    v / Pow2(m)
  }

  /** `v & ((1 << m) - 1)`. */
  function Mask(v: nat, m: nat): (r: nat)
    ensures r < Pow2(m)
  {
    v % Pow2(m)
  }

  lemma ShrMask(v: nat, m: nat)
    ensures v == Shr(v, m) * Pow2(m) + Mask(v, m)
  {
  }

  lemma {:induction false} Pow2Add(a: nat, b: nat)
    ensures Pow2(a + b) == Pow2(a) * Pow2(b)
  {
    if a > 0 {
      Pow2Add(a - 1, b);
      Doubled(Pow2(a - 1), Pow2(b));
    }
  }

  lemma Doubled(x: nat, y: nat)
    ensures 2 * (x * y) == (2 * x) * y
  {
  }

  lemma Pow2Monotone(a: nat, b: nat)
    requires a <= b
    ensures Pow2(a) <= Pow2(b)
  {
    Pow2Add(a, b - a);
    assert Pow2(a) * Pow2(b - a) >= Pow2(a) * 1;
  }

  lemma Pow2Values()
    ensures Pow2(8) == 256 && Pow2(31) == 0x8000_0000 && Pow2(32) == 0x1_0000_0000 && Pow2(64) == U64
  {
    assert Pow2(4) == 16;
    Pow2Add(4, 4);
    Pow2Add(8, 8);
    Pow2Add(16, 16);
    Pow2Add(32, 32);
  }

  lemma {:induction false} FromBitsBound(s: seq<Bit>)
    ensures FromBits(s) < Pow2(|s|)
  {
    if s != [] {
      FromBitsBound(s[..|s| - 1]);
    }
  }

  lemma {:induction false} FromToBits(v: nat, n: nat)
    requires v < Pow2(n)
    ensures FromBits(ToBits(v, n)) == v
  {
    if n > 0 {
      FromToBits(v / 2, n - 1);
      assert ToBits(v, n)[..n - 1] == ToBits(v / 2, n - 1);
    }
  }

  /** Writing two bit strings one after the other is multiplying by a power of two and adding. */
  lemma {:induction false} ToBitsConcat(hi: nat, lo: nat, n: nat, m: nat)
    requires lo < Pow2(m)
    ensures ToBits(hi * Pow2(m) + lo, n + m) == ToBits(hi, n) + ToBits(lo, m)
    decreases m
  {
    if m == 0 {
      assert hi * Pow2(0) + lo == hi;
    } else {
      var x, half := hi * Pow2(m) + lo, hi * Pow2(m - 1);
      assert hi * Pow2(m) == 2 * half;
      assert x / 2 == half + lo / 2 && x % 2 == lo % 2;
      ToBitsConcat(hi, lo / 2, n, m - 1);
    }
  }

  // ----- the codes of section 9.1, written down -----

  function Zeros(n: nat): (s: seq<Bit>)
    ensures |s| == n
  {
    seq(n, _ => 0)
  }

  function Log2(x: nat): (z: nat)
    requires x > 0
    ensures Pow2(z) <= x < 2 * Pow2(z)
  {
    if x == 1 then 0 else Log2(x / 2) + 1
  }

  /** ue(v): as many zeros as there are bits after the leading one of v + 1, then v + 1. */
  function UeBits(v: nat): seq<Bit> {
    var z := Log2(v + 1);
    Zeros(z) + [1] + ToBits(v + 1 - Pow2(z), z)
  }

  /** se(v) maps 0, 1, -1, 2, -2, ... to 0, 1, 2, 3, 4, ... */
  function SeCode(v: int): nat {
    if v > 0 then 2 * v - 1 else -2 * v
  }

  const MAX_UE: nat := 0xFFFF_FFFE

  // ----- the codes of section 9.1, read back -----

  function LeadingZeros(s: seq<Bit>): (z: nat)
    ensures z <= |s| && (z < |s| ==> s[z] == 1) && forall k :: 0 <= k < z ==> s[k] == 0
  {
    if s == [] || s[0] == 1 then 0 else 1 + LeadingZeros(s[1..])
  }

  /** A complete code of at most 31 zeros stands at the front: what `read_ue` needs. */
  predicate HasUe(s: seq<Bit>) {
    var z := LeadingZeros(s);
    z <= 31 && 2 * z + 1 <= |s|
  }

  function UeLength(s: seq<Bit>): nat {
    2 * LeadingZeros(s) + 1
  }

  function UeValue(s: seq<Bit>): nat
    requires HasUe(s)
  {
    var z := LeadingZeros(s);
    Pow2(z) - 1 + FromBits(s[z + 1..2 * z + 1])
  }

  /** `as i32` on a `u32`. */
  function ToI32(u: int): int {
    var w := u % 0x1_0000_0000;
    if w >= 0x8000_0000 then w - 0x1_0000_0000 else w
  }

  function TruncHalf(x: int): int {
    if x >= 0 then x / 2 else -((-x) / 2)
  }

  /** The arithmetic of `read_se` on a code number, in wrapping 32-bit integers. */
  function SeFromCode(u: nat): int {
    var c := ToI32(u);
    if c % 2 == 0 then ToI32(-TruncHalf(c)) else TruncHalf(ToI32(c + 1))
  }

  lemma AtMost31Zeros(v: nat)
    requires v <= MAX_UE
    ensures Log2(v + 1) <= 31
  {
    var z := Log2(v + 1);
    Pow2Values();
    if z >= 32 {
      Pow2Monotone(32, z);
    }
  }

  lemma UeBound(s: seq<Bit>)
    requires HasUe(s)
    ensures UeValue(s) <= MAX_UE
    ensures LeadingZeros(s) == 0 ==> UeValue(s) == 0
  {
    var z := LeadingZeros(s);
    Pow2Values();
    Pow2Monotone(z, 31);
    FromBitsBound(s[z + 1..2 * z + 1]);
    if z == 0 {
      assert s[1..1] == [];
    }
  }

  /** Every unsigned value a 31-zero code can carry is read back, and nothing after it is touched. */
  lemma UeRoundTrip(v: nat, rest: seq<Bit>)
    requires v <= MAX_UE
    ensures var s := UeBits(v) + rest;
            HasUe(s) && UeValue(s) == v && s[UeLength(s)..] == rest
  {
    var z := Log2(v + 1);
    AtMost31Zeros(v);
    CodeInPieces(z, ToBits(v + 1 - Pow2(z), z), rest);
    FromToBits(v + 1 - Pow2(z), z);
  }

  lemma CodeInPieces(z: nat, suffix: seq<Bit>, rest: seq<Bit>)
    requires |suffix| == z
    ensures var s := Zeros(z) + [1] + suffix + rest;
            LeadingZeros(s) == z && s[z + 1..2 * z + 1] == suffix && s[2 * z + 1..] == rest
  {
    var s := Zeros(z) + [1] + suffix + rest;
    assert s[z] == 1 && forall k :: 0 <= k < z ==> s[k] == 0;
    var y := LeadingZeros(s);
    assert y == z;
  }

  /** Signed values survive the 32-bit arithmetic exactly when their magnitude is below 2^30. */
  lemma SeRoundTripIff(v: int)
    requires SeCode(v) <= MAX_UE
    ensures SeFromCode(SeCode(v)) == v <==> -0x4000_0000 < v < 0x4000_0000
  {
    var u := SeCode(v);
    var c: int := if u < 0x8000_0000 then u else u as int - 0x1_0000_0000;
    assert ToI32(u) == c;
    if v > 0 {
      assert c % 2 == 1;
      assert ToI32(c + 1) == if c + 1 < 0x8000_0000 then c + 1 else -0x8000_0000;
    } else {
      assert c % 2 == 0;
      assert ToI32(-TruncHalf(c)) == -TruncHalf(c);
    }
  }

  // ----- the reader -----

  class BitReader {
    const data: seq<Byte>
    var pos: nat
    var cache: nat
    var cacheBits: nat

    ghost predicate Valid()
      reads this
    {
      pos % 8 == 0 && pos / 8 <= |data| && cacheBits <= 64 && cache < Pow2(cacheBits)
    }

    /** The bits not yet read. */
    ghost function Remaining(): seq<Bit>
      reads this
      requires Valid()
    {
      ToBits(cache, cacheBits) + BytesBits(data[pos / 8..])
    }

    constructor (data: seq<Byte>)
      ensures Valid() && Remaining() == BytesBits(data)
    {
      this.data := data;
      pos := 0;
      cache := 0;
      cacheBits := 0;
      new;
      assert data[0..] == data;
    }

    method Refill()
      requires Valid()
      modifies this
      ensures Valid() && Remaining() == old(Remaining())
      ensures cacheBits > 56 || pos / 8 == |data|
    {
      while cacheBits <= 56
        invariant Valid() && Remaining() == old(Remaining())
        decreases |data| - pos / 8
      {
        var bytePos := pos / 8;
        if bytePos >= |data| {
          break;
        }
        var b := data[bytePos];
        AppendByte(cache, cacheBits, b, data[bytePos..]);
        assert data[bytePos..][1..] == data[bytePos + 1..];
        cache := cache * 256 % U64;
        cache := cache + b;
        cacheBits := cacheBits + 8;
        pos := pos + 8;
      }
    }

    method ReadBits(n: nat) returns (val: nat)
      requires Valid() && 1 <= n <= 32 && n <= |Remaining()|
      modifies this
      ensures Valid() && Remaining() == old(Remaining()[n..])
      ensures val == FromBits(old(Remaining()[..n])) && val < Pow2(n)
    {
      if cacheBits < n {
        Refill();
        assert pos / 8 == |data| ==> data[pos / 8..] == [];
      }
      var shift := cacheBits - n;
      TakeTop(cache, cacheBits, n, BytesBits(data[pos / 8..]));
      val := Mask(Shr(cache, shift), n);
      cacheBits := cacheBits - n;
      cache := Mask(cache, cacheBits);
    }

    /** The loop of `read_ue`: zeros are counted and the one that ends them is consumed. */
    method SkipZeros() returns (leadingZeroBits: nat)
      requires Valid() && LeadingZeros(Remaining()) < |Remaining()|
      modifies this
      ensures Valid() && leadingZeroBits == LeadingZeros(old(Remaining()))
      ensures Remaining() == old(Remaining())[leadingZeroBits + 1..]
    {
      ghost var s := Remaining();
      ghost var z := LeadingZeros(s);
      leadingZeroBits := 0;
      TakeOne(s, 0);
      var bit := ReadBits(1);
      while bit == 0
        invariant Valid() && leadingZeroBits <= z
        invariant Remaining() == s[leadingZeroBits + 1..] && bit == s[leadingZeroBits]
        decreases z - leadingZeroBits
      {
        leadingZeroBits := leadingZeroBits + 1;
        TakeOne(s, leadingZeroBits);
        bit := ReadBits(1);
      }
    }

    method ReadUe() returns (val: nat)
      requires Valid() && HasUe(Remaining())
      modifies this
      ensures Valid() && Remaining() == old(Remaining()[UeLength(Remaining())..])
      ensures val == UeValue(old(Remaining())) && val <= MAX_UE
    {
      ghost var s := Remaining();
      UeBound(s);
      var leadingZeroBits := SkipZeros();
      if leadingZeroBits == 0 {
        return 0;
      }
      TakeSuffix(s, leadingZeroBits);
      var suffix := ReadBits(leadingZeroBits);
      val := Pow2(leadingZeroBits) - 1 + suffix;
    }

    method ReadSe() returns (val: int)
      requires Valid() && HasUe(Remaining())
      modifies this
      ensures Valid() && Remaining() == old(Remaining()[UeLength(Remaining())..])
      ensures val == SeFromCode(UeValue(old(Remaining())))
    {
      var u := ReadUe();
      var codeNum := ToI32(u);
      if codeNum % 2 == 0 {
        val := ToI32(-TruncHalf(codeNum));
      } else {
        val := TruncHalf(ToI32(codeNum + 1));
      }
    }

    method ReadField(ghost f: Field, kind: Kind, ghost rest: seq<Bit>) returns (v: int)
      requires Valid() && ReadableField(f) && kind == KindOf(f)
      requires Remaining() == FieldBits(f) + rest
      modifies this
      ensures Valid() && Remaining() == rest && v == ValueOf(f)
    {
      FieldRoundTrip(f, rest);
      match kind
      case OfFixed(n) => v := ReadBits(n);
      case OfUe => v := ReadUe();
      case OfSe => v := ReadSe();
    }

    /** A client: one value per field, in order, as `parse` reads a parameter set. */
    method ReadFields(ghost fields: seq<Field>, kinds: seq<Kind>, ghost rest: seq<Bit>)
      returns (values: seq<int>)
      requires Valid() && Readable(fields) && kinds == Kinds(fields)
      requires Remaining() == Encode(fields) + rest
      modifies this
      ensures Valid() && Remaining() == rest
      ensures values == Values(fields)
    {
      values := [];
      var i := 0;
      while i < |kinds|
        invariant i <= |kinds| && Valid()
        invariant ReadSoFar(fields, i, rest, Remaining(), values)
      {
        FieldFirst(fields, i, rest);
        var v := ReadField(fields[i], kinds[i], Encode(fields[i + 1..]) + rest);
        values := values + [v];
        i := i + 1;
      }
      AllRead(fields, rest, Remaining(), values);
    }
  }

  lemma AppendByte(cache: nat, k: nat, b: Byte, rest: seq<Byte>)
    requires k <= 56 && cache < Pow2(k) && rest != [] && rest[0] == b
    ensures cache * 256 % U64 == cache * 256 && cache * 256 + b < Pow2(k + 8)
    ensures ToBits(cache * 256 + b, k + 8) + BytesBits(rest[1..]) == ToBits(cache, k) + BytesBits(rest)
  {
    Pow2Values();
    Pow2Add(k, 8);
    Pow2Monotone(k + 8, 64);
    ToBitsConcat(cache, b, k, 8);
    Regroup(ToBits(cache, k), ToBits(b, 8), BytesBits(rest[1..]));
  }

  lemma Regroup(a: seq<Bit>, b: seq<Bit>, c: seq<Bit>)
    ensures (a + b) + c == a + (b + c)
  {
  }

  lemma TopFits(cache: nat, top: nat, low: nat, n: nat, shift: nat)
    requires cache == top * Pow2(shift) + low && cache < Pow2(n + shift)
    ensures top < Pow2(n)
  {
    Pow2Add(n, shift);
    MulAtLeast(Pow2(shift), top - Pow2(n));
    assert top * Pow2(shift) == Pow2(n) * Pow2(shift) + Pow2(shift) * (top - Pow2(n));
  }

  lemma TakeTop(cache: nat, k: nat, n: nat, rest: seq<Bit>)
    requires 1 <= n <= k && cache < Pow2(k)
    ensures var s, shift := ToBits(cache, k) + rest, k - n;
            && Mask(Shr(cache, shift), n) == FromBits(s[..n]) < Pow2(n)
            && s[n..] == ToBits(Mask(cache, shift), shift) + rest
  {
    var shift := k - n;
    var top, low := Shr(cache, shift), Mask(cache, shift);
    ShrMask(cache, shift);
    TopFits(cache, top, low, n, shift);
    DivModUnique(top, Pow2(n), 0, top);
    ToBitsConcat(top, low, n, shift);
    FromToBits(top, n);
    CutAt(ToBits(top, n), ToBits(low, shift), rest);
  }

  lemma CutAt(a: seq<Bit>, b: seq<Bit>, c: seq<Bit>)
    ensures (a + b + c)[..|a|] == a && (a + b + c)[|a|..] == b + c
  {
  }

  lemma TakeOne(s: seq<Bit>, k: nat)
    requires k < |s|
    ensures FromBits(s[k..][..1]) == s[k] && s[k..][1..] == s[k + 1..]
  {
    var one := s[k..][..1];
    assert one[..0] == [] && FromBits(one[..0]) == 0;
  }

  lemma TakeSuffix(s: seq<Bit>, z: nat)
    requires 2 * z + 1 <= |s|
    ensures s[z + 1..][..z] == s[z + 1..2 * z + 1] && s[z + 1..][z..] == s[2 * z + 1..]
  {
  }

  // ----- lists of fields -----

  datatype Field = Fixed(width: nat, bits: nat) | Ue(ue: nat) | Se(se: int)
  datatype Kind = OfFixed(width: nat) | OfUe | OfSe

  predicate ReadableField(f: Field) {
    match f
    case Fixed(n, v) => 1 <= n <= 32 && v < Pow2(n)
    case Ue(v) => v <= MAX_UE
    case Se(v) => -0x4000_0000 < v < 0x4000_0000
  }

  ghost predicate Readable(fields: seq<Field>) {
    forall f :: f in fields ==> ReadableField(f)
  }

  function FieldBits(f: Field): seq<Bit> {
    match f
    case Fixed(n, v) => ToBits(v, n)
    case Ue(v) => UeBits(v)
    case Se(v) => UeBits(SeCode(v))
  }

  function KindOf(f: Field): Kind {
    match f
    case Fixed(n, _) => OfFixed(n)
    case Ue(_) => OfUe
    case Se(_) => OfSe
  }

  function ValueOf(f: Field): int {
    match f
    case Fixed(_, v) => v
    case Ue(v) => v
    case Se(v) => v
  }

  function Encode(fields: seq<Field>): seq<Bit> {
    if fields == [] then [] else FieldBits(fields[0]) + Encode(fields[1..])
  }

  function Kinds(fields: seq<Field>): seq<Kind> {
    seq(|fields|, i requires 0 <= i < |fields| => KindOf(fields[i]))
  }

  function Values(fields: seq<Field>): seq<int> {
    seq(|fields|, i requires 0 <= i < |fields| => ValueOf(fields[i]))
  }

  /** `i` fields have been read: their values, and what is left to read. */
  ghost predicate ReadSoFar(fields: seq<Field>, i: nat, rest: seq<Bit>, remaining: seq<Bit>, values: seq<int>) {
    && i <= |fields| && remaining == Encode(fields[i..]) + rest
    && |values| == i && forall k :: 0 <= k < i ==> values[k] == ValueOf(fields[k])
  }

  lemma AllRead(fields: seq<Field>, rest: seq<Bit>, remaining: seq<Bit>, values: seq<int>)
    requires ReadSoFar(fields, |fields|, rest, remaining, values)
    ensures remaining == rest && values == Values(fields)
  {
    assert fields[|fields|..] == [];
  }

  lemma FieldFirst(fields: seq<Field>, i: nat, rest: seq<Bit>)
    requires i < |fields|
    ensures Encode(fields[i..]) + rest == FieldBits(fields[i]) + (Encode(fields[i + 1..]) + rest)
  {
    assert fields[i..][1..] == fields[i + 1..];
  }

  /** The reader's function for a field's kind returns the field's value and leaves the rest. */
  lemma FieldRoundTrip(f: Field, rest: seq<Bit>)
    requires ReadableField(f)
    ensures var s := FieldBits(f) + rest;
            match f
            case Fixed(n, v) => n <= |s| && FromBits(s[..n]) == v && s[n..] == rest
            case Ue(v) => HasUe(s) && UeValue(s) == v && s[UeLength(s)..] == rest
            case Se(v) => HasUe(s) && SeFromCode(UeValue(s)) == v && s[UeLength(s)..] == rest
  {
    match f
    case Fixed(n, v) =>
      FromToBits(v, n);
      assert (ToBits(v, n) + rest)[..n] == ToBits(v, n);
    case Ue(v) => UeRoundTrip(v, rest);
    case Se(v) =>
      SeRoundTripIff(v);
      UeRoundTrip(SeCode(v), rest);
  }
}
