/** Finding the sequence parameter set in an H.264 byte stream and undoing emulation prevention
  * (src/pes/es_parsers.rs:168-260; Annex B and section 7.4.1 of ITU-T H.264). */
module AnnexB {
  import opened Common
  import opened Bits

  const SPS_TYPE: int := 7

  // ----- the code -----

  predicate StartCode(s: Bytes) {
    |s| >= 3 && s[0] == 0 && s[1] == 0 && s[2] == 1
  }

  predicate LongStartCode(s: Bytes) {
    |s| >= 4 && s[0] == 0 && s[1] == 0 && s[2] == 0 && s[3] == 1
  }

  /** Distance to the next start code, or to the end of the data (step 2 of `find_sps`). */
  function NalEnd(s: Bytes): (n: nat)
    ensures n <= |s|
    ensures n == 0 ==> |s| == 0 || s[0] == 0
  {
    if |s| < 3 then |s|
    else if StartCode(s) || LongStartCode(s) then 0
    else 1 + NalEnd(s[1..])
  }

  function StripZeros(s: Bytes): (r: Bytes)
    ensures r <= s && (s != [] && s[0] != 0 ==> r != [])
  {
    if s == [] || s[|s| - 1] != 0 then s else StripZeros(s[..|s| - 1])
  }

  /** `find_sps` on what is left of the data. */
  function FindSps(s: Bytes): Option<Bytes>
    decreases |s|
  {
    if |s| < 3 then None
    else if !StartCode(s) then FindSps(s[1..])
    else
      var body := s[3..];
      var n := NalEnd(body);
      if body != [] && body[0] % 32 == SPS_TYPE then Some(StripZeros(body[..n])[1..])
      else FindSps(body[n..])
  }

  /** One step of `find_sps`, in terms of positions. */
  lemma FindSpsAt(data: Bytes, i: nat)
    requires i + 3 <= |data|
    ensures FindSps(data[i..]) ==
            if !StartCode(data[i..]) then FindSps(data[i + 1..])
            else
              var end := i + 3 + NalEnd(data[i + 3..]);
              if i + 3 < |data| && data[i + 3] % 32 == SPS_TYPE
              then Some(StripZeros(data[i + 3..end])[1..])
              else FindSps(data[end..])
  {
    assert data[i..][1..] == data[i + 1..];
    assert data[i..][3..] == data[i + 3..];
    var n := NalEnd(data[i + 3..]);
    assert data[i + 3..][..n] == data[i + 3..i + 3 + n];
    assert data[i + 3..][n..] == data[i + 3 + n..];
  }

  /** The length is subtracted from without a check, so the source needs two bytes. */
  method FindSpsIn(data: Bytes) returns (sps: Option<Bytes>)
    requires |data| >= 2
    ensures sps == FindSps(data)
  {
    var i := 0;
    var len := |data|;
    assert data[0..] == data;
    while i < len - 2
      invariant i <= len && FindSps(data[i..]) == FindSps(data)
      decreases len - i
    {
      FindSpsAt(data, i);
      if data[i] == 0 && data[i + 1] == 0 && data[i + 2] == 1 {
        var dataStart := i + 3;
        var nextStart := NextStart(data, dataStart);
        if dataStart < len {
          var headerByte := data[dataStart];
          var nalType := headerByte % 32;
          var dataEnd := TrimZeros(data, dataStart, nextStart);
          if nalType == SPS_TYPE {
            assert data[dataStart..dataEnd][1..] == data[dataStart + 1..dataEnd];
            return Some(data[dataStart + 1..dataEnd]);
          }
        }
        i := nextStart;
      } else {
        i := i + 1;
      }
    }
    sps := None;
  }

  /** The trailing zero bytes that precede a start code do not belong to the unit. */
  method TrimZeros(data: Bytes, dataStart: nat, nextStart: nat) returns (dataEnd: nat)
    requires dataStart <= nextStart <= |data|
    ensures dataStart <= dataEnd <= nextStart
    ensures data[dataStart..dataEnd] == StripZeros(data[dataStart..nextStart])
    ensures dataStart < nextStart && data[dataStart] != 0 ==> dataStart < dataEnd
  {
    dataEnd := nextStart;
    while dataEnd > dataStart && data[dataEnd - 1] == 0
      invariant dataStart <= dataEnd <= nextStart
      invariant StripZeros(data[dataStart..dataEnd]) == StripZeros(data[dataStart..nextStart])
    {
      TrimOne(data, dataStart, dataEnd);
      dataEnd := dataEnd - 1;
    }
  }

  lemma TrimOne(data: Bytes, i: nat, j: nat)
    requires i < j <= |data| && data[j - 1] == 0
    ensures StripZeros(data[i..j]) == StripZeros(data[i..j - 1])
  {
    var s := data[i..j];
    assert s[|s| - 1] == data[j - 1];
    assert s[..|s| - 1] == data[i..j - 1];
  }

  /** The inner loop of `find_sps`. */
  method NextStart(data: Bytes, dataStart: nat) returns (nextStart: nat)
    requires dataStart <= |data|
    ensures nextStart == dataStart + NalEnd(data[dataStart..])
  {
    nextStart := |data|;
    var j := dataStart;
    while j < |data| - 2
      invariant dataStart <= j <= |data|
      invariant j + NalEnd(data[j..]) == dataStart + NalEnd(data[dataStart..])
    {
      if data[j] == 0 && data[j + 1] == 0 {
        if data[j + 2] == 1 {
          nextStart := j;
          return;
        }
        if j + 3 < |data| && data[j + 2] == 0 && data[j + 3] == 1 {
          nextStart := j;
          return;
        }
      }
      assert data[j..][1..] == data[j + 1..];
      j := j + 1;
    }
  }

  /** `ebsp_to_rbsp` with `zeros` zero bytes just seen. */
  function Unescape(s: Bytes, zeros: nat): Bytes {
    if s == [] then []
    else if zeros == 2 && s[0] == 3 then Unescape(s[1..], 0)
    else [s[0]] + Unescape(s[1..], if s[0] == 0 then zeros + 1 else 0)
  }

  method EbspToRbsp(data: Bytes) returns (out: Bytes)
    ensures out == Unescape(data, 0)
  {
    out := [];
    var zeroCount := 0;
    var i := 0;
    assert data[0..] == data;
    while i < |data|
      invariant i <= |data| && out + Unescape(data[i..], zeroCount) == Unescape(data, 0)
    {
      var b := data[i];
      assert data[i..][1..] == data[i + 1..];
      i := i + 1;
      if zeroCount == 2 && b == 3 {
        zeroCount := 0;
      } else {
        out := out + [b];
        zeroCount := if b == 0 then zeroCount + 1 else 0;
      }
    }
  }

  // ----- the writer's side, from the standard -----

  /** Section 7.4.1: a 03 goes in front of any byte 00 to 03 that follows two zero bytes. */
  function Escape(s: Bytes, zeros: nat): Bytes {
    if s == [] then []
    else if zeros >= 2 && s[0] <= 3 then [3, s[0]] + Escape(s[1..], if s[0] == 0 then 1 else 0)
    else [s[0]] + Escape(s[1..], if s[0] == 0 then zeros + 1 else 0)
  }

  /** Section 7.4.1.1: what a NAL unit may not contain or end in. */
  predicate Conforming(nal: Bytes) {
    nal != [] && nal[|nal| - 1] != 0 &&
    forall k :: 0 <= k < |nal| - 2 ==> !(nal[k] == 0 && nal[k + 1] == 0 && nal[k + 2] <= 2)
  }

  /** Annex B: each unit behind any number of zero bytes and a three-byte start code; zero bytes at
    * the end. */
  function ByteStream(units: seq<(nat, Bytes)>, tail: nat): Bytes {
    if units == [] then Fill(tail, 0)
    else Fill(units[0].0, 0) + ([0, 0, 1] + (units[0].1 + ByteStream(units[1..], tail)))
  }

  function FirstSps(units: seq<(nat, Bytes)>): Option<Bytes> {
    if units == [] then None
    else if units[0].1 != [] && units[0].1[0] % 32 == SPS_TYPE then Some(units[0].1[1..])
    else FirstSps(units[1..])
  }

  // ----- emulation prevention is undone -----

  lemma {:induction false} UnescapeEscape(s: Bytes, zeros: nat)
    requires zeros <= 2
    ensures Unescape(Escape(s, zeros), zeros) == s
    decreases |s|
  {
    if s != [] {
      if zeros >= 2 && s[0] <= 3 {
        var z := if s[0] == 0 then 1 else 0;
        UnescapeEscape(s[1..], z);
        UnescapePrevented(s[0], Escape(s[1..], z));
      } else {
        var z := if s[0] == 0 then zeros + 1 else 0;
        UnescapeEscape(s[1..], z);
        UnescapePlain(s[0], Escape(s[1..], z), zeros);
      }
    }
  }

  lemma UnescapePlain(x: Byte, rest: Bytes, zeros: nat)
    requires !(zeros == 2 && x == 3)
    ensures Unescape([x] + rest, zeros) == [x] + Unescape(rest, if x == 0 then zeros + 1 else 0)
  {
    assert ([x] + rest)[1..] == rest;
  }

  lemma UnescapePrevented(x: Byte, rest: Bytes)
    ensures Unescape([3, x] + rest, 2) == [x] + Unescape(rest, if x == 0 then 1 else 0)
  {
    assert ([3, x] + rest)[1..] == [x] + rest;
    UnescapePlain(x, rest, 0);
  }

  /** No forbidden pattern, even one that starts in `zeros` zero bytes in front. */
  predicate CleanAfter(s: Bytes, zeros: nat) {
    s == [] || (!(zeros >= 2 && s[0] <= 2) && CleanAfter(s[1..], if s[0] == 0 then zeros + 1 else 0))
  }

  lemma {:induction false} EscapeClean(s: Bytes, zeros: nat)
    requires zeros <= 2
    ensures CleanAfter(Escape(s, zeros), zeros)
    ensures s != [] && s[|s| - 1] != 0 ==>
              var e := Escape(s, zeros); e != [] && e[|e| - 1] != 0
    decreases |s|
  {
    if s != [] {
      var e := Escape(s, zeros);
      if zeros >= 2 && s[0] <= 3 {
        var z := if s[0] == 0 then 1 else 0;
        EscapeClean(s[1..], z);
        assert e[1..] == [s[0]] + Escape(s[1..], z);
        assert e[1..][1..] == Escape(s[1..], z);
      } else {
        EscapeClean(s[1..], if s[0] == 0 then zeros + 1 else 0);
        assert e[1..] == Escape(s[1..], if s[0] == 0 then zeros + 1 else 0);
      }
    }
  }

  lemma {:induction false} CleanHasNoPattern(s: Bytes, zeros: nat, k: nat)
    requires CleanAfter(s, zeros) && k + 2 < |s|
    ensures !(s[k] == 0 && s[k + 1] == 0 && s[k + 2] <= 2)
    decreases k
  {
    var z := if s[0] == 0 then zeros + 1 else 0;
    if k > 0 {
      CleanHasNoPattern(s[1..], z, k - 1);
    } else if s[0] == 0 && s[1] == 0 {
      assert CleanAfter(s[1..][1..], z + 1);
      assert s[1..][1..][0] == s[2];
    }
  }

  lemma CleanBehindHeader(header: Byte, s: Bytes)
    requires header != 0 && CleanAfter(s, 0)
    ensures CleanAfter([header] + s, 0)
  {
    assert ([header] + s)[1..] == s;
  }

  /** A nonzero header and an escaped payload that ends in a nonzero byte make a NAL unit. */
  lemma EscapedIsConforming(header: Byte, rbsp: Bytes)
    requires header != 0 && (rbsp != [] ==> rbsp[|rbsp| - 1] != 0)
    ensures Conforming([header] + Escape(rbsp, 0))
  {
    var e := Escape(rbsp, 0);
    EscapeClean(rbsp, 0);
    CleanBehindHeader(header, e);
    var nal := [header] + e;
    assert e != [] ==> nal[|nal| - 1] == e[|e| - 1];
    CleanIsConforming(nal);
  }

  lemma CleanIsConforming(nal: Bytes)
    requires CleanAfter(nal, 0) && nal != [] && nal[|nal| - 1] != 0
    ensures Conforming(nal)
  {
    forall k | 0 <= k < |nal| - 2
      ensures !(nal[k] == 0 && nal[k + 1] == 0 && nal[k + 2] <= 2)
    {
      CleanHasNoPattern(nal, 0, k);
    }
  }

  // ----- the scanner finds the units -----

  lemma {:induction false} EndOfNal(nal: Bytes, rest: Bytes)
    requires nal == [] || Conforming(nal)
    ensures NalEnd(nal + rest) == |nal| + NalEnd(rest)
    decreases |nal|
  {
    if nal == [] {
      assert nal + rest == rest;
    } else {
      var s := nal + rest;
      assert s[1..] == nal[1..] + rest;
      forall k | 0 <= k < |nal[1..]| - 2
        ensures !(nal[1..][k] == 0 && nal[1..][k + 1] == 0 && nal[1..][k + 2] <= 2)
      {
        assert !(nal[k + 1] == 0 && nal[k + 2] == 0 && nal[k + 3] <= 2);
      }
      EndOfNal(nal[1..], rest);
      if |s| >= 3 {
        if |nal| >= 3 {
          assert !(nal[0] == 0 && nal[1] == 0 && nal[2] <= 2);
        }
        assert !StartCode(s) && !LongStartCode(s);
      } else {
        ShortEnd(s[1..]);
      }
    }
  }

  lemma ShortEnd(s: Bytes)
    requires |s| < 3
    ensures NalEnd(s) == |s|
  {
  }

  lemma {:induction false} EndOfZeros(zeros: nat, rest: Bytes)
    requires rest == [] || StartCode(rest)
    ensures NalEnd(Fill(zeros, 0) + rest) == if rest == [] then zeros else if zeros == 0 then 0 else zeros - 1
    decreases zeros
  {
    var s := Fill(zeros, 0) + rest;
    if zeros > 0 {
      assert s[1..] == Fill(zeros - 1, 0) + rest;
      EndOfZeros(zeros - 1, rest);
      if |s| >= 3 {
        assert !StartCode(s);
        assert rest != [] ==> (LongStartCode(s) <==> zeros == 1);
      }
    } else {
      assert s == rest;
    }
  }

  lemma {:induction false} SkipZeroBytes(zeros: nat, rest: Bytes)
    requires rest == [] || StartCode(rest)
    ensures FindSps(Fill(zeros, 0) + rest) == FindSps(rest)
    decreases zeros
  {
    var s := Fill(zeros, 0) + rest;
    if zeros > 0 {
      assert s[1..] == Fill(zeros - 1, 0) + rest;
      SkipZeroBytes(zeros - 1, rest);
      assert !StartCode(s);
      if |s| < 3 {
        assert rest == [];
      }
    } else {
      assert s == rest;
    }
  }

  lemma {:induction false} StripsTo(nal: Bytes, zeros: nat)
    requires nal != [] && nal[|nal| - 1] != 0
    ensures StripZeros(nal + Fill(zeros, 0)) == nal
    decreases zeros
  {
    var s := nal + Fill(zeros, 0);
    if zeros > 0 {
      assert s[..|s| - 1] == nal + Fill(zeros - 1, 0);
      StripsTo(nal, zeros - 1);
    } else {
      assert s == nal;
    }
  }

  /** From any byte stream of conforming units, with any zero padding, the scanner returns the
    * payload of the first unit of type 7, or nothing if there is none. */
  lemma {:induction false} FindsFirstSps(units: seq<(nat, Bytes)>, tail: nat)
    requires forall u :: u in units ==> Conforming(u.1)
    ensures FindSps(ByteStream(units, tail)) == FirstSps(units)
    decreases |units|
  {
    if units == [] {
      SkipZeroBytes(tail, []);
      assert Fill(tail, 0) + [] == Fill(tail, 0);
    } else {
      assert units[0] in units;
      var (pad, nal) := units[0];
      var rest := ByteStream(units[1..], tail);
      SkipZeroBytes(pad, [0, 0, 1] + (nal + rest));
      var n := FirstUnitEnd(units[1..], tail);
      FirstUnit(nal, rest, n);
      FindsFirstSps(units[1..], tail);
    }
  }

  /** One unit behind its start code, in front of what the scanner may stop at. */
  lemma FirstUnit(nal: Bytes, rest: Bytes, n: nat)
    requires Conforming(nal) && n == NalEnd(rest) <= |rest| && rest[..n] == Fill(n, 0)
    ensures FindSps([0, 0, 1] + (nal + rest))
            == if nal[0] % 32 == SPS_TYPE then Some(nal[1..]) else FindSps(rest[n..])
  {
    var body := nal + rest;
    EndOfNal(nal, rest);
    JoinedAt(nal, rest, n);
    StripsTo(nal, n);
    UnitAtStartCode(body, nal);
  }

  lemma UnitAtStartCode(body: Bytes, nal: Bytes)
    requires body != [] && nal != [] && body[0] == nal[0] && StripZeros(body[..NalEnd(body)]) == nal
    ensures FindSps([0, 0, 1] + body)
            == if nal[0] % 32 == SPS_TYPE then Some(nal[1..]) else FindSps(body[NalEnd(body)..])
  {
    AtStartCode(body);
  }

  lemma JoinedAt(a: Bytes, b: Bytes, n: nat)
    requires n <= |b|
    ensures (a + b)[..|a| + n] == a + b[..n] && (a + b)[|a| + n..] == b[n..]
  {
  }

  lemma AtStartCode(body: Bytes)
    requires body != []
    ensures var n := NalEnd(body);
            FindSps([0, 0, 1] + body)
            == if body[0] % 32 == SPS_TYPE then Some(StripZeros(body[..n])[1..]) else FindSps(body[n..])
  {
    var s := [0, 0, 1] + body;
    assert StartCode(s) && s[3..] == body;
  }

  /** Between two units the scanner stops on a start code, one zero byte early if there is one, and
    * what it steps over are zero bytes that do not matter. */
  lemma FirstUnitEnd(units: seq<(nat, Bytes)>, tail: nat) returns (n: nat)
    ensures var s := ByteStream(units, tail);
            n == NalEnd(s) && s[..n] == Fill(n, 0) && FindSps(s[n..]) == FindSps(s)
  {
    var s := ByteStream(units, tail);
    var pad := if units == [] then tail else units[0].0;
    var rest := s[pad..];
    assert units != [] ==> rest == [0, 0, 1] + (units[0].1 + ByteStream(units[1..], tail));
    assert s == Fill(pad, 0) + rest;
    n := EndOfPadding(pad, rest);
  }

  lemma EndOfPadding(pad: nat, rest: Bytes) returns (n: nat)
    requires rest == [] || StartCode(rest)
    ensures var s := Fill(pad, 0) + rest;
            n == NalEnd(s) && s[..n] == Fill(n, 0) && FindSps(s[n..]) == FindSps(s)
  {
    var s := Fill(pad, 0) + rest;
    EndOfZeros(pad, rest);
    n := NalEnd(s);
    SkipZeroBytes(pad, rest);
    SkipZeroBytes(pad - n, rest);
    assert s[n..] == Fill(pad - n, 0) + rest;
  }

  // ----- from the byte stream to the decoded fields -----

  /** A unit before escaping, with the zero bytes in front of its start code. */
  datatype Unit = Unit(padding: nat, header: Byte, rbsp: Bytes)

  predicate WellFormed(u: Unit) {
    u.header != 0 && (u.rbsp != [] ==> u.rbsp[|u.rbsp| - 1] != 0)
  }

  function Escaped(u: Unit): (nat, Bytes) {
    (u.padding, [u.header] + Escape(u.rbsp, 0))
  }

  function EscapedAll(units: seq<Unit>): (r: seq<(nat, Bytes)>)
    ensures |r| == |units|
  {
    seq(|units|, i requires 0 <= i < |units| => Escaped(units[i]))
  }

  function FirstRbsp(units: seq<Unit>): Option<Bytes> {
    if units == [] then None
    else if units[0].header % 32 == SPS_TYPE then Some(units[0].rbsp)
    else FirstRbsp(units[1..])
  }

  lemma {:induction false} FirstSpsIsEscaped(units: seq<Unit>)
    requires forall u :: u in units ==> WellFormed(u)
    ensures forall u :: u in EscapedAll(units) ==> Conforming(u.1)
    ensures var found := FirstSps(EscapedAll(units));
            match FirstRbsp(units)
            case None => found == None
            case Some(rbsp) => found == Some(Escape(rbsp, 0))
    decreases |units|
  {
    var es := EscapedAll(units);
    if units != [] {
      assert units[0] in units;
      EscapedIsConforming(units[0].header, units[0].rbsp);
      FirstSpsIsEscaped(units[1..]);
      assert es == [Escaped(units[0])] + EscapedAll(units[1..]);
      assert es[1..] == EscapedAll(units[1..]);
      assert es[0].1[1..] == Escape(units[0].rbsp, 0);
    }
  }

  /** The payload of the first parameter set comes back exactly as it was before escaping. */
  lemma SpsRecovered(units: seq<Unit>, tail: nat)
    requires forall u :: u in units ==> WellFormed(u)
    ensures var found := FindSps(ByteStream(EscapedAll(units), tail));
            match FirstRbsp(units)
            case None => found == None
            case Some(rbsp) => found.Some? && Unescape(found.value, 0) == rbsp
  {
    FirstSpsIsEscaped(units);
    FindsFirstSps(EscapedAll(units), tail);
    match FirstRbsp(units)
    case None =>
    case Some(rbsp) => UnescapeEscape(rbsp, 0);
  }

  datatype SpsHead = SpsHead(profileIdc: nat, levelIdc: nat, spsId: nat)

  /** The head of `parse`: find the set, undo escaping, read profile, flags, level and identifier.
    * On a stream whose first parameter set carries these fields, these are the values read. */
  method ParseSpsHead(data: Bytes, ghost units: seq<Unit>, ghost tail: nat, ghost flags: nat,
                      ghost head: SpsHead, ghost rest: seq<Bit>)
    returns (r: Option<SpsHead>)
    requires |data| >= 2 && data == ByteStream(EscapedAll(units), tail)
    requires forall u :: u in units ==> WellFormed(u)
    requires FirstRbsp(units).Some? && |FirstRbsp(units).value| >= 3
    requires head.profileIdc < 256 && flags < 256 && head.levelIdc < 256 && head.spsId <= MAX_UE
    requires BytesBits(FirstRbsp(units).value)
             == Encode([Fixed(8, head.profileIdc), Fixed(8, flags), Fixed(8, head.levelIdc), Ue(head.spsId)])
                + rest
    ensures r == Some(head)
  {
    SpsRecovered(units, tail);
    var ebsp := FindSpsIn(data);
    if ebsp.None? {
      return None;
    }
    var rbsp := EbspToRbsp(ebsp.value);
    if |rbsp| < 3 {
      return None;
    }
    var br := new BitReader(rbsp);
    ghost var fields :=
      [Fixed(8, head.profileIdc), Fixed(8, flags), Fixed(8, head.levelIdc), Ue(head.spsId)];
    Pow2Values();
    var vs := br.ReadFields(fields, [OfFixed(8), OfFixed(8), OfFixed(8), OfUe], rest);
    assert vs[0] == head.profileIdc && vs[2] == head.levelIdc && vs[3] == head.spsId;
    r := Some(SpsHead(vs[0], vs[2], vs[3]));
  }
}
