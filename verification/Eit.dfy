/** Present/following event information (src/psi/eit.rs; sections 5.2.4 and 6.2.15 of
  * ETSI EN 300 468): long descriptions cut into extended event descriptors. */
module Eit {
  import opened Common
  import opened Sections
  import opened DvbTime
  import MpegCrc
  import Pmt

  const EIT_PID: Pid := 0x12
  const MAX_TEXT_CHUNK: nat := 246
  const SHORT_TAG: Byte := 0x4D
  const EXTENDED_TAG: Byte := 0x4E

  // ----- text -----

  /** Number of bytes of a character, by its first byte. */
  function CharLength(b: Byte): nat {
    if b < 0x80 then 1
    else if 0xC2 <= b <= 0xDF then 2
    else if 0xE0 <= b <= 0xEF then 3
    else if 0xF0 <= b <= 0xF4 then 4
    else 0
  }

  predicate Continuation(b: Byte) {
    0x80 <= b < 0xC0
  }

  /** The bytes of a `str`: whole characters, each a first byte and its continuation bytes. */
  predicate Utf8(t: Bytes) {
    t == [] ||
    (var n := CharLength(t[0]);
     0 < n <= |t| && (forall k :: 1 <= k < n ==> Continuation(t[k])) && Utf8(t[n..]))
  }

  /** `is_char_boundary`. */
  predicate Boundary(t: Bytes, i: nat) {
    i == 0 || i == |t| || (i < |t| && !Continuation(t[i]))
  }

  /** `floor_char_boundary`, and the loop of `dvb_text`: the last boundary up to `i`. */
  function FloorBoundary(t: Bytes, i: nat): (r: nat)
    requires i <= |t|
    ensures r <= i && Boundary(t, r)
    ensures forall k :: r < k <= i ==> !Boundary(t, k)
  {
    if Boundary(t, i) then i else FloorBoundary(t, i - 1)
  }

  /** Characters have at most four bytes, so a boundary is never more than three bytes away. */
  lemma {:induction false} BoundaryNear(t: Bytes, i: nat)
    requires Utf8(t) && i <= |t|
    ensures FloorBoundary(t, i) + 3 >= i
    decreases |t|
  {
    if i == 0 || i < CharLength(t[0]) {
      WithinFirst(t, i);
    } else {
      var n := CharLength(t[0]);
      BoundaryNear(t[n..], i - n);
      RestBoundary(t, n);
      ShiftedBoundary(t, n, i);
    }
  }

  /** A text cut at a boundary is two texts. */
  lemma {:induction false} CutAtBoundary(t: Bytes, r: nat)
    requires Utf8(t) && r <= |t| && Boundary(t, r)
    ensures Utf8(t[..r]) && Utf8(t[r..])
    decreases |t|
  {
    if r == 0 {
      assert t[0..] == t;
    } else {
      var n := CharLength(t[0]);
      assert n <= r;
      CutAtBoundary(t[n..], r - n);
      FirstCharacter(t, n, r - n);
      assert t[r..] == t[n..][r - n..];
    }
  }

  lemma WithinFirst(t: Bytes, i: nat)
    requires Utf8(t) && i <= |t| && (i == 0 || i < CharLength(t[0]))
    ensures FloorBoundary(t, i) == 0 && i <= 3
  {
    var r := FloorBoundary(t, i);
    assert forall k :: 1 <= k <= i ==> !Boundary(t, k);
  }

  lemma FirstCharacter(t: Bytes, n: nat, q: nat)
    requires Utf8(t) && t != [] && n == CharLength(t[0]) && q + n <= |t| && Utf8(t[n..][..q])
    ensures Utf8(t[..q + n])
  {
    assert t[..q + n][n..] == t[n..][..q];
  }

  /** The first character is followed by a boundary. */
  lemma RestBoundary(t: Bytes, n: nat)
    requires Utf8(t) && t != [] && n == CharLength(t[0])
    ensures Boundary(t, n)
  {
    var rest := t[n..];
    if rest != [] {
      assert rest[0] == t[n];
    }
  }

  lemma ShiftedBoundary(t: Bytes, n: nat, i: nat)
    requires n <= i <= |t| && Boundary(t, n)
    ensures FloorBoundary(t, i) == n + FloorBoundary(t[n..], i - n)
    decreases i
  {
    if i > n {
      if !Boundary(t, i) {
        ShiftedBoundary(t, n, i - 1);
      }
    }
  }

  /** `dvb_text`: a prefix byte and as many whole characters as fit. */
  function DvbText(t: Bytes, maxLen: nat): (r: Bytes)
    requires maxLen > 0
    ensures 1 <= |r| <= maxLen
  {
    [UTF8_PREFIX] + t[..FloorBoundary(t, Min(|t|, maxLen - 1))]
  }

  // ----- chunks -----

  function Chunks(t: Bytes): (cs: seq<Bytes>)
    ensures t != [] && (|t| > MAX_TEXT_CHUNK ==> FloorBoundary(t, MAX_TEXT_CHUNK) > 0) ==> cs != []
    decreases |t|
  {
    if t == [] then []
    else if |t| <= MAX_TEXT_CHUNK then [t]
    else
      var n := FloorBoundary(t, MAX_TEXT_CHUNK);
      if n == 0 then [] else [t[..n]] + Chunks(t[n..])
  }

  /** A long text loses a piece of whole characters. */
  lemma CutOff(t: Bytes) returns (n: nat)
    requires Utf8(t) && |t| > MAX_TEXT_CHUNK
    ensures n == FloorBoundary(t, MAX_TEXT_CHUNK) && 243 <= n <= MAX_TEXT_CHUNK
    ensures Utf8(t[..n]) && Utf8(t[n..])
    ensures Chunks(t) == [t[..n]] + Chunks(t[n..])
  {
    BoundaryNear(t, MAX_TEXT_CHUNK);
    n := FloorBoundary(t, MAX_TEXT_CHUNK);
    CutAtBoundary(t, n);
  }

  /** Pieces of whole characters, none empty, none too long. */
  ghost predicate Pieces(cs: seq<Bytes>) {
    forall c :: c in cs ==> 0 < |c| <= MAX_TEXT_CHUNK && Utf8(c)
  }

  lemma PiecesCons(c: Bytes, cs: seq<Bytes>)
    requires 0 < |c| <= MAX_TEXT_CHUNK && Utf8(c) && Pieces(cs)
    ensures Pieces([c] + cs)
    ensures Flatten([c] + cs) == c + Flatten(cs)
  {
    assert ([c] + cs)[1..] == cs;
  }

  /** Nothing is lost, no character is split, every piece but the last is nearly full. */
  ghost predicate Divides(cs: seq<Bytes>, t: Bytes) {
    && Flatten(cs) == t && Pieces(cs)
    && (t != [] ==> 243 * (|cs| - 1) + 1 <= |t| <= 246 * |cs|)
  }

  lemma DividesCons(t: Bytes, n: nat, cs: seq<Bytes>)
    requires 243 <= n <= MAX_TEXT_CHUNK && n < |t| && Utf8(t[..n]) && Divides(cs, t[n..])
    ensures Divides([t[..n]] + cs, t)
  {
    PiecesCons(t[..n], cs);
    assert t[..n] + t[n..] == t;
  }

  lemma DividesOne(t: Bytes)
    requires t != [] && |t| <= MAX_TEXT_CHUNK && Utf8(t)
    ensures Divides([t], t)
  {
    PiecesCons(t, []);
    assert [t] + [] == [t] && t + [] == t;
  }

  lemma {:induction false} ChunksOfText(t: Bytes)
    requires Utf8(t)
    ensures Divides(Chunks(t), t)
    decreases |t|
  {
    if |t| > MAX_TEXT_CHUNK {
      var n := CutOff(t);
      ChunksOfText(t[n..]);
      DividesCons(t, n, Chunks(t[n..]));
    } else if t != [] {
      DividesOne(t);
    }
  }

  /** The longest description that always fits in sixteen descriptors. */
  lemma SixteenSuffice(t: Bytes)
    requires Utf8(t) && |t| <= 3888
    ensures |Chunks(t)| <= 16
  {
    ChunksOfText(t);
  }

  // ----- descriptors -----

  /** Body of the i-th of `total` extended event descriptors. */
  function ExtendedBody(lang: Bytes, i: nat, total: nat, chunk: Bytes): Bytes
    requires 1 <= total <= 16
  {
    [i * 16 % 256 + (total - 1) % 16] + lang + [0, (1 + |chunk|) % 256, UTF8_PREFIX] + chunk
  }

  function Extended(lang: Bytes, i: nat, total: nat, chunks: seq<Bytes>): seq<Pmt.Desc>
    requires i <= total <= |chunks| && 1 <= total <= 16
    decreases total - i
  {
    if i == total then []
    else [Pmt.Desc(EXTENDED_TAG, ExtendedBody(lang, i, total, chunks[i]))] + Extended(lang, i + 1, total, chunks)
  }

  function ExtendedEvents(lang: Bytes, t: Bytes): seq<Pmt.Desc> {
    var cs := Chunks(t);
    if cs == [] then [] else Extended(lang, 0, Min(|cs|, 16), cs)
  }

  ghost predicate CutSoFar(chunks: seq<Bytes>, remaining: Bytes, text: Bytes) {
    Utf8(remaining) && chunks + Chunks(remaining) == Chunks(text)
  }

  lemma CutStep(chunks: seq<Bytes>, remaining: Bytes, text: Bytes)
    requires CutSoFar(chunks, remaining, text) && |remaining| > MAX_TEXT_CHUNK
    ensures var n := FloorBoundary(remaining, MAX_TEXT_CHUNK);
            n > 0 && CutSoFar(chunks + [remaining[..n]], remaining[n..], text)
  {
    var n := CutOff(remaining);
    assert chunks + ([remaining[..n]] + Chunks(remaining[n..])) == chunks + [remaining[..n]] + Chunks(remaining[n..]);
  }

  /** The first loop of `build_extended_event_descriptors`. */
  method CutText(text: Bytes) returns (chunks: seq<Bytes>)
    requires Utf8(text)
    ensures chunks == Chunks(text)
  {
    chunks := [];
    var remaining := text;
    while remaining != []
      invariant CutSoFar(chunks, remaining, text)
      decreases |remaining|
    {
      if |remaining| <= MAX_TEXT_CHUNK {
        chunks := chunks + [remaining];
        return;
      }
      CutStep(chunks, remaining, text);
      var safeLen := FloorBoundary(remaining, MAX_TEXT_CHUNK);
      chunks := chunks + [remaining[..safeLen]];
      remaining := remaining[safeLen..];
    }
  }

  /** Its second loop; `total_chunks - 1` needs a chunk, which any text that is not empty yields. */
  method BuildExtendedEventDescriptors(lang: Bytes, text: Bytes) returns (descriptors: seq<Bytes>)
    requires |lang| == 3 && Utf8(text)
    ensures descriptors == Each(ExtendedEvents(lang, text))
  {
    if text == [] {
      return [];
    }
    var chunks := CutText(text);
    ChunksOfText(text);
    descriptors := DescribeChunks(lang, Min(|chunks|, 16), chunks);
  }

  ghost predicate Described(descriptors: seq<Bytes>, rest: seq<Pmt.Desc>, all: seq<Bytes>) {
    descriptors + Each(rest) == all
  }

  lemma DescribeStep(descriptors: seq<Bytes>, d: Pmt.Desc, rest: seq<Pmt.Desc>, all: seq<Bytes>)
    requires Described(descriptors, [d] + rest, all)
    ensures Described(descriptors + [Pmt.DescBytes(d)], rest, all)
  {
    assert ([d] + rest)[1..] == rest;
    assert descriptors + ([Pmt.DescBytes(d)] + Each(rest)) == descriptors + [Pmt.DescBytes(d)] + Each(rest);
  }

  method DescribeChunks(lang: Bytes, total: nat, chunks: seq<Bytes>) returns (descriptors: seq<Bytes>)
    requires |lang| == 3 && 1 <= total <= 16 && total <= |chunks|
    ensures descriptors == Each(Extended(lang, 0, total, chunks))
  {
    descriptors := [];
    ghost var all := Each(Extended(lang, 0, total, chunks));
    for i := 0 to total
      invariant Described(descriptors, Extended(lang, i, total, chunks), all)
    {
      DescribeStep(descriptors, Pmt.Desc(EXTENDED_TAG, ExtendedBody(lang, i, total, chunks[i])),
                   Extended(lang, i + 1, total, chunks), all);
      var desc := BuildExtended(lang, i, total, chunks[i]);
      descriptors := descriptors + [desc];
    }
    assert descriptors + [] == descriptors;
  }

  method BuildExtended(lang: Bytes, i: nat, total: nat, chunk: Bytes) returns (desc: Bytes)
    requires |lang| == 3 && i < total <= 16
    ensures desc == Pmt.DescBytes(Pmt.Desc(EXTENDED_TAG, ExtendedBody(lang, i, total, chunk)))
  {
    var textLen := 1 + |chunk|;
    var payloadLen := 6 + textLen;
    desc := [EXTENDED_TAG, payloadLen % 256];
    desc := desc + [i * 16 % 256 + (total - 1) % 16];
    desc := desc + lang;
    desc := desc + [0];
    desc := desc + [textLen % 256];
    desc := desc + [UTF8_PREFIX];
    desc := desc + chunk;
  }

  function Each(ds: seq<Pmt.Desc>): seq<Bytes> {
    if ds == [] then [] else [Pmt.DescBytes(ds[0])] + Each(ds[1..])
  }

  lemma {:induction false} FlattenEach(ds: seq<Pmt.Desc>)
    ensures Flatten(Each(ds)) == Pmt.DescsBytes(ds)
    decreases |ds|
  {
    if ds != [] {
      FlattenEach(ds[1..]);
      assert Each(ds)[1..] == Each(ds[1..]);
    }
  }

  // ----- the section -----

  datatype Event = Event(serviceId: nat, version: nat, tsId: nat, networkId: nat, number: Byte,
                         eventId: nat, date: Date, time: Time, duration: nat,
                         title: Bytes, description: Bytes, lang: Bytes)

  /** What the types of the source guarantee: valid strings, a date and time, three letters. */
  predicate WellTyped(e: Event) {
    Utf8(e.title) && Utf8(e.description) && ValidTime(e.time) && |e.lang| == 3
  }

  function ShortBody(e: Event): (b: Bytes)
    ensures |e.lang| == 3 ==> |b| <= 245
  {
    var name := DvbText(e.title, 80);
    var text := if |e.description| > 160 then [] else DvbText(e.description, 160);
    e.lang + [|name| % 256] + name + [|text| % 256] + text
  }

  function Descriptors(e: Event): seq<Pmt.Desc> {
    [Pmt.Desc(SHORT_TAG, ShortBody(e))]
    + if |e.description| > 160 then ExtendedEvents(e.lang, e.description) else []
  }

  function Loop(e: Event): Bytes {
    Pmt.DescsBytes(Descriptors(e))
  }

  function Fixed(e: Event): (f: Bytes)
    requires ValidTime(e.time)
    ensures |f| == 24
  {
    [0x4E, 0xF0, 0, High(e.serviceId), Low(e.serviceId), 0xC1 + e.version % 32 * 2,
     e.number, 1, High(e.tsId), Low(e.tsId), High(e.networkId), Low(e.networkId), 1, 0x4E,
     High(e.eventId), Low(e.eventId)]
    + EncodeDvbTime(e.date, e.time) + EncodeDuration(e.duration)
  }

  /** A descriptor loop behind what precedes it.  The length written in front of the loop is the full
    * one even where the loop is cut at 4095 bytes. */
  function WithLoop(fixed: Bytes, loop: Bytes): Bytes {
    fixed + [128 + High(|loop|) % 128, Low(|loop|)] + loop[..Min(|loop|, 0xFFF)]
  }

  /** All but the checksum, before the length is set. */
  function Raw(e: Event): Bytes
    requires ValidTime(e.time)
  {
    WithLoop(Fixed(e), Loop(e))
  }

  function EitSection(e: Event): Bytes
    requires ValidTime(e.time)
  {
    Sealed(Raw(e))
  }

  /** The short event descriptor; its payload never reaches 256 bytes, so it is never left out. */
  method BuildShort(e: Event) returns (loop: Bytes)
    requires WellTyped(e)
    ensures loop == Pmt.DescBytes(Pmt.Desc(SHORT_TAG, ShortBody(e)))
  {
    var nameBytes := DvbText(e.title, 80);
    var shortTextBytes: Bytes := [];
    if |e.description| <= 160 {
      shortTextBytes := DvbText(e.description, 160);
    }
    var shortPayload := e.lang;
    shortPayload := shortPayload + [|nameBytes| % 256];
    shortPayload := shortPayload + nameBytes;
    shortPayload := shortPayload + [|shortTextBytes| % 256];
    shortPayload := shortPayload + shortTextBytes;
    assert shortPayload == ShortBody(e);
    loop := [];
    if |shortPayload| <= 255 {
      loop := loop + [SHORT_TAG];
      loop := loop + [|shortPayload| % 256];
      loop := loop + shortPayload;
    }
  }

  method PresentFollowingSection(e: Event) returns (section: Bytes)
    requires WellTyped(e)
    ensures section == EitSection(e)
  {
    var descriptorsLoop := BuildShort(e);
    LoopParts(e);
    if |e.description| > 160 {
      var extDescriptors := BuildExtendedEventDescriptors(e.lang, e.description);
      descriptorsLoop := AppendAll(descriptorsLoop, extDescriptors);
    }
    section := FinishSection(e, descriptorsLoop);
  }

  lemma LoopParts(e: Event)
    ensures var short := Pmt.DescBytes(Pmt.Desc(SHORT_TAG, ShortBody(e)));
            Loop(e) == if |e.description| > 160
                       then short + Flatten(Each(ExtendedEvents(e.lang, e.description)))
                       else short
  {
    var more := if |e.description| > 160 then ExtendedEvents(e.lang, e.description) else [];
    assert Descriptors(e)[1..] == more;
    FlattenEach(more);
  }

  method AppendAll(start: Bytes, parts: seq<Bytes>) returns (out: Bytes)
    ensures out == start + Flatten(parts)
  {
    out := start;
    assert parts[0..] == parts;
    for i := 0 to |parts|
      invariant out + Flatten(parts[i..]) == start + Flatten(parts)
    {
      assert parts[i..][1..] == parts[i + 1..];
      assert out + (parts[i] + Flatten(parts[i + 1..])) == out + parts[i] + Flatten(parts[i + 1..]);
      out := out + parts[i];
    }
    assert parts[|parts|..] == [];
  }

  method AppendLoop(fixed: Bytes, loop: Bytes) returns (section: Bytes)
    ensures section == WithLoop(fixed, loop)
  {
    var descriptorsLoop := loop;
    var descLoopLen := |descriptorsLoop|;
    if descLoopLen > 0xFFF {
      descriptorsLoop := descriptorsLoop[..0xFFF];
    }
    section := fixed;
    section := section + [4 * 32 + descLoopLen / 256 % 256 % 128];
    section := section + [descLoopLen % 256];
    section := section + descriptorsLoop;
  }

  method FinishSection(e: Event, loop: Bytes) returns (section: Bytes)
    requires WellTyped(e) && loop == Loop(e)
    ensures section == EitSection(e)
  {
    section := AppendLoop(Fixed(e), loop);
    section := SetSectionLength(section);
    section := MpegCrc.WithCrc(section);
  }

  /** `set_section_length` on a section that starts, as all of this module's do, with 0xF0 there. */
  method SetSectionLength(section: Bytes) returns (fixed: Bytes)
    requires |section| >= 3 && section[1] == 0xF0
    ensures fixed == SetLength(section)
  {
    var len := |section| - 3 + 4;
    fixed := section[1 := 0xF0 + len / 256 % 16];
    fixed := fixed[2 := len % 256];
  }

  // ----- what the loop holds -----

  function Texts(ds: seq<Pmt.Desc>): Bytes {
    if ds == [] then []
    else (if ds[0].tag == EXTENDED_TAG && |ds[0].body| >= 7 then ds[0].body[7..] else []) + Texts(ds[1..])
  }

  lemma {:induction false} FlattenPrefix(cs: seq<Bytes>, i: nat, j: nat)
    requires i < j <= |cs|
    ensures Flatten(cs[i..j]) == cs[i] + Flatten(cs[i + 1..j])
  {
    assert cs[i..j][1..] == cs[i + 1..j];
  }

  /** Legal lengths, and numbers counting up from `i` under one last number. */
  ghost predicate Numbered(ds: seq<Pmt.Desc>, i: nat, total: nat) {
    forall k :: 0 <= k < |ds| ==>
      (ds[k].tag == EXTENDED_TAG && 7 <= |ds[k].body| <= 253 && ds[k].body[0] == (i + k) * 16 + (total - 1))
  }

  lemma {:induction false} ExtendedNumbered(lang: Bytes, i: nat, total: nat, chunks: seq<Bytes>)
    requires |lang| == 3 && i <= total <= |chunks| && 1 <= total <= 16
    requires forall c :: c in chunks ==> |c| <= MAX_TEXT_CHUNK
    ensures |Extended(lang, i, total, chunks)| == total - i
    ensures Numbered(Extended(lang, i, total, chunks), i, total)
    decreases total - i
  {
    if i < total {
      var d := Pmt.Desc(EXTENDED_TAG, ExtendedBody(lang, i, total, chunks[i]));
      var rest := Extended(lang, i + 1, total, chunks);
      ExtendedNumbered(lang, i + 1, total, chunks);
      assert chunks[i] in chunks;
      BodyStart(lang, i, total, chunks[i]);
      NumberedCons(d, rest, i, total);
    }
  }

  lemma BodyStart(lang: Bytes, i: nat, total: nat, chunk: Bytes)
    requires |lang| == 3 && i < total && 1 <= total <= 16
    ensures var b := ExtendedBody(lang, i, total, chunk);
            |b| == 7 + |chunk| && b[0] == i * 16 + (total - 1)
  {
  }

  lemma NumberedCons(d: Pmt.Desc, rest: seq<Pmt.Desc>, i: nat, total: nat)
    requires Numbered(rest, i + 1, total)
    requires d.tag == EXTENDED_TAG && 7 <= |d.body| <= 253 && d.body[0] == i * 16 + (total - 1)
    ensures Numbered([d] + rest, i, total)
  {
    var ds := [d] + rest;
    forall k | 0 <= k < |ds|
      ensures ds[k].tag == EXTENDED_TAG && 7 <= |ds[k].body| <= 253
      ensures ds[k].body[0] == (i + k) * 16 + (total - 1)
    {
      if k > 0 {
        assert ds[k] == rest[k - 1] && (i + 1) + (k - 1) == i + k;
      }
    }
  }

  /** The descriptors carry the first `total` pieces, in order. */
  lemma {:induction false} ExtendedTexts(lang: Bytes, i: nat, total: nat, chunks: seq<Bytes>)
    requires |lang| == 3 && i <= total <= |chunks| && 1 <= total <= 16
    ensures var ds := Extended(lang, i, total, chunks);
            && Texts(ds) == Flatten(chunks[i..total])
            && |Pmt.DescsBytes(ds)| == 9 * (total - i) + |Texts(ds)|
    decreases total - i
  {
    if i < total {
      var d := Pmt.Desc(EXTENDED_TAG, ExtendedBody(lang, i, total, chunks[i]));
      var rest := Extended(lang, i + 1, total, chunks);
      ExtendedTexts(lang, i + 1, total, chunks);
      assert ([d] + rest)[1..] == rest;
      BodyText(lang, i, total, chunks[i]);
      FlattenPrefix(chunks, i, total);
    } else {
      assert chunks[i..total] == [];
    }
  }

  lemma BodyText(lang: Bytes, i: nat, total: nat, chunk: Bytes)
    requires |lang| == 3 && 1 <= total <= 16
    ensures |ExtendedBody(lang, i, total, chunk)| == 7 + |chunk|
    ensures ExtendedBody(lang, i, total, chunk)[7..] == chunk
  {
  }

  lemma FlattenSplit(cs: seq<Bytes>, n: nat)
    requires n <= |cs|
    ensures Flatten(cs) == Flatten(cs[..n]) + Flatten(cs[n..])
  {
    assert cs[..n] + cs[n..] == cs;
    FlattenAppend(cs[..n], cs[n..]);
  }

  lemma {:induction false} FlattenLength(cs: seq<Bytes>)
    requires forall c :: c in cs ==> 0 < |c| <= MAX_TEXT_CHUNK
    ensures |cs| <= |Flatten(cs)| <= MAX_TEXT_CHUNK * |cs|
    decreases |cs|
  {
    if cs != [] {
      FlattenLength(cs[1..]);
    }
  }

  lemma PrefixIsWholeIff(cs: seq<Bytes>, n: nat)
    requires n <= |cs| && forall c :: c in cs ==> 0 < |c| <= MAX_TEXT_CHUNK
    ensures Flatten(cs[..n]) == Flatten(cs) <==> n == |cs|
    ensures |Flatten(cs[..n])| <= MAX_TEXT_CHUNK * n
  {
    FlattenSplit(cs, n);
    FlattenLength(cs[..n]);
    FlattenLength(cs[n..]);
    if n == |cs| {
      assert cs[..n] == cs;
    }
  }

  /** For any description: at most sixteen descriptors, each of a legal length, numbered in order;
    * their texts make up the whole description exactly when sixteen pieces suffice. */
  lemma ExtendedEventsShape(lang: Bytes, t: Bytes)
    requires |lang| == 3 && Utf8(t) && t != []
    ensures var ds, n := ExtendedEvents(lang, t), Min(|Chunks(t)|, 16);
            && |ds| == n && Numbered(ds, 0, n)
            && Texts(ds) == Flatten(Chunks(t)[..n]) && (Texts(ds) == t <==> |Chunks(t)| <= 16)
            && |Pmt.DescsBytes(ds)| == 9 * n + |Texts(ds)| <= 4080
  {
    var cs := Chunks(t);
    var n := Min(|cs|, 16);
    ChunksOfText(t);
    ExtendedNumbered(lang, 0, n, cs);
    ExtendedTexts(lang, 0, n, cs);
    assert cs[0..n] == cs[..n];
    PrefixIsWholeIff(cs, n);
  }

  /** How much of a text `dvb_text` keeps. */
  function Kept(t: Bytes, budget: nat): (n: nat)
    ensures n <= |t| && n <= budget && (n == |t| <==> |t| <= budget)
  {
    FloorBoundary(t, Min(|t|, budget))
  }

  /** The length of the descriptor loop, from title and description. */
  function LoopSize(e: Event): nat {
    var pieces := Chunks(e.description);
    var n := Min(|pieces|, 16);
    8 + Kept(e.title, 79)
    + if |e.description| > 160 then 9 * n + |Flatten(pieces[..n])| else 1 + Kept(e.description, 159)
  }

  lemma LoopHasSize(e: Event)
    requires WellTyped(e)
    ensures |Loop(e)| == LoopSize(e) <= 4167
  {
    LoopParts(e);
    if |e.description| > 160 {
      ExtendedSize(e);
    }
  }

  lemma ExtendedSize(e: Event)
    requires WellTyped(e) && |e.description| > 160
    ensures var pieces := Chunks(e.description);
            var n := Min(|pieces|, 16);
            |Pmt.DescsBytes(ExtendedEvents(e.lang, e.description))| == 9 * n + |Flatten(pieces[..n])| <= 4080
  {
    ExtendedEventsShape(e.lang, e.description);
    FlattenEach(ExtendedEvents(e.lang, e.description));
  }

  // ----- the section survives -----

  lemma RawLength(e: Event)
    requires WellTyped(e)
    ensures |Raw(e)| == 26 + Min(|Loop(e)|, 0xFFF)
  {
  }

  /** The section's length field is right, and the section comes back from packing and reassembly,
    * exactly if title and description make a descriptor loop of at most 4068 bytes. */
  lemma SectionSurvivesIff(e: Event, t: Table, cc: nat)
    requires WellTyped(e) && TableInv(t)
    ensures WellSized(EitSection(e)) <==> LoopSize(e) <= 4068
    ensures Some(EitSection(e)) in RunTable(t, Pack(EitSection(e), EIT_PID, cc)).1 <==> LoopSize(e) <= 4068
  {
    LoopHasSize(e);
    RawLength(e);
    SealedIsRight(Raw(e));
    SurvivesIffWellSized(t, EitSection(e), EIT_PID, cc);
  }

  /** The descriptor loop as a receiver finds it. */
  function ReadLoop(s: Bytes): Bytes
    requires |s| >= 26
  {
    s[26..Min(26 + Pmt.Length12(s[24], s[25]), |s|)]
  }

  lemma LoopTail(fixed: Bytes, loop: Bytes)
    requires |fixed| == 24 && |loop| <= 0xFFF
    ensures var raw := WithLoop(fixed, loop);
            |raw| == 26 + |loop| && raw[26..] == loop && Pmt.Length12(raw[24], raw[25]) == |loop|
  {
    assert loop[..Min(|loop|, 0xFFF)] == loop;
    assert High(|loop|) == |loop| / 256;
  }

  lemma LoopOfSealed(raw: Bytes, n: nat)
    requires |raw| == 26 + n && Pmt.Length12(raw[24], raw[25]) == n
    ensures ReadLoop(Sealed(raw)) == raw[26..]
  {
    SealedKeeps(raw);
  }

  lemma LoopRead(e: Event)
    requires WellTyped(e) && |Loop(e)| <= 0xFFF
    ensures ReadLoop(EitSection(e)) == Loop(e)
  {
    LoopTail(Fixed(e), Loop(e));
    LoopOfSealed(Raw(e), |Loop(e)|);
  }

  lemma DescriptorsFit(e: Event)
    requires WellTyped(e)
    ensures forall d :: d in Descriptors(e) ==> |d.body| < 256
  {
    if |e.description| > 160 {
      ExtendedEventsShape(e.lang, e.description);
    }
  }

  // ----- what a receiver reads -----

  /** The title in the body of a short event descriptor, without its encoding mark. */
  function TitleIn(body: Bytes): Bytes
    requires |body| >= 5 && 1 <= body[3] && 4 + body[3] as int <= |body|
  {
    body[5..4 + body[3] as int]
  }

  /** The text behind it; an empty field has no encoding mark. */
  function TextIn(body: Bytes): Bytes
    requires |body| >= 5 && 4 + body[3] as int < |body|
  {
    body[Min(6 + body[3] as int, |body|)..]
  }

  lemma ShortBodyRead(e: Event)
    requires WellTyped(e)
    ensures var b := ShortBody(e);
            && |b| >= 5 && 1 <= b[3] && 4 + b[3] as int < |b|
            && TitleIn(b) == e.title[..Kept(e.title, 79)]
            && TextIn(b) == (if |e.description| > 160 then [] else e.description[..Kept(e.description, 159)])
  {
    var b := ShortBody(e);
    var name := DvbText(e.title, 80);
    var text := if |e.description| > 160 then [] else DvbText(e.description, 160);
    BodyFields(e.lang, name, |text| % 256, text);
    assert name[1..] == e.title[..Kept(e.title, 79)];
    if |e.description| <= 160 {
      assert text[1..] == e.description[..Kept(e.description, 159)];
    }
  }

  lemma BodyFields(lang: Bytes, name: Bytes, n: Byte, text: Bytes)
    requires |lang| == 3 && 1 <= |name| < 256
    ensures var b := lang + [|name| % 256] + name + [n] + text;
            && b[3] as int == |name| && TitleIn(b) == name[1..]
            && TextIn(b) == if text == [] then [] else text[1..]
  {
    var b := lang + [|name| % 256] + name + [n] + text;
    assert b[4..4 + |name|] == name && b[5 + |name|..] == text;
    assert TitleIn(b) == b[4..4 + |name|][1..];
    if text != [] {
      assert TextIn(b) == b[5 + |name|..][1..];
    }
  }

  /** What a receiver makes of a descriptor loop that starts with a short event: its title, and the text
    * of the short event followed by the texts of the extended ones. */
  datatype Shown = Nothing | Shown(title: Bytes, description: Bytes)

  function Show(ds: seq<Pmt.Desc>): Shown {
    if ds == [] || ds[0].tag != SHORT_TAG then Nothing
    else
      var b := ds[0].body;
      if |b| < 5 || b[3] == 0 || 4 + b[3] as int >= |b| then Nothing
      else Shown(TitleIn(b), TextIn(b) + Texts(ds[1..]))
  }

  lemma ShowDescriptors(e: Event)
    requires WellTyped(e)
    ensures Show(Descriptors(e))
            == Shown(e.title[..Kept(e.title, 79)],
                     if |e.description| > 160 then Texts(ExtendedEvents(e.lang, e.description))
                     else e.description[..Kept(e.description, 159)])
  {
    var ds := Descriptors(e);
    ShortBodyRead(e);
    if |e.description| > 160 {
      assert ds[1..] == ExtendedEvents(e.lang, e.description);
      assert [] + Texts(ds[1..]) == Texts(ds[1..]);
    } else {
      assert ds[1..] == [];
      assert TextIn(ds[0].body) + [] == TextIn(ds[0].body);
    }
  }

  /** The title is not cut: `dvb_text(title, 80)` keeps 79 bytes. */
  predicate TitleFits(e: Event) {
    |e.title| <= 79
  }

  /** The description is not cut: up to 159 bytes it fits the short event; from 161 on it must fit
    * sixteen pieces.  At 160 it is taken for short, and cut. */
  predicate DescriptionFits(e: Event) {
    |e.description| <= 159 || (|e.description| > 160 && |Chunks(e.description)| <= 16)
  }

  /** The loop holds the whole title, or the whole description, exactly if it fits. */
  lemma ShownWholeIff(e: Event)
    requires WellTyped(e)
    ensures Show(Descriptors(e)).Shown?
    ensures Show(Descriptors(e)).title == e.title <==> TitleFits(e)
    ensures Show(Descriptors(e)).description == e.description <==> DescriptionFits(e)
  {
    ShowDescriptors(e);
    assert e.title[..|e.title|] == e.title && e.description[..|e.description|] == e.description;
    if |e.description| > 160 {
      ExtendedEventsShape(e.lang, e.description);
    }
  }

  /** From the event to what a receiver shows, for every event: the section arrives and shows title and
    * description as they are exactly if both fit and the loop has at most 4068 bytes. */
  lemma EventArrivesIff(e: Event, t: Table, cc: nat)
    requires WellTyped(e) && TableInv(t)
    ensures var s := EitSection(e);
            Some(s) in RunTable(t, Pack(s, EIT_PID, cc)).1
            && Show(Pmt.ParseDescs(ReadLoop(s))) == Shown(e.title, e.description)
            <==> TitleFits(e) && DescriptionFits(e) && LoopSize(e) <= 4068
  {
    SectionSurvivesIff(e, t, cc);
    if LoopSize(e) <= 4068 {
      LoopHasSize(e);
      LoopRead(e);
      DescriptorsFit(e);
      Pmt.ParseDescsBack(Descriptors(e));
      ShownWholeIff(e);
    }
  }

  /** Any title and any description of 161 to 3835 bytes: the section's length is at most 4093, it
    * survives packing and reassembly, and a receiver that parses its loop finds the short event, at
    * most sixteen extended events, and in them the whole description. */
  lemma LongTextArrives(e: Event, t: Table, cc: nat)
    requires WellTyped(e) && TableInv(t) && 160 < |e.description| <= 3835
    ensures var s := EitSection(e);
            && |s| - 3 <= 4093
            && Some(s) in RunTable(t, Pack(s, EIT_PID, cc)).1
            && MpegCrc.Crc32(MpegCrc.INITIAL, s) == 0
            && Pmt.ParseDescs(ReadLoop(s)) == Descriptors(e) && |Descriptors(e)| <= 17
            && Show(Pmt.ParseDescs(ReadLoop(s))).Shown?
            && Show(Pmt.ParseDescs(ReadLoop(s))).description == e.description
  {
    SixteenSuffice(e.description);
    LongLoop(e);
    LoopHasSize(e);
    RawLength(e);
    SectionSurvivesIff(e, t, cc);
    SealedIsRight(Raw(e));
    LoopRead(e);
    DescriptorsFit(e);
    Pmt.ParseDescsBack(Descriptors(e));
    ShownWholeIff(e);
  }

  lemma LongLoop(e: Event)
    requires WellTyped(e) && 160 < |e.description| <= 3835
    ensures LoopSize(e) <= 4066 && |Descriptors(e)| <= 17
  {
    var pieces := Chunks(e.description);
    ChunksOfText(e.description);
    SixteenSuffice(e.description);
    ExtendedEventsShape(e.lang, e.description);
    assert pieces[..|pieces|] == pieces;
  }

  // ----- inputs that are cut -----

  function Letters(n: nat): (t: Bytes)
    ensures |t| == n
  {
    seq(n, _ => 0x41)
  }

  lemma {:induction false} LettersAreText(n: nat)
    ensures Utf8(Letters(n))
    decreases n
  {
    if n > 0 {
      LettersAreText(n - 1);
      assert Letters(n)[1..] == Letters(n - 1);
    }
  }

  lemma {:induction false} LettersInPieces(n: nat)
    ensures |Chunks(Letters(n))| == (n + 245) / 246
    decreases n
  {
    if n > 246 {
      assert FloorBoundary(Letters(n), 246) == 246;
      assert Letters(n)[246..] == Letters(n - 246);
      LettersInPieces(n - 246);
    }
  }

  /** A description of 160 letters loses its last one, whatever else the event holds. */
  lemma CutAt160(e: Event)
    requires WellTyped(e) && e.description == Letters(160)
    ensures Show(Descriptors(e)).Shown? && Show(Descriptors(e)).description == Letters(159)
  {
    ShowDescriptors(e);
    assert Kept(Letters(160), 159) == 159;
    assert Letters(160)[..159] == Letters(159);
  }

  lemma LettersFit(e: Event)
    requires WellTyped(e) && e.description == Letters(3936)
    ensures DescriptionFits(e) && LoopSize(e) > 4068
  {
    LettersInPieces(3936);
    ChunksOfText(e.description);
    var pieces := Chunks(e.description);
    assert pieces[..|pieces|] == pieces;
  }

  /** One of 3936 letters fills sixteen pieces and makes the section too long to arrive. */
  lemma TooLongAt3936(e: Event, t: Table, cc: nat)
    requires WellTyped(e) && TableInv(t) && e.description == Letters(3936)
    ensures DescriptionFits(e) && Some(EitSection(e)) !in RunTable(t, Pack(EitSection(e), EIT_PID, cc)).1
  {
    LettersFit(e);
    SectionSurvivesIff(e, t, cc);
  }
}
