/** The program map table (src/psi/pmt.rs; section 2.4.4.8 of ISO/IEC 13818-1): what a section
  * means, what the rewriter makes of it, and when two tables count as different. */
module Pmt {
  import opened Common
  import opened Sections
  import MpegCrc

  const CA_TAG: Byte := 0x09
  const LANGUAGE_TAG: Byte := 0x0A

  // ----- what a section means -----

  datatype Desc = Desc(tag: Byte, body: Bytes)

  /** An elementary stream with the raw bytes of its descriptor loop. */
  datatype Stream = Stream(streamType: Byte, pid: Pid, info: Bytes)

  datatype Table = Table(pcrPid: Pid, program: Bytes, streams: seq<Stream>)

  /** The descriptors of a loop, up to the first that does not fit. */
  function ParseDescs(d: Bytes): seq<Desc> {
    if |d| < 2 || 2 + d[1] as int > |d| then []
    else [Desc(d[0], d[2..2 + d[1] as int])] + ParseDescs(d[2 + d[1] as int..])
  }

  function Length12(hi: Byte, lo: Byte): (n: nat)
    ensures n < 4096
  {
    hi as int % 16 * 256 + lo
  }

  function Pid13(hi: Byte, lo: Byte): Pid {
    hi as int % 32 * 256 + lo
  }

  /** The streams of `b`, whose last four bytes are the checksum. */
  function ParseStreams(b: Bytes): seq<Stream>
    decreases |b|
  {
    if |b| < 9 then []
    else
      var end := Min(5 + Length12(b[3], b[4]), |b|);
      [Stream(b[0], Pid13(b[1], b[2]), b[5..end])] + ParseStreams(b[end..])
  }

  function ProgramInfoLength(s: Bytes): (n: nat)
    requires |s| >= 12
    ensures n < 4096
  {
    Length12(s[10], s[11])
  }

  function Parse(s: Bytes): Table
    requires |s| >= 12
  {
    var start := Min(12 + ProgramInfoLength(s), |s|);
    Table(Pid13(s[8], s[9]), s[12..start], ParseStreams(s[start..]))
  }

  // ----- reading -----

  /** What `analyze_pmt` keeps of a descriptor loop: its two map entries. */
  datatype DescInfo = DescInfo(lang: Option<Bytes>, ca: bool)

  function Note(i: DescInfo, d: Desc): DescInfo {
    if d.tag == LANGUAGE_TAG && |d.body| >= 3 then i.(lang := Some(d.body[..3]))
    else if d.tag == CA_TAG then i.(ca := true)
    else i
  }

  function NoteAll(i: DescInfo, ds: seq<Desc>): DescInfo
    decreases |ds|
  {
    if ds == [] then i else NoteAll(Note(i, ds[0]), ds[1..])
  }

  const NOTHING := DescInfo(None, false)

  datatype StreamInfo = StreamInfo(streamType: Byte, pid: Pid, descriptors: DescInfo)
  datatype PmtInfo = PmtInfo(pcrPid: Pid, streams: seq<StreamInfo>)

  function StreamSummary(s: Stream): StreamInfo {
    StreamInfo(s.streamType, s.pid, NoteAll(NOTHING, ParseDescs(s.info)))
  }

  function StreamSummaries(ss: seq<Stream>): seq<StreamInfo> {
    if ss == [] then [] else [StreamSummary(ss[0])] + StreamSummaries(ss[1..])
  }

  function Summary(t: Table): PmtInfo {
    PmtInfo(t.pcrPid, StreamSummaries(t.streams))
  }

  /** Every stream lies inside the section: the analyser slices each of them. */
  predicate StreamsFit(b: Bytes)
    decreases |b|
  {
    |b| >= 9 ==>
      var end := 5 + Length12(b[3], b[4]);
      end <= |b| && StreamsFit(b[end..])
  }

  method ParseDescriptors(data: Bytes) returns (info: DescInfo)
    ensures info == NoteAll(NOTHING, ParseDescs(data))
  {
    info := NOTHING;
    var i := 0;
    assert data[0..] == data;
    while i + 1 < |data|
      invariant i <= |data|
      invariant NoteAll(info, ParseDescs(data[i..])) == NoteAll(NOTHING, ParseDescs(data))
    {
      var tag, len := data[i], data[i + 1] as int;
      var start := i + 2;
      var end := start + len;
      if end > |data| {
        break;
      }
      DescAt(data, i);
      if tag == LANGUAGE_TAG && len >= 3 {
        info := info.(lang := Some(data[start..end][..3]));
      } else if tag == CA_TAG {
        info := info.(ca := true);
      }
      i := end;
    }
  }

  lemma DescAt(d: Bytes, i: nat)
    requires i + 2 <= |d| && i + 2 + d[i + 1] as int <= |d|
    ensures var end := i + 2 + d[i + 1] as int;
            ParseDescs(d[i..]) == [Desc(d[i], d[i + 2..end])] + ParseDescs(d[end..])
  {
    var end := i + 2 + d[i + 1] as int;
    assert d[i..][2..end - i] == d[i + 2..end];
    assert d[i..][end - i..] == d[end..];
  }

  /** Where the next stream starts, or the end if this one runs past it. */
  function StreamEnd(b: Bytes): nat
    requires |b| >= 9
  {
    Min(5 + Length12(b[3], b[4]), |b|)
  }

  function FirstStream(b: Bytes): Stream
    requires |b| >= 9
  {
    Stream(b[0], Pid13(b[1], b[2]), b[5..StreamEnd(b)])
  }

  ghost predicate Analyzed(streams: seq<StreamInfo>, rest: Bytes, all: seq<StreamInfo>) {
    streams + StreamSummaries(ParseStreams(rest)) == all
  }

  lemma AnalyzeStep(streams: seq<StreamInfo>, rest: Bytes, all: seq<StreamInfo>)
    requires Analyzed(streams, rest, all) && |rest| >= 9
    ensures Analyzed(streams + [StreamSummary(FirstStream(rest))], rest[StreamEnd(rest)..], all)
  {
    var s, ss := FirstStream(rest), ParseStreams(rest[StreamEnd(rest)..]);
    assert ParseStreams(rest) == [s] + ss;
    assert ([s] + ss)[1..] == ss;
    assert streams + ([StreamSummary(s)] + StreamSummaries(ss))
        == streams + [StreamSummary(s)] + StreamSummaries(ss);
  }

  lemma AnalyzeNext(streams: seq<StreamInfo>, section: Bytes, pos: nat, all: seq<StreamInfo>)
    requires pos + 9 <= |section| && StreamsFit(section[pos..]) && Analyzed(streams, section[pos..], all)
    ensures var start, end := pos + 5, pos + 5 + Length12(section[pos + 3], section[pos + 4]);
            && end <= |section| && StreamsFit(section[end..])
            && var s := Stream(section[pos], Pid13(section[pos + 1], section[pos + 2]), section[start..end]);
            Analyzed(streams + [StreamSummary(s)], section[end..], all)
  {
    var rest, end := section[pos..], pos + 5 + Length12(section[pos + 3], section[pos + 4]);
    assert StreamEnd(rest) == end - pos;
    SliceOfRest(section, pos, 5, end - pos);
    AnalyzeStep(streams, rest, all);
  }

  lemma SliceOfRest(s: Bytes, pos: nat, i: nat, j: nat)
    requires pos <= |s| && i <= j <= |s| - pos
    ensures s[pos..][i..j] == s[pos + i..pos + j] && s[pos..][j..] == s[pos + j..]
  {
  }

  lemma AnalyzeEnds(streams: seq<StreamInfo>, rest: Bytes, all: seq<StreamInfo>)
    requires Analyzed(streams, rest, all) && |rest| < 9
    ensures streams == all
  {
    assert streams + [] == streams;
  }

  /** The body of the loop. */
  method AnalyzeStream(section: Bytes, pos: nat) returns (info: StreamInfo, next: nat)
    requires pos + 9 <= |section| && StreamsFit(section[pos..])
    ensures next == pos + 5 + Length12(section[pos + 3], section[pos + 4]) <= |section|
    ensures info == StreamSummary(Stream(section[pos], Pid13(section[pos + 1], section[pos + 2]),
                                         section[pos + 5..next]))
  {
    var stype := section[pos];
    var pid := section[pos + 1] as int % 32 * 256 + section[pos + 2];
    var esInfoLen := section[pos + 3] as int % 16 * 256 + section[pos + 4];
    var descriptorsStart := pos + 5;
    next := descriptorsStart + esInfoLen;
    var descriptors := ParseDescriptors(section[descriptorsStart..next]);
    info := StreamInfo(stype, pid, descriptors);
  }

  method AnalyzePmt(section: Bytes) returns (info: PmtInfo)
    requires |section| >= 12
    requires 12 + ProgramInfoLength(section) <= |section|
             ==> StreamsFit(section[12 + ProgramInfoLength(section)..])
    ensures info == Summary(Parse(section))
  {
    var pcrPid := section[8] as int % 32 * 256 + section[9];
    var programInfoLen := section[10] as int % 16 * 256 + section[11];
    var pos := 12 + programInfoLen;
    var streams: seq<StreamInfo> := [];
    if pos > |section| {
      assert section[|section|..] == [];
    } else {
      streams := AnalyzeStreams(section, pos);
    }
    info := PmtInfo(pcrPid, streams);
  }

  method AnalyzeStreams(section: Bytes, start: nat) returns (streams: seq<StreamInfo>)
    requires start <= |section| && StreamsFit(section[start..])
    ensures streams == StreamSummaries(ParseStreams(section[start..]))
  {
    streams := [];
    var pos := start;
    var sectionEnd := |section| - 4;
    ghost var all := StreamSummaries(ParseStreams(section[pos..]));
    while pos + 5 <= sectionEnd
      invariant pos <= |section| && StreamsFit(section[pos..])
      invariant Analyzed(streams, section[pos..], all)
    {
      AnalyzeNext(streams, section, pos, all);
      var stream, next := AnalyzeStream(section, pos);
      streams := streams + [stream];
      pos := next;
    }
    AnalyzeEnds(streams, section[pos..], all);
  }

  // ----- rewriting -----

  type Mappings = seq<(nat, nat)>

  function Find(m: Mappings, pid: Pid): Option<nat> {
    if m == [] then None else if m[0].0 == pid then Some(m[0].1) else Find(m[1..], pid)
  }

  function DescBytes(d: Desc): Bytes {
    [d.tag, |d.body| % 256] + d.body
  }

  function DescsBytes(ds: seq<Desc>): Bytes {
    if ds == [] then [] else DescBytes(ds[0]) + DescsBytes(ds[1..])
  }

  function WithoutCa(ds: seq<Desc>): seq<Desc> {
    if ds == [] then []
    else (if ds[0].tag != CA_TAG then [ds[0]] else []) + WithoutCa(ds[1..])
  }

  /** A descriptor loop after `patch_descriptors`. */
  function PatchedLoop(d: Bytes, strip: bool): Bytes {
    if strip then DescsBytes(WithoutCa(ParseDescs(d))) else d
  }

  function RewriteStreams(ss: seq<Stream>, m: Mappings, strip: bool): seq<Stream> {
    if ss == [] then []
    else
      (match Find(m, ss[0].pid)
       case None => []
       case Some(newPid) => [Stream(ss[0].streamType, newPid % 8192, PatchedLoop(ss[0].info, strip))])
      + RewriteStreams(ss[1..], m, strip)
  }

  /** The intended effect on the table: the requested clock PID, exactly the mapped streams in their
    * order, and no CA descriptor when stripping. */
  function Rewrite(t: Table, pcrPid: nat, m: Mappings, strip: bool): Table {
    Table(pcrPid % 8192, PatchedLoop(t.program, strip), RewriteStreams(t.streams, m, strip))
  }

  function StreamBytes(s: Stream): Bytes {
    [s.streamType, s.pid / 256 + 224, s.pid % 256, |s.info| / 256 % 16 + 240, |s.info| % 256] + s.info
  }

  function StreamsBytes(ss: seq<Stream>): Bytes {
    if ss == [] then [] else StreamBytes(ss[0]) + StreamsBytes(ss[1..])
  }

  function Body(t: Table): Bytes {
    [t.pcrPid / 256 + 224, t.pcrPid % 256, |t.program| / 256 % 16 + 240, |t.program| % 256]
    + t.program + StreamsBytes(t.streams)
  }

  /** A table behind an eight-byte header, with length and checksum. */
  function Encode(header: Bytes, t: Table): (s: Bytes)
    requires |header| == 8
    ensures |s| >= 16
  {
    Sealed(header + Body(t))
  }

  /** Streams that are kept lie inside the section: the rewriter slices only those. */
  predicate KeptFit(b: Bytes, m: Mappings)
    decreases |b|
  {
    |b| >= 9 ==>
      var end := 5 + Length12(b[3], b[4]);
      if end <= |b| then KeptFit(b[end..], m) else Find(m, Pid13(b[1], b[2])) == None
  }

  ghost predicate Stripped(patched: Bytes, rest: Bytes, all: Bytes) {
    patched + PatchedLoop(rest, true) == all
  }

  lemma StripOne(rest: Bytes)
    requires |rest| >= 2 && 2 + rest[1] as int <= |rest|
    ensures var end := 2 + rest[1] as int;
            PatchedLoop(rest, true) == (if rest[0] != CA_TAG then rest[..end] else []) + PatchedLoop(rest[end..], true)
  {
    var end := 2 + rest[1] as int;
    var d, ds := Desc(rest[0], rest[2..end]), ParseDescs(rest[end..]);
    assert ParseDescs(rest) == [d] + ds;
    assert ([d] + ds)[1..] == ds;
    assert DescBytes(d) == rest[..end];
    if rest[0] != CA_TAG {
      assert WithoutCa([d] + ds) == [d] + WithoutCa(ds);
      assert ([d] + WithoutCa(ds))[1..] == WithoutCa(ds);
    } else {
      assert WithoutCa([d] + ds) == WithoutCa(ds);
    }
  }

  /** The loop of `patch_descriptors` at an offset. */
  ghost predicate Stripping(patched: Bytes, descriptors: Bytes, pos: nat, all: Bytes) {
    pos <= |descriptors| && Stripped(patched, descriptors[pos..], all)
  }

  lemma StripNext(patched: Bytes, descriptors: Bytes, pos: nat, all: Bytes)
    requires pos + 2 <= |descriptors| && pos + 2 + descriptors[pos + 1] as int <= |descriptors|
    requires Stripping(patched, descriptors, pos, all)
    ensures var end := pos + 2 + descriptors[pos + 1] as int;
            Stripping(patched + if descriptors[pos] != CA_TAG then descriptors[pos..end] else [], descriptors, end, all)
  {
    var rest, end := descriptors[pos..], pos + 2 + descriptors[pos + 1] as int;
    assert rest[end - pos..] == descriptors[end..] && rest[..end - pos] == descriptors[pos..end];
    StripOne(rest);
    Regroup(patched, if rest[0] != CA_TAG then descriptors[pos..end] else [], PatchedLoop(descriptors[end..], true));
  }

  lemma StripEnds(patched: Bytes, descriptors: Bytes, pos: nat, all: Bytes)
    requires Stripping(patched, descriptors, pos, all)
    requires pos + 2 > |descriptors| || pos + 2 + descriptors[pos + 1] as int > |descriptors|
    ensures patched == all
  {
    assert ParseDescs(descriptors[pos..]) == [];
    assert patched + [] == patched;
  }

  method PatchDescriptors(descriptors: Bytes, strip: bool) returns (patched: Bytes)
    ensures patched == PatchedLoop(descriptors, strip)
  {
    if !strip {
      return descriptors;
    }
    patched := [];
    var pos := 0;
    ghost var all := PatchedLoop(descriptors, true);
    assert descriptors[0..] == descriptors && [] + all == all;
    while pos + 2 <= |descriptors|
      invariant Stripping(patched, descriptors, pos, all)
      decreases |descriptors| - pos
    {
      var tag, len := descriptors[pos], descriptors[pos + 1] as int;
      var end := pos + 2 + len;
      if end > |descriptors| {
        StripEnds(patched, descriptors, pos, all);
        return;
      }
      StripNext(patched, descriptors, pos, all);
      if tag != CA_TAG {
        patched := patched + descriptors[pos..end];
      } else {
        assert patched + [] == patched;
      }
      pos := end;
    }
    StripEnds(patched, descriptors, pos, all);
  }

  /** What a stream becomes: nothing, or its bytes under the new PID. */
  function Kept(s: Stream, m: Mappings, strip: bool): seq<Stream> {
    match Find(m, s.pid)
    case None => []
    case Some(newPid) => [Stream(s.streamType, newPid % 8192, PatchedLoop(s.info, strip))]
  }

  ghost predicate Rewriting(out: Bytes, rest: Bytes, m: Mappings, strip: bool, all: Bytes) {
    out + StreamsBytes(RewriteStreams(ParseStreams(rest), m, strip)) == all
  }

  lemma {:induction false} StreamsBytesAppend(a: seq<Stream>, b: seq<Stream>)
    ensures StreamsBytes(a + b) == StreamsBytes(a) + StreamsBytes(b)
  {
    if a == [] {
      assert a + b == b;
    } else {
      assert (a + b)[1..] == a[1..] + b;
      StreamsBytesAppend(a[1..], b);
    }
  }

  lemma RewriteStep(out: Bytes, rest: Bytes, m: Mappings, strip: bool, all: Bytes)
    requires |rest| >= 9 && Rewriting(out, rest, m, strip, all)
    ensures Rewriting(out + StreamsBytes(Kept(FirstStream(rest), m, strip)), rest[StreamEnd(rest)..],
                      m, strip, all)
  {
    var s, ss := FirstStream(rest), ParseStreams(rest[StreamEnd(rest)..]);
    assert ParseStreams(rest) == [s] + ss;
    assert ([s] + ss)[1..] == ss;
    StreamsBytesAppend(Kept(s, m, strip), RewriteStreams(ss, m, strip));
  }

  lemma OneStreamBytes(s: Stream)
    ensures StreamsBytes([s]) == StreamBytes(s)
  {
    assert [s][1..] == [];
  }

  /** What is left of the section from `pos` on, which may lie behind the end. */
  function From(section: Bytes, pos: nat): Bytes {
    if pos <= |section| then section[pos..] else []
  }

  /** The stream whose entry starts at `pos`. */
  function StreamAt(section: Bytes, pos: nat): Stream
    requires pos + 9 <= |section|
  {
    var end := Min(pos + 5 + Length12(section[pos + 3], section[pos + 4]), |section|);
    Stream(section[pos], Pid13(section[pos + 1], section[pos + 2]), section[pos + 5..end])
  }

  lemma NextStream(section: Bytes, pos: nat, m: Mappings)
    requires pos + 9 <= |section| && KeptFit(From(section, pos), m)
    ensures var rest, end := From(section, pos), pos + 5 + Length12(section[pos + 3], section[pos + 4]);
            && rest[StreamEnd(rest)..] == From(section, end) && FirstStream(rest) == StreamAt(section, pos)
            && KeptFit(From(section, end), m)
            && (end <= |section| || Find(m, StreamAt(section, pos).pid) == None)
  {
    var rest, end := From(section, pos), pos + 5 + Length12(section[pos + 3], section[pos + 4]);
    assert rest[5..StreamEnd(rest)] == StreamAt(section, pos).info;
    if end <= |section| {
      assert rest[StreamEnd(rest)..] == section[end..];
    }
  }

  lemma NewStreamBytes(streamType: Byte, pid: nat, info: Bytes)
    ensures StreamsBytes([Stream(streamType, pid % 8192, info)])
            == [streamType, pid / 256 % 32 + 224, pid % 256, |info| / 256 % 16 + 240, |info| % 256] + info
  {
    assert pid / 256 % 32 == pid % 8192 / 256 && pid % 256 == pid % 8192 % 256;
    OneStreamBytes(Stream(streamType, pid % 8192, info));
  }

  /** The body of the loop: the bytes that replace one stream. */
  method PatchStream(section: Bytes, pos: nat, m: Mappings, strip: bool) returns (out: Bytes)
    requires pos + 9 <= |section|
    requires pos + 5 + Length12(section[pos + 3], section[pos + 4]) <= |section|
             || Find(m, Pid13(section[pos + 1], section[pos + 2])) == None
    ensures out == StreamsBytes(Kept(StreamAt(section, pos), m, strip))
  {
    var streamType := section[pos];
    var oldEsPid := section[pos + 1] as int % 32 * 256 + section[pos + 2];
    var esInfoLen := section[pos + 3] as int % 16 * 256 + section[pos + 4];
    var end := pos + 5 + esInfoLen;
    var found := Find(m, oldEsPid);
    if found.None? {
      return [];
    }
    var newEsPid := found.value;
    var esDescriptors := PatchDescriptors(section[pos + 5..end], strip);
    var newEsInfoLen := |esDescriptors|;
    NewStreamBytes(streamType, newEsPid, esDescriptors);
    out := [streamType, newEsPid / 256 % 32 + 224, newEsPid % 256,
            newEsInfoLen / 256 % 16 + 240, newEsInfoLen % 256] + esDescriptors;
  }

  lemma KeptOrFits(section: Bytes, pos: nat, m: Mappings)
    requires pos + 9 <= |section| && KeptFit(From(section, pos), m)
    ensures pos + 5 + Length12(section[pos + 3], section[pos + 4]) <= |section|
            || Find(m, Pid13(section[pos + 1], section[pos + 2])) == None
  {
    NextStream(section, pos, m);
  }

  ghost predicate RewritingAt(out: Bytes, section: Bytes, pos: nat, m: Mappings, strip: bool, all: Bytes) {
    KeptFit(From(section, pos), m) && Rewriting(out, From(section, pos), m, strip, all)
  }

  lemma RewriteNext(out: Bytes, kept: Bytes, section: Bytes, pos: nat, next: nat, m: Mappings, strip: bool, all: Bytes)
    requires pos + 9 <= |section| && RewritingAt(out, section, pos, m, strip, all)
    requires next == pos + 5 + Length12(section[pos + 3], section[pos + 4])
    requires kept == StreamsBytes(Kept(StreamAt(section, pos), m, strip))
    ensures RewritingAt(out + kept, section, next, m, strip, all)
  {
    RewriteStep(out, From(section, pos), m, strip, all);
    NextStream(section, pos, m);
  }

  lemma RewriteEnds(out: Bytes, rest: Bytes, m: Mappings, strip: bool, all: Bytes)
    requires Rewriting(out, rest, m, strip, all) && |rest| < 9
    ensures out == all
  {
    assert out + [] == out;
  }

  method PatchStreams(section: Bytes, start: nat, m: Mappings, strip: bool) returns (out: Bytes)
    requires start <= |section| && KeptFit(section[start..], m)
    ensures out == StreamsBytes(RewriteStreams(ParseStreams(section[start..]), m, strip))
  {
    out := [];
    var pos := start;
    var sectionEnd := |section| - 4;
    ghost var all := StreamsBytes(RewriteStreams(ParseStreams(section[start..]), m, strip));
    while pos + 5 <= sectionEnd
      invariant RewritingAt(out, section, pos, m, strip, all)
      decreases |section| - pos
    {
      var next := pos + 5 + (section[pos + 3] as int % 16 * 256 + section[pos + 4]);
      KeptOrFits(section, pos, m);
      var kept := PatchStream(section, pos, m, strip);
      RewriteNext(out, kept, section, pos, next, m, strip, all);
      out := out + kept;
      pos := next;
    }
    RewriteEnds(out, From(section, pos), m, strip, all);
  }

  /** Everything before the length is fixed. */
  method BuildBody(original: Bytes, newPcrPid: nat, m: Mappings, strip: bool) returns (section: Bytes)
    requires |original| >= 12 && 12 + ProgramInfoLength(original) <= |original|
    requires KeptFit(original[12 + ProgramInfoLength(original)..], m)
    ensures section == original[..8] + Body(Rewrite(Parse(original), newPcrPid, m, strip))
  {
    section := original[0..8];
    section := section + [newPcrPid / 256 % 32 + 224, newPcrPid % 256];
    var progInfoLen := original[10] as int % 16 * 256 + original[11];
    var programDescriptors := PatchDescriptors(original[12..12 + progInfoLen], strip);
    var newProgInfoLen := |programDescriptors|;
    section := section + [newProgInfoLen / 256 % 16 + 240, newProgInfoLen % 256];
    section := section + programDescriptors;
    var streams := PatchStreams(original, 12 + progInfoLen, m, strip);
    section := section + streams;
    var start := 12 + progInfoLen;
    BodyInPieces(original[..8], newPcrPid, programDescriptors,
                 RewriteStreams(ParseStreams(original[start..]), m, strip));
    RewrittenParts(original, newPcrPid, m, strip);
  }

  lemma RewrittenParts(s: Bytes, pcrPid: nat, m: Mappings, strip: bool)
    requires |s| >= 12 && 12 + ProgramInfoLength(s) <= |s|
    ensures var start := 12 + ProgramInfoLength(s);
            Rewrite(Parse(s), pcrPid, m, strip)
            == Table(pcrPid % 8192, PatchedLoop(s[12..start], strip), RewriteStreams(ParseStreams(s[start..]), m, strip))
  {
  }

  lemma BodyInPieces(header: Bytes, pcrPid: nat, program: Bytes, ss: seq<Stream>)
    ensures header + [pcrPid / 256 % 32 + 224, pcrPid % 256]
            + [|program| / 256 % 16 + 240, |program| % 256] + program + StreamsBytes(ss)
            == header + Body(Table(pcrPid % 8192, program, ss))
  {
    assert pcrPid / 256 % 32 == pcrPid % 8192 / 256 && pcrPid % 256 == pcrPid % 8192 % 256;
    FivePieces(header, pcrPid % 8192 / 256 + 224, pcrPid % 256, |program| / 256 % 16 + 240, |program| % 256,
               program, StreamsBytes(ss));
  }

  lemma FivePieces(header: Bytes, a: Byte, b: Byte, c: Byte, d: Byte, program: Bytes, streams: Bytes)
    ensures header + [a, b] + [c, d] + program + streams == header + ([a, b, c, d] + program + streams)
  {
    assert [a, b] + [c, d] == [a, b, c, d];
    assert header + [a, b] + [c, d] == header + [a, b, c, d];
    Regroup(header, [a, b, c, d], program);
    Regroup(header, [a, b, c, d] + program, streams);
  }

  lemma Regroup(x: Bytes, y: Bytes, z: Bytes)
    ensures x + y + z == x + (y + z)
  {
  }

  method PatchPmtSection(original: Bytes, newPcrPid: nat, m: Mappings, strip: bool) returns (section: Bytes)
    requires |original| >= 12 && 12 + ProgramInfoLength(original) <= |original|
    requires KeptFit(original[12 + ProgramInfoLength(original)..], m)
    ensures section == Encode(original[..8], Rewrite(Parse(original), newPcrPid, m, strip))
  {
    section := BuildBody(original, newPcrPid, m, strip);
    var sectionLength := (|section| - 3 + 4) % 0x1_0000;
    LengthBits(|section| + 1);
    section := section[1 := section[1] / 16 * 16 + sectionLength / 256 % 16];
    section := section[2 := sectionLength % 256];
    section := section + MpegCrc.Checksum(section);
  }

  // ----- rewriting preserves meaning -----

  predicate Encodable(t: Table) {
    |t.program| < 4096 && forall s :: s in t.streams ==> |s.info| < 4096
  }

  lemma {:induction false} ParseStreamsBack(ss: seq<Stream>, crc: Bytes)
    requires |crc| == 4 && forall s :: s in ss ==> |s.info| < 4096
    ensures ParseStreams(StreamsBytes(ss) + crc) == ss
    ensures StreamsFit(StreamsBytes(ss) + crc)
    decreases |ss|
  {
    var b := StreamsBytes(ss) + crc;
    if ss != [] {
      var s := ss[0];
      assert s in ss;
      var rest := StreamsBytes(ss[1..]) + crc;
      assert b == StreamBytes(s) + rest by {
        Regroup(StreamBytes(s), StreamsBytes(ss[1..]), crc);
      }
      StreamBack(s, rest);
      ParseStreamsBack(ss[1..], crc);
    }
  }

  lemma StreamBack(s: Stream, rest: Bytes)
    requires |s.info| < 4096
    ensures var b := StreamBytes(s) + rest;
            && |b| >= 5 && b[0] == s.streamType && Pid13(b[1], b[2]) == s.pid && Length12(b[3], b[4]) == |s.info|
            && b[5..5 + |s.info|] == s.info && b[5 + |s.info|..] == rest
  {
    HeaderBack(s);
    var b := StreamBytes(s) + rest;
    assert StreamBytes(s)[5..] == s.info;
    assert b[5..5 + |s.info|] == StreamBytes(s)[5..];
  }

  lemma HeaderBack(s: Stream)
    requires |s.info| < 4096
    ensures var b := StreamBytes(s);
            |b| == 5 + |s.info| && b[0] == s.streamType && Pid13(b[1], b[2]) == s.pid && Length12(b[3], b[4]) == |s.info|
  {
  }

  lemma EncodeTail(header: Bytes, t: Table)
    requires |header| == 8
    ensures Encode(header, t)[8..] == Body(t) + MpegCrc.Checksum(SetLength(header + Body(t)))
  {
  }

  lemma BodyParts(t: Table, crc: Bytes)
    requires |t.program| < 4096
    ensures var b := Body(t) + crc;
            && Pid13(b[0], b[1]) == t.pcrPid && Length12(b[2], b[3]) == |t.program|
            && b[4..4 + |t.program|] == t.program
            && b[4 + |t.program|..] == StreamsBytes(t.streams) + crc
  {
  }

  lemma ParseFromTail(s: Bytes, b: Bytes, n: nat)
    requires |s| >= 12 && s[8..] == b && Length12(b[2], b[3]) == n && 4 + n <= |b|
    ensures ProgramInfoLength(s) == n && s[12 + n..] == b[4 + n..]
    ensures Parse(s) == Table(Pid13(b[0], b[1]), b[4..4 + n], ParseStreams(b[4 + n..]))
  {
    assert b[0] == s[8] && b[1] == s[9] && b[2] == s[10] && b[3] == s[11];
    assert s[12..12 + n] == s[8..][4..4 + n];
    assert s[12 + n..] == s[8..][4 + n..];
  }

  /** A table that fits its length fields is read back from the section written for it. */
  lemma ParseEncode(header: Bytes, t: Table)
    requires |header| == 8 && Encodable(t)
    ensures |Encode(header, t)| == 16 + |t.program| + |StreamsBytes(t.streams)|
    ensures Parse(Encode(header, t)) == t
    ensures 12 + ProgramInfoLength(Encode(header, t)) <= |Encode(header, t)|
    ensures StreamsFit(Encode(header, t)[12 + ProgramInfoLength(Encode(header, t))..])
  {
    var crc := MpegCrc.Checksum(SetLength(header + Body(t)));
    EncodeTail(header, t);
    BodyParts(t, crc);
    ParseFromTail(Encode(header, t), Body(t) + crc, |t.program|);
    ParseStreamsBack(t.streams, crc);
  }

  lemma {:induction false} DescsBytesShrink(d: Bytes)
    ensures |DescsBytes(WithoutCa(ParseDescs(d)))| <= |d|
    decreases |d|
  {
    if |d| >= 2 && 2 + d[1] as int <= |d| {
      var end := 2 + d[1] as int;
      DescsBytesShrink(d[end..]);
      StripOne(d);
    }
  }

  lemma PatchedLoopShrinks(d: Bytes, strip: bool)
    ensures |PatchedLoop(d, strip)| <= |d|
  {
    DescsBytesShrink(d);
  }

  lemma {:induction false} StreamsBounded(b: Bytes)
    ensures forall s :: s in ParseStreams(b) ==> |s.info| < 4096
    decreases |b|
  {
    if |b| >= 9 {
      StreamsBounded(b[StreamEnd(b)..]);
    }
  }

  lemma {:induction false} RewriteBounded(ss: seq<Stream>, m: Mappings, strip: bool)
    requires forall s :: s in ss ==> |s.info| < 4096
    ensures forall s :: s in RewriteStreams(ss, m, strip) ==> |s.info| < 4096
    decreases |ss|
  {
    if ss != [] {
      assert ss[0] in ss;
      PatchedLoopShrinks(ss[0].info, strip);
      RewriteBounded(ss[1..], m, strip);
    }
  }

  lemma RewriteEncodable(s: Bytes, pcrPid: nat, m: Mappings, strip: bool)
    requires |s| >= 12
    ensures Encodable(Rewrite(Parse(s), pcrPid, m, strip))
  {
    PatchedLoopShrinks(Parse(s).program, strip);
    StreamsBounded(s[Min(12 + ProgramInfoLength(s), |s|)..]);
    RewriteBounded(Parse(s).streams, m, strip);
  }

  /** The section the rewriter builds from any section, read back, is the intended table. */
  lemma RewritingPreservesMeaning(s: Bytes, pcrPid: nat, m: Mappings, strip: bool)
    requires |s| >= 12
    ensures Parse(Encode(s[..8], Rewrite(Parse(s), pcrPid, m, strip))) == Rewrite(Parse(s), pcrPid, m, strip)
  {
    RewriteEncodable(s, pcrPid, m, strip);
    ParseEncode(s[..8], Rewrite(Parse(s), pcrPid, m, strip));
  }

  lemma {:induction false} ParseDescsBack(ds: seq<Desc>)
    requires forall d :: d in ds ==> |d.body| < 256
    ensures ParseDescs(DescsBytes(ds)) == ds
    decreases |ds|
  {
    if ds != [] {
      assert ds[0] in ds;
      DescBack(ds[0], DescsBytes(ds[1..]));
      ParseDescsBack(ds[1..]);
    }
  }

  lemma DescBack(d: Desc, rest: Bytes)
    requires |d.body| < 256
    ensures var b := DescBytes(d) + rest;
            && |b| >= 2 && b[0] == d.tag && b[1] as int == |d.body| && 2 + |d.body| <= |b|
            && b[2..2 + |d.body|] == d.body && b[2 + |d.body|..] == rest
  {
  }

  lemma {:induction false} WithoutCaBodies(d: Bytes)
    ensures forall x :: x in WithoutCa(ParseDescs(d)) ==> |x.body| < 256 && x.tag != CA_TAG
    decreases |d|
  {
    if |d| >= 2 && 2 + d[1] as int <= |d| {
      var end := 2 + d[1] as int;
      WithoutCaBodies(d[end..]);
      var ds := ParseDescs(d[end..]);
      assert ([Desc(d[0], d[2..end])] + ds)[1..] == ds;
    }
  }

  /** Read back as descriptors, a stripped loop is the original without its CA descriptors: all
    * others byte for byte and in order, none added. */
  lemma StrippingPreservesTheRest(d: Bytes)
    ensures ParseDescs(PatchedLoop(d, true)) == WithoutCa(ParseDescs(d))
    ensures forall x :: x in ParseDescs(PatchedLoop(d, true)) ==> x.tag != CA_TAG
  {
    WithoutCaBodies(d);
    ParseDescsBack(WithoutCa(ParseDescs(d)));
  }

  lemma {:induction false} WithoutCaTwice(ds: seq<Desc>)
    ensures WithoutCa(WithoutCa(ds)) == WithoutCa(ds)
    decreases |ds|
  {
    if ds != [] {
      WithoutCaTwice(ds[1..]);
      var w := WithoutCa(ds[1..]);
      if ds[0].tag != CA_TAG {
        assert WithoutCa(ds) == [ds[0]] + w;
        assert ([ds[0]] + w)[1..] == w;
      } else {
        assert WithoutCa(ds) == w;
      }
    }
  }

  lemma PatchedLoopTwice(d: Bytes, strip: bool)
    ensures PatchedLoop(PatchedLoop(d, strip), strip) == PatchedLoop(d, strip)
  {
    StrippingPreservesTheRest(d);
    WithoutCaTwice(ParseDescs(d));
  }

  /** Mappings that give every PID they keep its own number, as `process_pmt` builds them. */
  ghost predicate KeepsPids(m: Mappings) {
    forall k :: 0 <= k < |m| ==> m[k].0 == m[k].1
  }

  lemma {:induction false} FindKeeps(m: Mappings, pid: Pid)
    requires KeepsPids(m)
    ensures Find(m, pid).Some? ==> Find(m, pid).value == pid
    decreases |m|
  {
    if m != [] {
      FindKeeps(m[1..], pid);
    }
  }

  lemma {:induction false} RewriteStreamsTwice(ss: seq<Stream>, m: Mappings, strip: bool)
    requires KeepsPids(m)
    ensures var once := RewriteStreams(ss, m, strip); RewriteStreams(once, m, strip) == once
    decreases |ss|
  {
    if ss != [] {
      var rest := RewriteStreams(ss[1..], m, strip);
      RewriteStreamsTwice(ss[1..], m, strip);
      FindKeeps(m, ss[0].pid);
      PatchedLoopTwice(ss[0].info, strip);
      var kept := Kept(ss[0], m, strip);
      if kept != [] {
        assert (kept + rest)[1..] == rest;
      } else {
        assert kept + rest == rest;
      }
    }
  }

  /** Rewriting what was rewritten changes no byte. */
  lemma RewritingTwiceChangesNothing(s: Bytes, pcrPid: nat, m: Mappings, strip: bool)
    requires |s| >= 12 && KeepsPids(m)
    ensures var once := Encode(s[..8], Rewrite(Parse(s), pcrPid, m, strip));
            Encode(once[..8], Rewrite(Parse(once), pcrPid, m, strip)) == once
  {
    var t := Rewrite(Parse(s), pcrPid, m, strip);
    var once := Encode(s[..8], t);
    RewritingPreservesMeaning(s, pcrPid, m, strip);
    PatchedLoopTwice(Parse(s).program, strip);
    RewriteStreamsTwice(Parse(s).streams, m, strip);
    assert Rewrite(t, pcrPid, m, strip) == t;
    HeaderKept(s[..8], t);
  }

  lemma HeaderKept(header: Bytes, t: Table)
    requires |header| == 8
    ensures Encode(Encode(header, t)[..8], t) == Encode(header, t)
  {
    var raw := header + Body(t);
    var h := Encode(header, t)[..8];
    assert h == header[1 := SetLength(raw)[1]][2 := SetLength(raw)[2]];
    assert SetLength(h + Body(t)) == SetLength(raw);
  }

  // ----- lengths -----

  /** Both loops end before the checksum. */
  predicate InFront(b: Bytes)
    decreases |b|
  {
    |b| >= 4 && (|b| >= 9 ==> 5 + Length12(b[3], b[4]) + 4 <= |b| && InFront(b[5 + Length12(b[3], b[4])..]))
  }

  lemma {:induction false} StreamsShrink(b: Bytes, m: Mappings, strip: bool)
    requires InFront(b)
    ensures |StreamsBytes(RewriteStreams(ParseStreams(b), m, strip))| + 4 <= |b|
    decreases |b|
  {
    if |b| >= 9 {
      var s, ss := FirstStream(b), ParseStreams(b[StreamEnd(b)..]);
      StreamsShrink(b[StreamEnd(b)..], m, strip);
      assert ParseStreams(b) == [s] + ss;
      assert ([s] + ss)[1..] == ss;
      StreamsBytesAppend(Kept(s, m, strip), RewriteStreams(ss, m, strip));
      PatchedLoopShrinks(s.info, strip);
      if Kept(s, m, strip) != [] {
        OneStreamBytes(Kept(s, m, strip)[0]);
      }
    }
  }

  /** A well-formed section never grows, so one that came out of the reassembler yields a section
    * with a right length field and a checksum that receivers accept. */
  lemma RewrittenIsWellSized(s: Bytes, pcrPid: nat, m: Mappings, strip: bool)
    requires |s| >= 12 && 12 + ProgramInfoLength(s) <= |s| && InFront(s[12 + ProgramInfoLength(s)..])
    requires WellSized(s)
    ensures var e := Encode(s[..8], Rewrite(Parse(s), pcrPid, m, strip));
            |e| <= |s| && WellSized(e) && MpegCrc.Crc32(MpegCrc.INITIAL, e) == 0
  {
    var t := Rewrite(Parse(s), pcrPid, m, strip);
    PatchedLoopShrinks(Parse(s).program, strip);
    StreamsShrink(s[12 + ProgramInfoLength(s)..], m, strip);
    RewriteEncodable(s, pcrPid, m, strip);
    ParseEncode(s[..8], t);
    SealedIsRight(s[..8] + Body(t));
  }

  // ----- through the analyser -----

  lemma {:induction false} NoneIsCa(ds: seq<Desc>)
    ensures forall d :: d in WithoutCa(ds) ==> d.tag != CA_TAG
    decreases |ds|
  {
    if ds != [] {
      NoneIsCa(ds[1..]);
    }
  }

  lemma {:induction false} NoCaNoted(i: DescInfo, ds: seq<Desc>)
    ensures NoteAll(i, WithoutCa(ds)).lang == NoteAll(i, ds).lang
    ensures NoteAll(i, WithoutCa(ds)).ca == i.ca
    decreases |ds|
  {
    if ds != [] {
      var w := WithoutCa(ds[1..]);
      NoCaNoted(Note(i, ds[0]), ds[1..]);
      if ds[0].tag != CA_TAG {
        assert WithoutCa(ds) == [ds[0]] + w;
        assert ([ds[0]] + w)[1..] == w;
      } else {
        assert WithoutCa(ds) == w;
        NoneIsCa(ds[1..]);
        LangIndependent(i, Note(i, ds[0]), w);
      }
    }
  }

  lemma {:induction false} LangIndependent(i: DescInfo, j: DescInfo, ds: seq<Desc>)
    requires i.lang == j.lang
    ensures NoteAll(i, ds).lang == NoteAll(j, ds).lang
    ensures (forall d :: d in ds ==> d.tag != CA_TAG) ==> NoteAll(i, ds).ca == i.ca
    decreases |ds|
  {
    if ds != [] {
      LangIndependent(Note(i, ds[0]), Note(j, ds[0]), ds[1..]);
    }
  }

  /** What the analyser should say of a rewritten table, from what it said of the original. */
  function ExpectedStreams(ss: seq<StreamInfo>, m: Mappings, strip: bool): seq<StreamInfo> {
    if ss == [] then []
    else
      (match Find(m, ss[0].pid)
       case None => []
       case Some(newPid) =>
         [StreamInfo(ss[0].streamType, newPid % 8192,
                     if strip then ss[0].descriptors.(ca := false) else ss[0].descriptors)])
      + ExpectedStreams(ss[1..], m, strip)
  }

  lemma {:induction false} SummariesRewritten(ss: seq<Stream>, m: Mappings, strip: bool)
    ensures StreamSummaries(RewriteStreams(ss, m, strip))
            == ExpectedStreams(StreamSummaries(ss), m, strip)
    decreases |ss|
  {
    if ss != [] {
      var rest := RewriteStreams(ss[1..], m, strip);
      SummariesRewritten(ss[1..], m, strip);
      var sums := StreamSummaries(ss);
      assert sums[1..] == StreamSummaries(ss[1..]);
      var kept := Kept(ss[0], m, strip);
      if kept != [] {
        assert (kept + rest)[1..] == rest;
        if strip {
          StrippingPreservesTheRest(ss[0].info);
          NoCaNoted(NOTHING, ParseDescs(ss[0].info));
        }
      } else {
        assert kept + rest == rest;
      }
    }
  }

  /** `analyze_pmt(patch_pmt_section(s))`: the requested clock PID and the mapped streams, in the
    * original order, with their languages, and no sign of conditional access when stripping. */
  lemma AnalysisOfRewritten(s: Bytes, pcrPid: nat, m: Mappings, strip: bool)
    requires |s| >= 12
    ensures Summary(Parse(Encode(s[..8], Rewrite(Parse(s), pcrPid, m, strip))))
            == PmtInfo(pcrPid % 8192, ExpectedStreams(Summary(Parse(s)).streams, m, strip))
  {
    RewritingPreservesMeaning(s, pcrPid, m, strip);
    SummariesRewritten(Parse(s).streams, m, strip);
  }

  // ----- change detection -----

  /** A stream as `is_pmt_changed` compares it: type first, then PID. */
  function Key(s: StreamInfo): nat {
    s.streamType * 8192 as int + s.pid
  }

  function Keys(ss: seq<StreamInfo>): (ks: seq<nat>)
    ensures |ks| == |ss|
  {
    seq(|ss|, i requires 0 <= i < |ss| => Key(ss[i]))
  }

  predicate Sorted(ks: seq<nat>) {
    forall i, j :: 0 <= i < j < |ks| ==> ks[i] <= ks[j]
  }

  function Insert(k: nat, s: seq<nat>): (r: seq<nat>)
    ensures multiset(r) == multiset(s) + multiset{k}
  {
    if s == [] then [k]
    else
      assert s == [s[0]] + s[1..];
      if k <= s[0] then [k] + s else [s[0]] + Insert(k, s[1..])
  }

  lemma {:induction false} InsertSorted(k: nat, s: seq<nat>)
    requires Sorted(s)
    ensures Sorted(Insert(k, s))
    decreases |s|
  {
    if s != [] && k > s[0] {
      var r := Insert(k, s[1..]);
      InsertSorted(k, s[1..]);
      forall j | 0 <= j < |r| ensures s[0] <= r[j] {
        assert r[j] in multiset(r);
      }
      SortedCons(s[0], r);
    } else if s != [] {
      SortedCons(k, s);
    }
  }

  lemma SortedCons(k: nat, s: seq<nat>)
    requires Sorted(s) && forall j :: 0 <= j < |s| ==> k <= s[j]
    ensures Sorted([k] + s)
  {
  }

  /** Some sorted permutation, which is all that `sort_unstable` promises. */
  function SortUnstable(ks: seq<nat>): (r: seq<nat>)
    ensures Sorted(r) && multiset(r) == multiset(ks)
  {
    if ks == [] then []
    else
      assert ks == [ks[0]] + ks[1..];
      InsertSorted(ks[0], SortUnstable(ks[1..]));
      Insert(ks[0], SortUnstable(ks[1..]))
  }

  /** There is only one sorted permutation. */
  lemma {:induction false} SortedUnique(a: seq<nat>, b: seq<nat>)
    requires Sorted(a) && Sorted(b) && multiset(a) == multiset(b)
    ensures a == b
    decreases |a|
  {
    SameLength(a, b);
    if a != [] {
      LeastFirst(a, b[0], b);
      LeastFirst(b, a[0], a);
      TailsAgree(a, b);
      SortedUnique(a[1..], b[1..]);
      HeadBack(a, b);
    }
  }

  lemma SameLength(a: seq<nat>, b: seq<nat>)
    requires multiset(a) == multiset(b)
    ensures |a| == |b|
  {
    assert |a| == |multiset(a)| && |b| == |multiset(b)|;
  }

  /** Whatever occurs in a sorted list, under any arrangement, is not below its head. */
  lemma LeastFirst(a: seq<nat>, x: nat, b: seq<nat>)
    requires a != [] && Sorted(a) && multiset(a) == multiset(b) && x in b
    ensures a[0] <= x
  {
    assert x in multiset(b);
    assert x in a;
  }

  lemma TailsAgree(a: seq<nat>, b: seq<nat>)
    requires a != [] && b != [] && a[0] == b[0] && multiset(a) == multiset(b)
    requires Sorted(a) && Sorted(b)
    ensures multiset(a[1..]) == multiset(b[1..]) && Sorted(a[1..]) && Sorted(b[1..])
  {
    HeadAside(a);
    HeadAside(b);
  }

  lemma HeadAside(a: seq<nat>)
    requires a != []
    ensures multiset(a[1..]) == multiset(a) - multiset{a[0]}
  {
    assert a == [a[0]] + a[1..];
  }

  lemma HeadBack(a: seq<nat>, b: seq<nat>)
    requires a != [] && b != [] && a[0] == b[0] && a[1..] == b[1..]
    ensures a == b
  {
    assert a == [a[0]] + a[1..] && b == [b[0]] + b[1..];
  }

  /** Two tables differ exactly if the clock PID or the multiset of (type, PID) pairs differs; the
    * order of the streams and their descriptors do not matter. */
  method IsPmtChanged(a: PmtInfo, b: PmtInfo) returns (changed: bool)
    ensures changed <==> a.pcrPid != b.pcrPid || multiset(Keys(a.streams)) != multiset(Keys(b.streams))
  {
    if a.pcrPid != b.pcrPid || |a.streams| != |b.streams| {
      assert multiset(Keys(a.streams)) == multiset(Keys(b.streams)) ==>
          |a.streams| == |multiset(Keys(a.streams))| == |b.streams|;
      return true;
    }
    var aStreams, bStreams := Keys(a.streams), Keys(b.streams);
    if aStreams == bStreams {
      return false;
    }
    var aSorted := SortUnstable(aStreams);
    var bSorted := SortUnstable(bStreams);
    changed := aSorted != bSorted;
    if multiset(aStreams) == multiset(bStreams) {
      SortedUnique(aSorted, bSorted);
    }
  }
}
