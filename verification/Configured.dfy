/** The tables of one configured program: what the multiplexer makes of the PAT, PMT and SDT it receives
  * (src/mux.rs:505-662 and src/mux.rs:808-828), and that this is what its receivers get. */
module Configured {
  import opened Common
  import opened Mux
  import Pat
  import Pmt
  import Sdt
  import Sections

  const DEFAULT_SERVICE_TYPE: Byte := 1

  /** What the configuration says of the program.  Names are trimmed; `shown` is the trimmed text of a
    * received name, and `sortPat` the library's unstable sort. */
  datatype Program = Program(
    programId: nat, pmtPid: Pid, videoPids: seq<Pid>, audioPids: seq<Pid>, unscrambled: bool,
    serviceType: nat, providerName: Bytes, serviceName: Bytes,
    shown: Sdt.Text -> Bytes, sortPat: seq<Pat.PatInfo> -> seq<Pat.PatInfo>)

  // ----- PAT -----

  function PatSection(p: Program, section: Bytes): Bytes {
    if |section| < 8 then section else Pat.Patched(section, [(p.programId, p.pmtPid)])
  }

  // ----- PMT -----

  /** Every configured stream keeps its PID: video first, then audio. */
  function Identity(pids: seq<Pid>): Pmt.Mappings {
    if pids == [] then [] else [(pids[0] as nat, pids[0] as nat)] + Identity(pids[1..])
  }

  function PmtSection(p: Program, section: Bytes): Bytes {
    if |section| < 12 then section
    else
      var t := Pmt.Parse(section);
      Pmt.Encode(section[..8], Pmt.Rewrite(t, t.pcrPid, Identity(p.videoPids + p.audioPids), p.unscrambled))
  }

  function PmtInfoOf(section: Bytes): Pmt.PmtInfo {
    if |section| < 12 then Pmt.PmtInfo(0, []) else Pmt.Summary(Pmt.Parse(section))
  }

  function PmtChanged(a: Pmt.PmtInfo, b: Pmt.PmtInfo): bool {
    a.pcrPid != b.pcrPid || multiset(Pmt.Keys(a.streams)) != multiset(Pmt.Keys(b.streams))
  }

  // ----- SDT -----

  /** `pat_transport_stream_id`: bytes 8 and 9 of the cached packet. */
  function TransportStreamId(pat: Packet): nat {
    pat[8] as int * 256 + pat[9]
  }

  function FindService(services: seq<Sdt.SdtInfo>, id: nat): Option<Sdt.SdtInfo> {
    if services == [] then None
    else if services[0].serviceId == id then Some(services[0])
    else FindService(services[1..], id)
  }

  /** The received table fills in what the configuration leaves open. */
  function ServiceSection(p: Program, pat: Packet, received: Sdt.SdtInfo): Bytes {
    var serviceType: Byte :=
      if p.serviceType != 0 then p.serviceType % 256
      else if received.serviceType != 0 then received.serviceType else DEFAULT_SERVICE_TYPE;
    Sdt.PreparedSection(TransportStreamId(pat), p.programId, serviceType,
                        if p.providerName == [] then p.shown(received.provider) else p.providerName,
                        if p.serviceName == [] then p.shown(received.service) else p.serviceName)
  }

  function SdtSection(p: Program, pat: Packet, section: Bytes): Option<Bytes> {
    if !Sdt.Analyzable(section) then None
    else match FindService(Sdt.Services(section), p.programId)
      case None => None
      case Some(received) => Some(ServiceSection(p, pat, received))
  }

  function DefaultSdtSection(p: Program, pat: Packet): Bytes {
    Sdt.PreparedSection(TransportStreamId(pat), p.programId,
                        if p.serviceType == 0 then DEFAULT_SERVICE_TYPE else p.serviceType % 256,
                        p.providerName, p.serviceName)
  }

  // ----- the same, step by step -----

  method RewritePat(p: Program, section: Bytes) returns (out: Bytes)
    requires |section| >= 8
    ensures out == PatSection(p, section)
  {
    out := Pat.PatchPatSection(section, [(p.programId, p.pmtPid as nat)]);
  }

  lemma {:induction false} IdentityAppends(a: seq<Pid>, x: Pid)
    ensures Identity(a + [x]) == Identity(a) + [(x as nat, x as nat)]
  {
    if a == [] {
      assert a + [x] == [x];
    } else {
      assert (a + [x])[1..] == a[1..] + [x];
      IdentityAppends(a[1..], x);
    }
  }

  method MapStreams(videoPids: seq<Pid>, audioPids: seq<Pid>) returns (esMapping: Pmt.Mappings)
    ensures esMapping == Identity(videoPids + audioPids)
  {
    esMapping := [];
    for i := 0 to |videoPids|
      invariant esMapping == Identity(videoPids[..i])
    {
      IdentityAppends(videoPids[..i], videoPids[i]);
      assert videoPids[..i] + [videoPids[i]] == videoPids[..i + 1];
      esMapping := esMapping + [(videoPids[i] as nat, videoPids[i] as nat)];
    }
    assert videoPids[..|videoPids|] == videoPids == videoPids + audioPids[..0];
    for i := 0 to |audioPids|
      invariant esMapping == Identity(videoPids + audioPids[..i])
    {
      IdentityAppends(videoPids + audioPids[..i], audioPids[i]);
      assert videoPids + audioPids[..i] + [audioPids[i]] == videoPids + audioPids[..i + 1];
      esMapping := esMapping + [(audioPids[i] as nat, audioPids[i] as nat)];
    }
    assert audioPids[..|audioPids|] == audioPids;
  }

  /** What `process_pmt` does with the first PMT. */
  method RewritePmt(p: Program, section: Bytes) returns (out: Bytes)
    requires |section| >= 12 && 12 + Pmt.ProgramInfoLength(section) <= |section|
    requires Pmt.StreamsFit(section[12 + Pmt.ProgramInfoLength(section)..])
    requires Pmt.KeptFit(section[12 + Pmt.ProgramInfoLength(section)..], Identity(p.videoPids + p.audioPids))
    ensures out == PmtSection(p, section)
  {
    var pmtInfo := Pmt.AnalyzePmt(section);
    var esMapping := MapStreams(p.videoPids, p.audioPids);
    out := Pmt.PatchPmtSection(section, pmtInfo.pcrPid, esMapping, p.unscrambled);
  }

  /** What `process_sdt` does with an SDT. */
  method PrepareService(p: Program, pat: Packet, section: Bytes) returns (out: Option<Bytes>)
    requires Sdt.Analyzable(section)
    ensures out == SdtSection(p, pat, section)
  {
    var services := Sdt.AnalyzeSdt(section);
    var i := 0;
    while i < |services| && services[i].serviceId != p.programId
      invariant i <= |services| && FindService(services, p.programId) == FindService(services[i..], p.programId)
    {
      assert services[i..][1..] == services[i + 1..];
      i := i + 1;
    }
    if i == |services| {
      return None;
    }
    out := Some(ServiceSection(p, pat, services[i]));
  }

  /** The table functions of the multiplexer for a program. */
  function TablesFor(p: Program): Tables {
    Tables(section => PatSection(p, section),
           (a, b) => Pat.Changed(Pat.Programs(a), Pat.Programs(b), p.sortPat),
           section => PmtSection(p, section),
           (a, b) => PmtChanged(PmtInfoOf(a), PmtInfoOf(b)),
           (pat, section) => SdtSection(p, pat, section),
           pat => DefaultSdtSection(p, pat))
  }

  /** A configuration of the multiplexer for the program. */
  ghost predicate ConfiguredFor(cfg: Config, p: Program) {
    cfg.tables == TablesFor(p) && cfg.pmtPid == p.pmtPid && cfg.videoPids == p.videoPids
    && cfg.audioPids == p.audioPids && p.programId < 0x1_0000
  }

  // ----- what the tables mean -----

  lemma OneProgram(p: Program, received: Bytes)
    requires |received| >= 8 && p.programId < 0x1_0000
    ensures var section := PatSection(p, received);
            && |section| == 16 && Sections.WellSized(section) && section[3..8] == received[3..8]
            && Pat.Programs(section) == (if p.programId == 0 then [] else [Pat.PatInfo(p.programId, p.pmtPid)])
  {
    var mapped := [(p.programId, p.pmtPid as nat)];
    Pat.PatchedIsRight(received, mapped);
    OneMapped(p.programId, p.pmtPid);
  }

  lemma OneMapped(id: nat, pid: Pid)
    requires id < 0x1_0000
    ensures Pat.Expected([(id, pid as nat)]) == if id == 0 then [] else [Pat.PatInfo(id, pid)]
  {
    var mapped := [(id, pid as nat)];
    assert mapped[1..] == [];
  }

  /** The streams that are configured, as they were, without their CA mark if it is stripped. */
  function ConfiguredStreams(ss: seq<Pmt.StreamInfo>, pids: seq<Pid>, strip: bool): seq<Pmt.StreamInfo> {
    if ss == [] then []
    else
      (if ss[0].pid in pids
       then [if strip then ss[0].(descriptors := ss[0].descriptors.(ca := false)) else ss[0]] else [])
      + ConfiguredStreams(ss[1..], pids, strip)
  }

  lemma {:induction false} FindIdentity(pids: seq<Pid>, pid: Pid)
    ensures Pmt.Find(Identity(pids), pid) == if pid in pids then Some(pid as nat) else None
  {
    if pids != [] {
      assert Identity(pids)[1..] == Identity(pids[1..]);
      FindIdentity(pids[1..], pid);
    }
  }

  lemma {:induction false} IdentityKeeps(ss: seq<Pmt.StreamInfo>, pids: seq<Pid>, strip: bool)
    ensures Pmt.ExpectedStreams(ss, Identity(pids), strip) == ConfiguredStreams(ss, pids, strip)
    decreases |ss|
  {
    if ss != [] {
      FindIdentity(pids, ss[0].pid);
      IdentityKeeps(ss[1..], pids, strip);
    }
  }

  /** A PMT whose loops end in front of its checksum; the source indexes beyond the end of others. */
  predicate Readable(section: Bytes) {
    |section| >= 12 && 12 + Pmt.ProgramInfoLength(section) <= |section|
    && Pmt.InFront(section[12 + Pmt.ProgramInfoLength(section)..])
  }

  /** What a PMT should become. */
  function ExpectedPmt(p: Program, received: Pmt.PmtInfo): Pmt.PmtInfo {
    Pmt.PmtInfo(received.pcrPid, ConfiguredStreams(received.streams, p.videoPids + p.audioPids, p.unscrambled))
  }

  lemma PmtHasMeaning(p: Program, received: Bytes)
    requires |received| >= 12
    ensures PmtInfoOf(PmtSection(p, received)) == ExpectedPmt(p, PmtInfoOf(received))
  {
    var pids := p.videoPids + p.audioPids;
    SectionAnalyzed(p, received);
    IdentityKeeps(PmtInfoOf(received).streams, pids, p.unscrambled);
  }

  lemma SectionAnalyzed(p: Program, received: Bytes)
    requires |received| >= 12
    ensures var info := PmtInfoOf(received);
            PmtInfoOf(PmtSection(p, received))
            == Pmt.PmtInfo(info.pcrPid, Pmt.ExpectedStreams(info.streams, Identity(p.videoPids + p.audioPids), p.unscrambled))
  {
    var t, m := Pmt.Parse(received), Identity(p.videoPids + p.audioPids);
    var out := Pmt.Encode(received[..8], Pmt.Rewrite(t, t.pcrPid, m, p.unscrambled));
    Pmt.AnalysisOfRewritten(received, t.pcrPid, m, p.unscrambled);
    InfoFrom(received, out, t.pcrPid, m, p.unscrambled);
  }

  lemma InfoFrom(received: Bytes, out: Bytes, pcrPid: Pid, m: Pmt.Mappings, strip: bool)
    requires |received| >= 12 && |out| >= 12 && pcrPid == Pmt.Parse(received).pcrPid
    requires Pmt.Summary(Pmt.Parse(out))
             == Pmt.PmtInfo(pcrPid % 8192, Pmt.ExpectedStreams(Pmt.Summary(Pmt.Parse(received)).streams, m, strip))
    ensures var info := PmtInfoOf(received);
            PmtInfoOf(out) == Pmt.PmtInfo(info.pcrPid, Pmt.ExpectedStreams(info.streams, m, strip))
  {
    SameInfo(received);
    SameInfo(out);
  }

  lemma SameInfo(section: Bytes)
    requires |section| >= 12
    ensures PmtInfoOf(section) == Pmt.Summary(Pmt.Parse(section))
    ensures PmtInfoOf(section).pcrPid == Pmt.Parse(section).pcrPid
  {
  }

  lemma PmtIsWellSized(p: Program, received: Bytes)
    requires Readable(received) && Sections.WellSized(received)
    ensures Sections.WellSized(PmtSection(p, received)) && |PmtSection(p, received)| <= |received|
  {
    Pmt.RewrittenIsWellSized(received, Pmt.Parse(received).pcrPid, Identity(p.videoPids + p.audioPids), p.unscrambled);
  }

  /** What a descriptor loop becomes takes this many bytes. */
  function LoopSize(d: Bytes, strip: bool): nat {
    if strip then KeptSize(Pmt.ParseDescs(d)) else |d|
  }

  function KeptSize(ds: seq<Pmt.Desc>): nat {
    if ds == [] then 0
    else (if ds[0].tag == Pmt.CA_TAG then 0 else 2 + |ds[0].body|) + KeptSize(ds[1..])
  }

  function StreamsSize(ss: seq<Pmt.Stream>, pids: seq<Pid>, strip: bool): nat {
    if ss == [] then 0
    else (if ss[0].pid in pids then 5 + LoopSize(ss[0].info, strip) else 0) + StreamsSize(ss[1..], pids, strip)
  }

  /** The bytes a received PMT takes once rewritten: those that are fixed, the program's descriptors and
    * the configured streams with theirs. */
  function PmtSize(p: Program, received: Bytes): nat
    requires |received| >= 12
  {
    var t := Pmt.Parse(received);
    16 + LoopSize(t.program, p.unscrambled) + StreamsSize(t.streams, p.videoPids + p.audioPids, p.unscrambled)
  }

  lemma {:induction false} KeptSizeIs(ds: seq<Pmt.Desc>)
    ensures |Pmt.DescsBytes(Pmt.WithoutCa(ds))| == KeptSize(ds)
    decreases |ds|
  {
    if ds != [] {
      var rest := Pmt.WithoutCa(ds[1..]);
      KeptSizeIs(ds[1..]);
      if ds[0].tag != Pmt.CA_TAG {
        assert Pmt.WithoutCa(ds) == [ds[0]] + rest;
        assert ([ds[0]] + rest)[1..] == rest;
        assert |Pmt.DescBytes(ds[0])| == 2 + |ds[0].body|;
      } else {
        assert Pmt.WithoutCa(ds) == rest;
      }
    }
  }

  lemma LoopSizeIs(d: Bytes, strip: bool)
    ensures |Pmt.PatchedLoop(d, strip)| == LoopSize(d, strip)
  {
    KeptSizeIs(Pmt.ParseDescs(d));
  }

  lemma {:induction false} StreamsSizeIs(ss: seq<Pmt.Stream>, pids: seq<Pid>, strip: bool)
    ensures |Pmt.StreamsBytes(Pmt.RewriteStreams(ss, Identity(pids), strip))| == StreamsSize(ss, pids, strip)
    decreases |ss|
  {
    if ss != [] {
      var rest := Pmt.RewriteStreams(ss[1..], Identity(pids), strip);
      StreamsSizeIs(ss[1..], pids, strip);
      FindIdentity(pids, ss[0].pid);
      if ss[0].pid in pids {
        LoopSizeIs(ss[0].info, strip);
        OneStreamMore(Pmt.Stream(ss[0].streamType, ss[0].pid, Pmt.PatchedLoop(ss[0].info, strip)), rest);
      } else {
        assert [] + rest == rest;
      }
    }
  }

  lemma OneStreamMore(s: Pmt.Stream, rest: seq<Pmt.Stream>)
    ensures |Pmt.StreamsBytes([s] + rest)| == 5 + |s.info| + |Pmt.StreamsBytes(rest)|
  {
    assert ([s] + rest)[1..] == rest;
  }

  lemma PmtSizeIs(p: Program, received: Bytes)
    requires |received| >= 12
    ensures |PmtSection(p, received)| == PmtSize(p, received)
  {
    var t := Pmt.Parse(received);
    LoopSizeIs(t.program, p.unscrambled);
    StreamsSizeIs(t.streams, p.videoPids + p.audioPids, p.unscrambled);
    EncodeSize(received[..8], Pmt.Rewrite(t, t.pcrPid, Identity(p.videoPids + p.audioPids), p.unscrambled));
  }

  lemma EncodeSize(header: Bytes, t: Pmt.Table)
    requires |header| == 8
    ensures |Pmt.Encode(header, t)| == 16 + |t.program| + |Pmt.StreamsBytes(t.streams)|
  {
    assert |header + Pmt.Body(t)| == 12 + |t.program| + |Pmt.StreamsBytes(t.streams)|;
  }

  const LONG_LOOP: Bytes := [0x05, 168] + Fill(168, 0)
  const LONG_PMT: Bytes := Pmt.Encode([2, 0xB0, 0, 0, 1, 0xC1, 0, 0], Pmt.Table(0x100, LONG_LOOP, []))

  /** A PMT as it may be received whose rewriting, whatever is configured, no receiver gets. */
  lemma LongPmtIsLost(p: Program, r: Sections.Reasm, pid: Pid, cc: nat)
    ensures Sections.WellSized(LONG_PMT) && Readable(LONG_PMT) && PmtSize(p, LONG_PMT) == 186
    ensures Sections.Accept(r, Sections.PackOne(PmtSection(p, LONG_PMT), pid, cc)).1 != Some(PmtSection(p, LONG_PMT))
  {
    var header, t := [2, 0xB0, 0, 0, 1, 0xC1, 0, 0], Pmt.Table(0x100, LONG_LOOP, []);
    Pmt.ParseEncode(header, t);
    Sections.SealedIsRight(header + Pmt.Body(t));
    EncodeSize(header, t);
    assert |LONG_PMT[12 + Pmt.ProgramInfoLength(LONG_PMT)..]| == 4;
    assert LONG_LOOP[2..170] == Fill(168, 0);
    assert Pmt.ParseDescs(LONG_LOOP[170..]) == [];
    assert Pmt.ParseDescs(LONG_LOOP) == [Pmt.Desc(0x05, Fill(168, 0))];
    assert [Pmt.Desc(0x05, Fill(168, 0))][1..] == [];
    PmtSizeIs(p, LONG_PMT);
    Sections.OnePacketIsShort(r, PmtSection(p, LONG_PMT), pid, cc);
  }

  // ----- the service described -----

  /** Type and names of the service: as configured, else as received, else the defaults. */
  function TypeOf(p: Program, info: Option<Sdt.SdtInfo>): Byte {
    if p.serviceType != 0 then p.serviceType % 256
    else if info.Some? && info.value.serviceType != 0 then info.value.serviceType
    else DEFAULT_SERVICE_TYPE
  }

  function ProviderOf(p: Program, info: Option<Sdt.SdtInfo>): Bytes {
    if p.providerName == [] && info.Some? then p.shown(info.value.provider) else p.providerName
  }

  function NameOf(p: Program, info: Option<Sdt.SdtInfo>): Bytes {
    if p.serviceName == [] && info.Some? then p.shown(info.value.service) else p.serviceName
  }

  function SectionOfService(p: Program, tsId: nat, info: Option<Sdt.SdtInfo>): Bytes {
    Sdt.PreparedSection(tsId, p.programId, TypeOf(p, info), ProviderOf(p, info), NameOf(p, info))
  }

  /** What `pat_transport_stream_id` reads from the PAT made of a received one. */
  function StreamIdMade(p: Program, received: Bytes): nat {
    TransportStreamId(Sections.PackOne(PatSection(p, received), PAT_PID, 0))
  }

  /** It is the transport stream of the one received. */
  lemma StreamIdKept(p: Program, received: Bytes)
    requires |received| >= 8 && p.programId < 0x1_0000
    ensures StreamIdMade(p, received) == received[3] as int * 256 + received[4]
  {
    var section := PatSection(p, received);
    OneProgram(p, received);
    Sections.FirstOfPack(section, PAT_PID, 0);
    Sections.PacketFields(section[..16], PAT_PID, 0, true);
    var packet := Sections.PackOne(section, PAT_PID, 0);
    assert packet[8] == packet[5..][3] == section[3] == section[3..8][0] == received[3..8][0];
    assert packet[9] == packet[5..][4] == section[4] == section[3..8][1] == received[3..8][1];
  }
}
