/** The service description table (src/psi/sdt.rs; section 5.2.3 of ETSI EN 300 468). */
module Sdt {
  import opened Common
  import opened Sections
  import MpegCrc

  const SDT_TABLE_ID: Byte := 0x42
  const SERVICE_TAG: Byte := 0x48

  /** A string as bytes in the encoding the decoder picks for it; turning the bytes into characters
    * is the business of a library. */
  datatype Text = Utf8(bytes: Bytes) | Iso8859Part5(bytes: Bytes) | Utf16Be(bytes: Bytes)

  function ParseDvbString(b: Bytes): Text {
    if b == [] then Utf8([])
    else if b[0] == 0x01 then Iso8859Part5(b[1..])
    else if b[0] == 0x15 then Utf8(b[1..])
    else if b[0] == 0x11 then if |b| % 2 == 1 then Utf16Be(b[1..]) else Utf8(b[1..])
    else if b[0] >= 0x20 then Utf8(b)
    else Utf8(b[1..])
  }

  datatype SdtInfo =
    SdtInfo(serviceId: nat, runningStatus: nat, serviceType: Byte, provider: Text, service: Text)

  // ----- reading -----

  function ProviderOf(s: Bytes, pos: nat, len: nat): Text
    requires pos + 2 <= |s| && pos + len <= |s|
  {
    var provLen := s[pos + 1] as int;
    if 2 + provLen <= len then ParseDvbString(s[pos + 2..pos + 2 + provLen]) else Utf8([])
  }

  function ServiceOf(s: Bytes, pos: nat, len: nat): Text
    requires pos + 2 <= |s| && pos + len <= |s|
  {
    var at := 2 + s[pos + 1] as int;
    if at + 1 <= len && at + 1 + s[pos + at] as int <= len
    then ParseDvbString(s[pos + at + 1..pos + at + 1 + s[pos + at] as int])
    else Utf8([])
  }

  /** The service descriptors of one loop, and the position the loop leaves behind, which is not
    * always the loop's end. */
  function Inner(s: Bytes, pos: nat, limit: nat, sid: nat, status: nat): (r: (seq<SdtInfo>, nat))
    requires InnerFits(s, pos, limit)
    ensures r.1 >= pos
    decreases limit - pos
  {
    if pos + 2 > limit then ([], pos)
    else
      var len := s[pos + 1] as int;
      var (more, end) := Inner(s, pos + 2 + len, limit, sid, status);
      var here :=
        if s[pos] == SERVICE_TAG && pos + 2 + len <= limit
        then [SdtInfo(sid, status, s[pos + 2], ProviderOf(s, pos + 2, len), ServiceOf(s, pos + 2, len))]
        else [];
      (here + more, end)
  }

  /** Every byte the inner loop looks at exists. */
  predicate InnerFits(s: Bytes, pos: nat, limit: nat)
    decreases limit - pos
  {
    pos + 2 <= limit ==>
      && pos + 2 <= |s|
      && (s[pos] == SERVICE_TAG && pos + 2 + s[pos + 1] as int <= limit
          ==> pos + 4 <= |s| && pos + 2 + s[pos + 1] as int <= |s|)
      && InnerFits(s, pos + 2 + s[pos + 1] as int, limit)
  }

  function LoopLimit(s: Bytes, pos: nat): nat
    requires pos + 5 <= |s|
  {
    pos + 5 + (s[pos + 3] as int % 16 * 256 + s[pos + 4])
  }

  function ServiceId(s: Bytes, pos: nat): nat
    requires pos + 2 <= |s|
  {
    s[pos] as int * 256 + s[pos + 1]
  }

  predicate OuterFits(s: Bytes, pos: nat)
    decreases |s| - pos
  {
    pos + 9 <= |s| ==>
      && InnerFits(s, pos + 5, LoopLimit(s, pos))
      && OuterFits(s, Inner(s, pos + 5, LoopLimit(s, pos), ServiceId(s, pos), s[pos + 2] / 32).1)
  }

  function Outer(s: Bytes, pos: nat): seq<SdtInfo>
    requires OuterFits(s, pos)
    decreases |s| - pos
  {
    if pos + 9 > |s| then []
    else
      var (here, next) := Inner(s, pos + 5, LoopLimit(s, pos), ServiceId(s, pos), s[pos + 2] / 32);
      here + Outer(s, next)
  }

  predicate Analyzable(s: Bytes) {
    |s| >= 11 && s[0] == SDT_TABLE_ID ==> OuterFits(s, 11)
  }

  function Services(s: Bytes): seq<SdtInfo>
    requires Analyzable(s)
  {
    if |s| < 11 || s[0] != SDT_TABLE_ID then [] else Outer(s, 11)
  }

  method ReadService(s: Bytes, pos: nat, len: nat, sid: nat, status: nat) returns (info: SdtInfo)
    requires pos + 2 <= |s| && pos + len <= |s|
    ensures info == SdtInfo(sid, status, s[pos], ProviderOf(s, pos, len), ServiceOf(s, pos, len))
  {
    info := SdtInfo(sid, status, s[pos], Utf8([]), Utf8([]));
    var provLen := s[pos + 1] as int;
    if pos + 2 + provLen <= pos + len {
      info := info.(provider := ParseDvbString(s[pos + 2..pos + 2 + provLen]));
      var servLenPos := pos + 2 + provLen;
      if servLenPos + 1 <= pos + len {
        var servLen := s[servLenPos] as int;
        if servLenPos + 1 + servLen <= pos + len {
          info := info.(service := ParseDvbString(s[servLenPos + 1..servLenPos + 1 + servLen]));
        }
      }
    }
  }

  ghost predicate InnerSoFar(services: seq<SdtInfo>, s: Bytes, pos: nat, limit: nat, sid: nat, status: nat,
                            all: (seq<SdtInfo>, nat))
  {
    && InnerFits(s, pos, limit)
    && services + Inner(s, pos, limit, sid, status).0 == all.0 && Inner(s, pos, limit, sid, status).1 == all.1
  }

  lemma InnerStep(services: seq<SdtInfo>, s: Bytes, pos: nat, limit: nat, sid: nat, status: nat,
                  all: (seq<SdtInfo>, nat))
    requires pos + 2 <= limit && InnerSoFar(services, s, pos, limit, sid, status, all)
    ensures var len := s[pos + 1] as int;
            InnerSoFar(if s[pos] == SERVICE_TAG && pos + 2 + len <= limit
                      then services + [SdtInfo(sid, status, s[pos + 2], ProviderOf(s, pos + 2, len),
                                               ServiceOf(s, pos + 2, len))]
                      else services, s, pos + 2 + len, limit, sid, status, all)
  {
    var len := s[pos + 1] as int;
    var more := Inner(s, pos + 2 + len, limit, sid, status).0;
    if s[pos] == SERVICE_TAG && pos + 2 + len <= limit {
      var info := SdtInfo(sid, status, s[pos + 2], ProviderOf(s, pos + 2, len), ServiceOf(s, pos + 2, len));
      assert services + ([info] + more) == services + [info] + more;
    } else {
      assert services + ([] + more) == services + more;
    }
  }

  method AnalyzeLoop(s: Bytes, start: nat, limit: nat, sid: nat, status: nat)
    returns (services: seq<SdtInfo>, pos: nat)
    requires InnerFits(s, start, limit)
    ensures (services, pos) == Inner(s, start, limit, sid, status)
  {
    services := [];
    pos := start;
    ghost var all := Inner(s, start, limit, sid, status);
    assert [] + all.0 == all.0;
    while pos + 2 <= limit
      invariant start <= pos && InnerSoFar(services, s, pos, limit, sid, status, all)
      decreases limit - pos
    {
      var tag, len := s[pos], s[pos + 1] as int;
      InnerStep(services, s, pos, limit, sid, status, all);
      pos := pos + 2;
      if tag == SERVICE_TAG && pos + len <= limit {
        var info := ReadService(s, pos, len, sid, status);
        services := services + [info];
      }
      pos := pos + len;
    }
    assert services + [] == services;
  }

  ghost predicate Read(services: seq<SdtInfo>, s: Bytes, pos: nat, all: seq<SdtInfo>) {
    OuterFits(s, pos) && services + Outer(s, pos) == all
  }

  /** One service: its descriptor loop, and where the outer loop goes on. */
  method AnalyzeService(s: Bytes, start: nat, ghost before: seq<SdtInfo>, ghost all: seq<SdtInfo>)
    returns (here: seq<SdtInfo>, pos: nat)
    requires start + 9 <= |s| && Read(before, s, start, all)
    ensures pos >= start + 5 && Read(before + here, s, pos, all)
  {
    var sid := s[start] as int * 256 + s[start + 1];
    var runningStatus := s[start + 2] / 32;
    var descriptorsLoopLen := s[start + 3] as int % 16 * 256 + s[start + 4];
    var innerLimit := start + 5 + descriptorsLoopLen;
    here, pos := AnalyzeLoop(s, start + 5, innerLimit, sid, runningStatus);
    assert before + (here + Outer(s, pos)) == before + here + Outer(s, pos);
  }

  method AnalyzeSdt(section: Bytes) returns (services: seq<SdtInfo>)
    requires Analyzable(section)
    ensures services == Services(section)
  {
    if |section| < 11 || section[0] != SDT_TABLE_ID {
      return [];
    }
    services := [];
    var pos := 11;
    var sectionLimit := |section| - 4;
    ghost var all := Outer(section, 11);
    assert [] + all == all;
    while pos + 5 <= sectionLimit
      invariant Read(services, section, pos, all)
      decreases |section| - pos
    {
      var here;
      here, pos := AnalyzeService(section, pos, services, all);
      services := services + here;
    }
    assert services + [] == services;
  }

  // ----- writing -----

  function DvbString(text: Bytes): Bytes {
    [UTF8_PREFIX] + text
  }

  function ServiceDescriptor(serviceType: Byte, prov: Bytes, serv: Bytes): Bytes {
    [SERVICE_TAG, (3 + |prov| + |serv|) % 256, serviceType, |prov| % 256] + prov + [|serv| % 256] + serv
  }

  /** One service behind an eleven-byte header. */
  function SdtRaw(header: Bytes, serviceId: nat, serviceType: Byte, provider: Bytes, service: Bytes): (raw: Bytes)
    ensures |raw| == |header| + 12 + |provider| + |service|
  {
    var d := ServiceDescriptor(serviceType, DvbString(provider), DvbString(service));
    header + [High(serviceId), Low(serviceId), 129, |d| / 256 % 16 + 240, |d| % 256] + d
  }

  /** The same with length and checksum. */
  function SdtSection(header: Bytes, serviceId: nat, serviceType: Byte, provider: Bytes, service: Bytes): Bytes
    requires |header| >= 3
  {
    Sealed(SdtRaw(header, serviceId, serviceType, provider, service))
  }

  method BuildRaw(header: Bytes, newServiceId: nat, serviceType: Byte,
                  providerName: Bytes, serviceName: Bytes) returns (section: Bytes)
    ensures section == SdtRaw(header, newServiceId, serviceType, providerName, serviceName)
  {
    section := header;
    var descriptor := [SERVICE_TAG];
    var provBytes := [UTF8_PREFIX] + providerName;
    var servBytes := [UTF8_PREFIX] + serviceName;
    descriptor := descriptor + [(3 + |provBytes| + |servBytes|) % 256];
    descriptor := descriptor + [serviceType];
    descriptor := descriptor + [|provBytes| % 256];
    descriptor := descriptor + provBytes;
    descriptor := descriptor + [|servBytes| % 256];
    descriptor := descriptor + servBytes;
    assert descriptor == ServiceDescriptor(serviceType, provBytes, servBytes);
    section := section + [newServiceId / 256 % 256, newServiceId % 256];
    section := section + [4 * 32 + 1];
    LengthBits(|descriptor|);
    var descLen := |descriptor| % 0x1_0000;
    section := section + [descLen / 256 % 16 + 240, descLen % 256];
    section := section + descriptor;
  }

  method PatchSdtSection(original: Bytes, newServiceId: nat, serviceType: Byte,
                         providerName: Bytes, serviceName: Bytes) returns (section: Bytes)
    requires |original| >= 11
    ensures section == SdtSection(original[..11], newServiceId, serviceType, providerName, serviceName)
  {
    section := BuildRaw(original[0..11], newServiceId, serviceType, providerName, serviceName);
    LengthBits(|section| + 1);
    var sectionLength := (|section| - 3 + 4) % 0x1_0000;
    section := section[1 := section[1] / 16 * 16 + sectionLength / 256 % 16];
    section := section[2 := sectionLength % 256];
    section := section + MpegCrc.Checksum(section);
  }

  function SdtHeader(transportStreamId: nat): (h: Bytes)
    ensures |h| == 11
  {
    [SDT_TABLE_ID, 0xF0, 0, High(transportStreamId), Low(transportStreamId), 0xC1, 0, 0, 0, 1, 0xFF]
  }

  function PreparedSection(tsId: nat, programId: nat, serviceType: Byte, provider: Bytes, service: Bytes): Bytes {
    SdtSection(SdtHeader(tsId), programId, serviceType, provider, service)
  }

  method PrepareSdt(transportStreamId: nat, programId: nat, serviceType: Byte,
                    providerName: Bytes, serviceName: Bytes) returns (packet: Packet)
    ensures packet == PackOne(PreparedSection(transportStreamId, programId, serviceType,
                                              providerName, serviceName), SDT_PID, 0)
  {
    var dummy: Bytes := [SDT_TABLE_ID, 0xF0, 0, 0, 0, 0xC1, 0, 0, 0, 1, 0xFF];
    dummy := dummy[3 := transportStreamId / 256 % 256];
    dummy := dummy[4 := transportStreamId % 256];
    assert dummy == SdtHeader(transportStreamId);
    assert dummy[..11] == dummy;
    var section := PatchSdtSection(dummy, programId, serviceType, providerName, serviceName);
    var packets, cc := PackMulti(section, SDT_PID, 0);
    packet := packets[0];
  }

  // ----- what was written is read -----

  lemma DescriptorLayout(serviceType: Byte, prov: Bytes, serv: Bytes)
    ensures var d := ServiceDescriptor(serviceType, prov, serv);
            && d[..4] == [SERVICE_TAG, (3 + |prov| + |serv|) % 256, serviceType, |prov| % 256]
            && d[4..4 + |prov|] == prov && d[4 + |prov|] == |serv| % 256 && d[5 + |prov|..] == serv
  {
  }

  /** Where the fields of a written section are. */
  predicate Laid(s: Bytes, id: nat, serviceType: Byte, provider: Bytes, service: Bytes) {
    var p, n := |provider|, |provider| + |service|;
    && |s| == 27 + n && s[0] == SDT_TABLE_ID
    && s[11] == High(id) && s[12] == Low(id) && s[13] == 129
    && s[14] == (7 + n) / 256 % 16 + 240 && s[15] == (7 + n) % 256
    && s[16] == SERVICE_TAG && s[17] == (5 + n) % 256 && s[18] == serviceType
    && s[19] == (1 + p) % 256 && s[20..21 + p] == DvbString(provider)
    && s[21 + p] == (1 + |service|) % 256 && s[22 + p..23 + n] == DvbString(service)
  }

  lemma Piece(s: Bytes, base: nat, t: Bytes, i: nat, j: nat)
    requires base + |t| <= |s| && s[base..base + |t|] == t && i <= j <= |t|
    ensures s[base + i..base + j] == t[i..j]
    ensures forall k :: 0 <= k < |t| ==> s[base + k] == t[k]
  {
    var u := s[base..base + |t|];
    forall k | 0 <= k < |t| ensures s[base + k] == t[k] {
      assert u[k] == t[k];
    }
    forall k | 0 <= k < j - i ensures s[base + i..base + j][k] == t[i..j][k] {
      assert s[base + (i + k)] == t[i + k];
    }
  }

  lemma LaidFromParts(s: Bytes, five: Bytes, d: Bytes, id: nat, serviceType: Byte, provider: Bytes, service: Bytes)
    requires |s| == 20 + |d| && s[0] == SDT_TABLE_ID && s[11..16] == five && s[16..16 + |d|] == d
    requires five == [High(id), Low(id), 129, |d| / 256 % 16 + 240, |d| % 256]
    requires |d| == 7 + |provider| + |service|
    requires d[..4] == [SERVICE_TAG, (|d| - 2) % 256, serviceType, (1 + |provider|) % 256]
    requires d[4..5 + |provider|] == DvbString(provider) && d[5 + |provider|] == (1 + |service|) % 256
    requires d[6 + |provider|..] == DvbString(service)
    ensures Laid(s, id, serviceType, provider, service)
  {
    Piece(s, 11, five, 0, 0);
    Piece(d, 0, d[..4], 0, 0);
    Piece(s, 16, d, 4, 5 + |provider|);
    Piece(s, 16, d, 6 + |provider|, |d|);
  }

  lemma RawLayout(header: Bytes, id: nat, serviceType: Byte, provider: Bytes, service: Bytes)
    requires |header| == 11
    ensures var d := ServiceDescriptor(serviceType, DvbString(provider), DvbString(service));
            var raw := SdtRaw(header, id, serviceType, provider, service);
            && raw[11..16] == [High(id), Low(id), 129, |d| / 256 % 16 + 240, |d| % 256]
            && raw[16..16 + |d|] == d && |raw| == 16 + |d|
            && raw[0] == header[0]
  {
  }

  lemma SectionLayout(tsId: nat, id: nat, serviceType: Byte, provider: Bytes, service: Bytes)
    ensures Laid(PreparedSection(tsId, id, serviceType, provider, service), id, serviceType, provider, service)
  {
    var prov, serv := DvbString(provider), DvbString(service);
    var d := ServiceDescriptor(serviceType, prov, serv);
    var raw := SdtRaw(SdtHeader(tsId), id, serviceType, provider, service);
    RawLayout(SdtHeader(tsId), id, serviceType, provider, service);
    SealedKeeps(raw);
    var s := Sealed(raw);
    Piece(s, 3, raw[3..], 8, 13);
    Piece(s, 3, raw[3..], 13, 13 + |d|);
    Piece(raw, 3, raw[3..], 8, 13);
    Piece(raw, 3, raw[3..], 13, 13 + |d|);
    DescriptorLayout(serviceType, prov, serv);
    LaidFromParts(s, raw[11..16], d, id, serviceType, provider, service);
  }

  lemma NamesRead(s: Bytes, id: nat, serviceType: Byte, provider: Bytes, service: Bytes)
    requires |provider| + |service| <= 250 && Laid(s, id, serviceType, provider, service)
    ensures ProviderOf(s, 18, 5 + |provider| + |service|) == Utf8(provider)
    ensures ServiceOf(s, 18, 5 + |provider| + |service|) == Utf8(service)
  {
    assert DvbString(provider)[1..] == provider && DvbString(service)[1..] == service;
  }

  lemma InnerRead(s: Bytes, id: nat, serviceType: Byte, provider: Bytes, service: Bytes)
    requires id < 0x1_0000 && |provider| + |service| <= 250 && Laid(s, id, serviceType, provider, service)
    ensures var end := 23 + |provider| + |service|;
            && InnerFits(s, 16, end)
            && Inner(s, 16, end, id, 4) == ([SdtInfo(id, 4, serviceType, Utf8(provider), Utf8(service))], end)
  {
    var end := 23 + |provider| + |service|;
    assert InnerFits(s, end, end) && Inner(s, end, end, id, 4) == ([], end);
    assert s[17] as int == 5 + |provider| + |service|;
    NamesRead(s, id, serviceType, provider, service);
    var info := SdtInfo(id, 4, serviceType, Utf8(provider), Utf8(service));
    assert [info] + [] == [info];
  }

  lemma OuterRead(s: Bytes, id: nat, serviceType: Byte, provider: Bytes, service: Bytes)
    requires id < 0x1_0000 && |provider| + |service| <= 250 && Laid(s, id, serviceType, provider, service)
    ensures OuterFits(s, 11)
    ensures Outer(s, 11) == [SdtInfo(id, 4, serviceType, Utf8(provider), Utf8(service))]
  {
    var end := 23 + |provider| + |service|;
    InnerRead(s, id, serviceType, provider, service);
    assert LoopLimit(s, 11) == end;
    assert ServiceId(s, 11) == id && s[13] / 32 == 4;
    assert OuterFits(s, end) && Outer(s, end) == [];
    var info := SdtInfo(id, 4, serviceType, Utf8(provider), Utf8(service));
    assert [info] + [] == [info];
  }

  /** As long as the descriptor's length fits a byte, the analyser finds exactly the service that was
    * written: same identifier, type and both names. */
  lemma ServicesOfPrepared(tsId: nat, id: nat, serviceType: Byte, provider: Bytes, service: Bytes)
    requires id < 0x1_0000 && |provider| + |service| <= 250
    ensures var s := PreparedSection(tsId, id, serviceType, provider, service);
            Analyzable(s)
            && Services(s) == [SdtInfo(id, 4, serviceType, Utf8(provider), Utf8(service))]
  {
    SectionLayout(tsId, id, serviceType, provider, service);
    OuterRead(PreparedSection(tsId, id, serviceType, provider, service), id, serviceType, provider, service);
  }

  lemma PreparedIsRight(tsId: nat, id: nat, serviceType: Byte, provider: Bytes, service: Bytes)
    ensures var s := PreparedSection(tsId, id, serviceType, provider, service);
            && (WellSized(s) <==> |provider| + |service| <= 4071)
            && MpegCrc.Crc32(MpegCrc.INITIAL, s) == 0
  {
    SealedIsRight(SdtRaw(SdtHeader(tsId), id, serviceType, provider, service));
  }

  /** From configuration to receiver: the one packet that is kept, pushed into a reassembler in any
    * state, returns the whole section exactly when both names together take at most 156 bytes, and
    * then the section shows the one service that was configured. */
  lemma SdtPipeline(r: Reasm, tsId: nat, id: nat, serviceType: Byte, provider: Bytes, service: Bytes)
    requires id < 0x1_0000
    ensures var s := PreparedSection(tsId, id, serviceType, provider, service);
            && (Accept(r, PackOne(s, SDT_PID, 0)).1 == Some(s) <==> |provider| + |service| <= 156)
            && (|provider| + |service| <= 156 ==>
                  Analyzable(s)
                  && Services(s) == [SdtInfo(id, 4, serviceType, Utf8(provider), Utf8(service))])
  {
    var s := PreparedSection(tsId, id, serviceType, provider, service);
    SectionLayout(tsId, id, serviceType, provider, service);
    PreparedIsRight(tsId, id, serviceType, provider, service);
    if |provider| + |service| <= 156 {
      OnePacketIff(r, s, SDT_PID, 0);
      ServicesOfPrepared(tsId, id, serviceType, provider, service);
    } else {
      OnePacketIsShort(r, s, SDT_PID, 0);
    }
  }
}
