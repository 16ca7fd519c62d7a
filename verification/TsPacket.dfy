/** Fields of a 188-byte transport packet (src/packet.rs; section 2.4.3 of ISO/IEC 13818-1). */
module TsPacket {
  import opened Common
  import opened Clock

  /** TS_NULL_PACKET. */
  const NULL_PACKET: Packet := [0x47, 0x1F, 0xFF, 0x10] + Fill(184, 0xFF)

  function PktPid(p: seq<Byte>): Pid
    requires |p| >= 3
  {
    p[1] as int % 32 * 256 + p[2]
  }

  predicate Pusi(p: Packet) {
    p[1] / 64 % 2 == 1
  }

  function AfControl(p: Packet): int {
    p[3] / 16 % 4
  }

  function ScramblingControl(p: Packet): int {
    p[3] / 64
  }

  function ContinuityCounter(p: Packet): int {
    p[3] % 16
  }

  // ----- program clock reference -----

  predicate IsPcrPresent(p: Packet) {
    AfControl(p) >= 2 && p[5] / 16 % 2 == 1 && p[4] >= 7
  }

  function ExtractPcr(p: Packet): Option<nat> {
    if AfControl(p) < 2 || p[4] < 7 || p[5] / 16 % 2 == 0 then None
    else
      var base := p[6] as int * 0x200_0000 + p[7] as int * 0x2_0000 + p[8] as int * 512
                  + p[9] as int * 2 + p[10] / 128;
      var ext := p[10] as int % 2 * 256 + p[11];
      Some(base * 300 + ext)
  }

  /** The six bytes `pkt_write_pcr` stores at offsets 6 to 11. */
  function PcrField(pcr: nat): (f: seq<Byte>)
    ensures |f| == 6
  {
    var base, ext := pcr / 300, pcr % 300;
    [base / 0x200_0000 % 256, base / 0x2_0000 % 256, base / 512 % 256, base / 2 % 256,
     base % 2 * 128 + 126 + ext / 256 % 2, ext % 256]
  }

  function WritePcr(p: Packet, pcr: nat): Packet {
    p[..6] + PcrField(pcr) + p[12..]
  }

  method PktWritePcr(a: array<Byte>, pcr: nat)
    requires a.Length == TS_PACKET_SIZE
    modifies a
    ensures a[..] == WritePcr(old(a[..]), pcr)
  {
    var base, ext := pcr / 300, pcr % 300;
    a[6] := base / 0x200_0000 % 256;
    a[7] := base / 0x2_0000 % 256;
    a[8] := base / 512 % 256;
    a[9] := base / 2 % 256;
    a[10] := base % 2 * 128 + 126 + ext / 256 % 2;
    a[11] := ext % 256;
  }

  /** A base of 33 bits is put back together from the pieces the packet stores. */
  lemma BaseSplit(base: nat)
    requires base < DTS_CYCLE
    ensures base / 0x200_0000 % 256 * 0x200_0000 + base / 0x2_0000 % 256 * 0x2_0000
            + base / 512 % 256 * 512 + base / 2 % 256 * 2 + base % 2 == base
  {
    var q1 := base / 2;
    var q9 := base / 512;
    var q17 := base / 0x2_0000;
    assert q9 == q1 / 256;
    assert q17 == q9 / 256;
    assert base / 0x200_0000 == q17 / 256 < 256;
  }

  /** Every clock value below the cycle is read back from the packet it was written to, whatever
    * the packet held, and nothing outside the six bytes moves. */
  lemma PcrRoundTrip(p: Packet, pcr: nat)
    requires IsPcrPresent(p) && pcr < PCR_CYCLE
    ensures ExtractPcr(WritePcr(p, pcr)) == Some(pcr)
    ensures IsPcrPresent(WritePcr(p, pcr)) && PktPid(WritePcr(p, pcr)) == PktPid(p)
    ensures forall k :: 0 <= k < 6 || 12 <= k < TS_PACKET_SIZE ==> WritePcr(p, pcr)[k] == p[k]
  {
    var base, ext := pcr / 300, pcr % 300;
    BaseSplit(base);
    var w := WritePcr(p, pcr);
    assert w[6..12] == PcrField(pcr);
    assert forall k :: 6 <= k < 12 ==> w[k] == PcrField(pcr)[k - 6];
    assert w[10] / 128 == base % 2;
    assert w[10] % 2 == ext / 256;
  }

  lemma PcrPresentIffExtracted(p: Packet)
    ensures IsPcrPresent(p) <==> ExtractPcr(p).Some?
  {
  }

  // ----- discontinuity indicator -----

  predicate GetDiscontinuity(p: Packet) {
    AfControl(p) >= 2 && p[4] >= 1 && p[5] >= 128
  }

  function SetDiscontinuity(p: Packet): Packet {
    if AfControl(p) < 2 || p[4] < 1 then p else p[5 := if p[5] < 128 then p[5] + 128 else p[5]]
  }

  method PktSetDiscontinuity(a: array<Byte>) returns (done: bool)
    requires a.Length == TS_PACKET_SIZE
    modifies a
    ensures a[..] == SetDiscontinuity(old(a[..]))
    ensures done == GetDiscontinuity(a[..])
  {
    var afControl := a[3] / 16 % 4;
    if afControl < 2 {
      return false;
    }
    if a[4] < 1 {
      return false;
    }
    a[5] := if a[5] < 128 then a[5] + 128 else a[5];
    done := true;
  }

  /** Marking a discontinuity leaves the clock, the PID and the counter readable as before, and every
    * byte but the flags alone; the mark can be read back wherever there are flags to carry it. */
  lemma SetDiscontinuityKeeps(p: Packet)
    ensures ExtractPcr(SetDiscontinuity(p)) == ExtractPcr(p)
    ensures IsPcrPresent(SetDiscontinuity(p)) == IsPcrPresent(p)
    ensures PktPid(SetDiscontinuity(p)) == PktPid(p)
    ensures ContinuityCounter(SetDiscontinuity(p)) == ContinuityCounter(p)
    ensures forall k :: 0 <= k < TS_PACKET_SIZE && k != 5 ==> SetDiscontinuity(p)[k] == p[k]
    ensures SetDiscontinuity(p)[5] % 128 == p[5] % 128
    ensures GetDiscontinuity(SetDiscontinuity(p)) <==> AfControl(p) >= 2 && p[4] >= 1
  {
  }

  // ----- continuity counter -----

  function NextCc(p: Packet): Packet {
    p[3 := p[3] / 16 * 16 + (p[3] % 16 + 1) % 16]
  }

  method PktNext(a: array<Byte>)
    requires a.Length == TS_PACKET_SIZE
    modifies a
    ensures a[..] == NextCc(old(a[..]))
  {
    var currentByte := a[3];
    var nextCounter := (currentByte % 16 + 1) % 16;
    a[3] := currentByte / 16 * 16 + nextCounter;
  }

  /** Two packets that agree on everything but the continuity counter. */
  predicate SameButCc(p: Packet, q: Packet) {
    p[3] / 16 == q[3] / 16 && p[..3] == q[..3] && p[4..] == q[4..]
  }

  lemma NextCcSteps(p: Packet)
    ensures SameButCc(NextCc(p), p)
    ensures ContinuityCounter(NextCc(p)) == (ContinuityCounter(p) + 1) % 16
  {
  }

  // ----- presentation and decoding time stamps -----

  /** A 33-bit time stamp spread over five bytes with marker bits. */
  function Stamp(p: Packet, off: nat): int
    requires off + 4 < TS_PACKET_SIZE
  {
    p[off] as int / 2 % 8 * 0x4000_0000 + p[off + 1] as int * 0x40_0000
    + p[off + 2] as int / 2 * 0x8000 + p[off + 3] as int * 128 + p[off + 4] as int / 2
  }

  lemma StampBelowCycle(p: Packet, off: nat)
    requires off + 4 < TS_PACKET_SIZE
    ensures 0 <= Stamp(p, off) < DTS_CYCLE
  {
  }

  function PesOffset(p: Packet): Option<nat> {
    match AfControl(p)
    case 1 => Some(4)
    case 3 => Some(5 + p[4] as int)
    case _ => None
  }

  function PtsDts(p: Packet, checkPid: Pid): (r: Option<(nat, nat)>)
    ensures r.Some? ==> r.value.0 < DTS_CYCLE && r.value.1 < DTS_CYCLE
  {
    if p[0] != TS_SYNC_BYTE || PktPid(p) != checkPid || !Pusi(p) then None
    else match PesOffset(p)
      case None => None
      case Some(offset) =>
        if offset + 14 > TS_PACKET_SIZE || p[offset..offset + 3] != [0, 0, 1] then None
        else if !(0xC0 <= p[offset + 3] <= 0xEF) && p[offset + 3] != 0xBD then None
        else if p[offset + 7] / 64 < 2 then None
        else
          StampBelowCycle(p, offset + 9);
          var pts := Stamp(p, offset + 9);
          if p[offset + 7] / 64 == 3 && offset + 18 < TS_PACKET_SIZE then
            StampBelowCycle(p, offset + 14);
            Some((pts, Stamp(p, offset + 14)))
          else Some((pts, pts))
  }

  /** Five bytes carrying a 33-bit stamp, with a 4-bit prefix and the marker bits set
    * (section 2.4.3.6 of ISO/IEC 13818-1): the writer's side, which the repository only reads. */
  function StampBytes(prefix: nat, t: nat): (s: seq<Byte>)
    requires prefix < 16 && t < DTS_CYCLE
    ensures |s| == 5
  {
    [prefix * 16 + t / 0x4000_0000 % 8 * 2 + 1, t / 0x40_0000 % 256, t / 0x8000 % 128 * 2 + 1,
     t / 128 % 256, t % 128 * 2 + 1]
  }

  lemma StampRoundTrip(p: Packet, off: nat, prefix: nat, t: nat)
    requires prefix < 16 && t < DTS_CYCLE && off + 5 <= TS_PACKET_SIZE
    requires p[off..off + 5] == StampBytes(prefix, t)
    ensures Stamp(p, off) == t
  {
    var s := StampBytes(prefix, t);
    assert p[off] == p[off..off + 5][0] == s[0] && p[off + 1] == p[off..off + 5][1] == s[1];
    assert p[off + 2] == p[off..off + 5][2] == s[2] && p[off + 3] == p[off..off + 5][3] == s[3];
    assert p[off + 4] == p[off..off + 5][4] == s[4];
    MarkedBits(prefix, t / 0x4000_0000 % 8);
    MarkedBits(0, t % 128);
    StampPieces(t);
  }

  lemma MarkedBits(prefix: nat, x: nat)
    ensures (prefix * 16 + x * 2 + 1) / 2 == prefix * 8 + x
    ensures x < 8 ==> (prefix * 8 + x) % 8 == x
  {
  }

  lemma StampPieces(t: nat)
    requires t < DTS_CYCLE
    ensures t == t / 0x4000_0000 % 8 * 0x4000_0000 + t / 0x40_0000 % 256 * 0x40_0000 + t / 0x8000 % 128 * 0x8000
                 + t / 128 % 256 * 128 + t % 128
  {
    var q7, q15, q22, q30 := t / 128, t / 0x8000, t / 0x40_0000, t / 0x4000_0000;
    assert t == q7 * 128 + t % 128;
    assert q15 == q7 / 256 && q7 == q15 * 256 + q7 % 256;
    assert q22 == q15 / 128 && q15 == q22 * 128 + q15 % 128;
    assert q30 == q22 / 256 && q22 == q30 * 256 + q22 % 256;
    assert q30 < 8;
  }

  /** A packet whose payload starts with a PES header that carries a PTS, or both stamps, of an audio,
    * video or private stream.  `flags` is 2 for a PTS alone and 3 for both; the second stamp counts
    * only if the packet has room for it. */
  predicate CarriesStamps(p: Packet, pid: Pid, flags: nat, pts: nat, dts: nat)
    requires flags in {2, 3} && pts < DTS_CYCLE && dts < DTS_CYCLE
  {
    p[0] == TS_SYNC_BYTE && PktPid(p) == pid && Pusi(p) && PesOffset(p).Some? &&
    var offset := PesOffset(p).value;
    offset + 14 <= TS_PACKET_SIZE && p[offset..offset + 3] == [0, 0, 1] &&
    (0xC0 <= p[offset + 3] <= 0xEF || p[offset + 3] == 0xBD) &&
    p[offset + 7] / 64 == flags && p[offset + 9..offset + 14] == StampBytes(flags, pts) &&
    (HasDts(p, flags) ==> p[offset + 14..offset + 19] == StampBytes(1, dts))
  }

  predicate HasDts(p: Packet, flags: nat)
    requires PesOffset(p).Some?
  {
    flags == 3 && PesOffset(p).value + 19 <= TS_PACKET_SIZE
  }

  /** Every stamp of every PES header the reader accepts is recovered, at any length of the adaptation
    * field; where there is no DTS, or no room for it, the PTS stands for it. */
  lemma PtsDtsRoundTrip(p: Packet, pid: Pid, flags: nat, pts: nat, dts: nat)
    requires flags in {2, 3} && pts < DTS_CYCLE && dts < DTS_CYCLE
    requires CarriesStamps(p, pid, flags, pts, dts)
    ensures PtsDts(p, pid) == Some((pts, if HasDts(p, flags) then dts else pts))
  {
    var offset := PesOffset(p).value;
    StampRoundTrip(p, offset + 9, flags, pts);
    if HasDts(p, flags) {
      StampRoundTrip(p, offset + 14, 1, dts);
    }
  }
}
