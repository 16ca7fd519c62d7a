/** Program-specific-information sections in transport packets (src/psi/mod.rs:20-205;
  * section 2.4.4 of ISO/IEC 13818-1): the packer, the reassembler and the map of reassemblers. */
module Sections {
  import opened Common
  import opened TsPacket
  import MpegCrc

  const FIRST_CAPACITY: nat := 183
  const NEXT_CAPACITY: nat := 184

  /** Total length a section header declares: three bytes plus its 12-bit length field. */
  function DeclaredLength(s: Bytes): (n: nat)
    requires |s| >= 3
    ensures 3 <= n <= 4098
  {
    s[1] as int % 16 * 256 + s[2] + 3
  }

  /** A section whose length field matches its length. */
  predicate WellSized(s: Bytes) {
    |s| >= 3 && DeclaredLength(s) == |s|
  }

  // ----- the length field -----

  /** The length field of a section of which all but the checksum is `s`. */
  function SetLength(s: Bytes): Bytes
    requires |s| >= 3
  {
    s[1 := s[1] / 16 * 16 + (|s| + 1) / 256 % 16][2 := (|s| + 1) % 256]
  }

  lemma MultiplesOf16(t: nat, k: nat)
    ensures (t + 16 * k) % 16 == t % 16
  {
  }

  lemma Quotient256(q: nat, r: nat)
    ensures (0x1_0000 * q + r) / 256 == 256 * q + r / 256
    ensures (0x1_0000 * q + r) % 256 == r % 256
  {
  }

  lemma LengthBits(n: nat)
    ensures n % 0x1_0000 / 256 % 16 == n / 256 % 16 && n % 0x1_0000 % 256 == n % 256
  {
    var q, r := n / 0x1_0000, n % 0x1_0000;
    assert n == 0x1_0000 * q + r;
    Quotient256(q, r);
    MultiplesOf16(r / 256, 16 * q);
  }

  /** The two pieces of a 12-bit field make up the value modulo 4096. */
  lemma TwelveBits(n: nat)
    ensures n / 256 % 16 * 256 + n % 256 == n % 4096
  {
    var a, b := n / 4096, n % 4096;
    assert n / 256 == 16 * a + b / 256;
    assert n % 256 == b % 256;
  }

  lemma DeclaredAfterSetLength(s: Bytes, crc: Bytes)
    requires |s| >= 3
    ensures DeclaredLength(SetLength(s) + crc) == (|s| + 1) % 4096 + 3
  {
    var e := SetLength(s) + crc;
    assert e[1] % 16 == (|s| + 1) / 256 % 16 && e[2] == (|s| + 1) % 256;
    TwelveBits(|s| + 1);
  }

  /** What every writer ends with: the length field is set, the checksum appended. */
  function Sealed(raw: Bytes): (s: Bytes)
    requires |raw| >= 3
    ensures |s| == |raw| + 4
  {
    MpegCrc.WithCrc(SetLength(raw))
  }

  /** Sealing moves nothing from the fourth byte on. */
  lemma SealedKeeps(raw: Bytes)
    requires |raw| >= 3
    ensures Sealed(raw)[0] == raw[0] && Sealed(raw)[3..|raw|] == raw[3..]
    ensures forall k :: 3 <= k < |raw| ==> Sealed(raw)[k] == raw[k]
  {
    var s := SetLength(raw);
    assert forall k :: 3 <= k < |raw| ==> s[k] == raw[k];
    assert Sealed(raw)[3..|raw|] == s[3..] == raw[3..];
  }

  /** The length field is right exactly when 12 bits can hold it, and a receiver's checksum test
    * accepts the section in any case. */
  lemma SealedIsRight(raw: Bytes)
    requires |raw| >= 3
    ensures WellSized(Sealed(raw)) <==> |raw| <= 4094
    ensures MpegCrc.Crc32(MpegCrc.INITIAL, Sealed(raw)) == 0
  {
    var s := SetLength(raw);
    var n := |raw| + 1;
    assert DeclaredLength(s + MpegCrc.Checksum(s)) == n % 4096 + 3 by {
      DeclaredAfterSetLength(raw, MpegCrc.Checksum(s));
    }
    assert n % 4096 == n <==> n <= 4095;
    MpegCrc.ReceiverAccepts(s);
  }

  // ----- packing -----

  function Header(pid: Pid, cc: nat, first: bool): (h: Bytes)
    ensures |h| == if first then 5 else 4
  {
    [TS_SYNC_BYTE, pid / 256 % 32 + (if first then 64 else 0), pid % 256, 16 + cc % 16]
    + (if first then [0] else [])
  }

  function Capacity(first: bool): nat {
    if first then FIRST_CAPACITY else NEXT_CAPACITY
  }

  /** One packet: header, the given bytes of the section, stuffing. */
  function PacketOf(chunk: Bytes, pid: Pid, cc: nat, first: bool): Packet
    requires |chunk| <= Capacity(first)
  {
    Header(pid, cc, first) + chunk + Fill(Capacity(first) - |chunk|, 0xFF)
  }

  function PackFrom(rest: Bytes, pid: Pid, cc: nat, first: bool): (ps: seq<Packet>)
    decreases |rest|, first
  {
    if !first && rest == [] then []
    else
      var n := Min(Capacity(first), |rest|);
      [PacketOf(rest[..n], pid, cc, first)] + PackFrom(rest[n..], pid, (cc + 1) % 16, false)
  }

  function Pack(section: Bytes, pid: Pid, cc: nat): (ps: seq<Packet>)
    ensures |ps| > 0
  {
    PackFrom(section, pid, cc, true)
  }

  method BuildPacket(chunk: Bytes, pid: Pid, cc: nat, first: bool) returns (p: Packet)
    requires |chunk| <= Capacity(first)
    ensures p == PacketOf(chunk, pid, cc, first)
  {
    var packet := new Byte[TS_PACKET_SIZE](_ => 0xFF);
    packet[0] := TS_SYNC_BYTE;
    packet[1] := pid / 256 % 32 + if first then 64 else 0;
    packet[2] := pid % 256;
    packet[3] := 16 + cc % 16;
    var payload := 4;
    if first {
      packet[payload] := 0;
      payload := payload + 1;
    }
    forall k | payload <= k < payload + |chunk| {
      packet[k] := chunk[k - payload];
    }
    p := packet[..];
    PacketFromParts(p, payload, chunk, pid, cc, first);
  }

  lemma PacketFromParts(p: Packet, payload: nat, chunk: Bytes, pid: Pid, cc: nat, first: bool)
    requires |chunk| <= Capacity(first) && payload == |Header(pid, cc, first)|
    requires forall k :: 0 <= k < payload ==> p[k] == Header(pid, cc, first)[k]
    requires forall k :: payload <= k < payload + |chunk| ==> p[k] == chunk[k - payload]
    requires forall k :: payload + |chunk| <= k < TS_PACKET_SIZE ==> p[k] == 0xFF
    ensures p == PacketOf(chunk, pid, cc, first)
  {
    assert p[..payload] == Header(pid, cc, first);
    assert p[payload..payload + |chunk|] == chunk;
    assert p[payload + |chunk|..] == Fill(Capacity(first) - |chunk|, 0xFF);
    ThreeParts(p, payload, payload + |chunk|);
  }

  lemma ThreeParts(p: Bytes, i: nat, j: nat)
    requires i <= j <= |p|
    ensures p == p[..i] + p[i..j] + p[j..]
  {
  }

  /** The loop of `pack_multi` after some packets: what is left to pack completes them. */
  ghost predicate Packed(packets: seq<Packet>, rest: Bytes, cc': nat, first: bool,
                         section: Bytes, pid: Pid, cc: nat) {
    (if first then packets == [] && cc' == cc else cc' == (cc + |packets|) % 16) &&
    packets + PackFrom(rest, pid, cc', first) == Pack(section, pid, cc)
  }

  lemma PackStep(packets: seq<Packet>, rest: Bytes, cc': nat, first: bool,
                 section: Bytes, pid: Pid, cc: nat, n: nat)
    requires Packed(packets, rest, cc', first, section, pid, cc) && (first || rest != [])
    requires n == Min(Capacity(first), |rest|)
    ensures Packed(packets + [PacketOf(rest[..n], pid, cc', first)], rest[n..], (cc' + 1) % 16, false,
                   section, pid, cc)
  {
    var x := PacketOf(rest[..n], pid, cc', first);
    var tail := PackFrom(rest[n..], pid, (cc' + 1) % 16, false);
    assert PackFrom(rest, pid, cc', first) == [x] + tail;
    assert packets + ([x] + tail) == packets + [x] + tail;
    CounterStep(cc, |packets|);
  }

  lemma CounterStep(cc: nat, n: nat)
    ensures ((cc + n) % 16 + 1) % 16 == (cc + (n + 1)) % 16
    ensures n == 0 ==> (cc + 1) % 16 == (cc + (n + 1)) % 16
  {
  }

  method PackMulti(section: Bytes, pid: Pid, cc: nat) returns (packets: seq<Packet>, cc': nat)
    ensures packets == Pack(section, pid, cc)
    ensures cc' == (cc + |packets|) % 16
  {
    packets := [];
    cc' := cc;
    var offset := 0;
    var first := true;
    assert section[0..] == section;
    while first || offset < |section|
      invariant offset <= |section|
      invariant Packed(packets, section[offset..], cc', first, section, pid, cc)
      decreases |section| - offset, first
    {
      ghost var rest := section[offset..];
      var copyLen := Min(Capacity(first), |section| - offset);
      PackStep(packets, rest, cc', first, section, pid, cc, copyLen);
      assert rest[..copyLen] == section[offset..offset + copyLen];
      assert rest[copyLen..] == section[offset + copyLen..];
      var packet := BuildPacket(section[offset..offset + copyLen], pid, cc', first);
      packets := packets + [packet];
      offset := offset + copyLen;
      cc' := (cc' + 1) % 16;
      first := false;
    }
    assert section[offset..] == [];
  }

  /** `pack`: the first packet only. */
  function PackOne(section: Bytes, pid: Pid, cc: nat): Packet {
    Pack(section, pid, cc)[0]
  }

  // ----- reassembly -----

  datatype Reasm = Reasm(buffer: Bytes, expected: Option<nat>)

  const EMPTY := Reasm([], None)

  function PayloadOffset(p: Packet): (r: Option<nat>)
    ensures r.Some? ==> 4 <= r.value <= TS_PACKET_SIZE
  {
    match AfControl(p)
    case 1 => Some(4)
    case 3 => if 5 + p[4] as int > TS_PACKET_SIZE then None else Some(5 + p[4] as int)
    case _ => None
  }

  function TakeComplete(r: Reasm): (Reasm, Option<Bytes>) {
    var expected :=
      if r.expected.None? && |r.buffer| >= 3 then Some(DeclaredLength(r.buffer)) else r.expected;
    match expected
    case None => (r, None)
    case Some(n) =>
      if |r.buffer| < n then (Reasm(r.buffer, expected), None)
      else (EMPTY, Some(r.buffer[..n]))
  }

  /** What a reassembler does with a packet of its own PID. */
  function Accept(r: Reasm, p: Packet): (Reasm, Option<Bytes>) {
    match PayloadOffset(p)
    case None => (r, None)
    case Some(offset) =>
      if Pusi(p) then
        if offset >= TS_PACKET_SIZE then (EMPTY, None)
        else
          var start := offset + 1 + p[offset] as int;
          if start > TS_PACKET_SIZE then (EMPTY, None)
          else
            var done := FinishPrevious(r, p[offset + 1..start]);
            if done.Some? then (EMPTY, done)
            else if start >= TS_PACKET_SIZE then (EMPTY, None)
            else TakeComplete(Reasm(p[start..], None))
      else if r.buffer == [] || offset >= TS_PACKET_SIZE then (r, None)
      else TakeComplete(Reasm(r.buffer + p[offset..], r.expected))
  }

  /** The bytes before the pointer complete the section in progress, if one is in progress. */
  function FinishPrevious(r: Reasm, tail: Bytes): Option<Bytes> {
    if r.buffer != [] && tail != [] then TakeComplete(Reasm(r.buffer + tail, r.expected)).1 else None
  }

  class SectionReassembler {
    const pid: Pid
    var buffer: Bytes
    var expectedLen: Option<nat>

    function State(): Reasm
      reads this
    {
      Reasm(buffer, expectedLen)
    }

    constructor (pid: Pid)
      ensures State() == EMPTY && this.pid == pid
    {
      this.pid := pid;
      buffer := [];
      expectedLen := None;
    }

    method Clear()
      modifies this
      ensures State() == EMPTY
    {
      buffer := [];
      expectedLen := None;
    }

    method Take() returns (section: Option<Bytes>)
      modifies this
      ensures (State(), section) == TakeComplete(old(State()))
    {
      if expectedLen.None? && |buffer| >= 3 {
        expectedLen := Some(buffer[1] as int % 16 * 256 + buffer[2] + 3);
      }
      if expectedLen.None? {
        return None;
      }
      var n := expectedLen.value;
      if |buffer| < n {
        return None;
      }
      section := Some(buffer[..n]);
      Clear();
    }

    /** The caller has checked length and sync byte, so only the PID can disagree. */
    method Push(p: Packet) returns (section: Option<Bytes>)
      modifies this
      ensures if p[0] != TS_SYNC_BYTE then State() == EMPTY && section == None
              else if PktPid(p) != pid then State() == old(State()) && section == None
              else (State(), section) == Accept(old(State()), p)
    {
      if p[0] != TS_SYNC_BYTE {
        Clear();
        return None;
      }
      if PktPid(p) != pid {
        return None;
      }
      var pusi := p[1] / 64 % 2 == 1;
      var start := PayloadOffset(p);
      if start.None? {
        return None;
      }
      var offset := start.value;
      if pusi {
        if offset >= |p| {
          Clear();
          return None;
        }
        var pointer := p[offset] as int;
        offset := offset + 1;
        var pointerEnd := offset + pointer;
        if pointerEnd > |p| {
          Clear();
          return None;
        }
        if buffer != [] && pointer > 0 {
          buffer := buffer + p[offset..pointerEnd];
          section := Take();
          if section.Some? {
            Clear();
            return;
          }
        }
        Clear();
        offset := pointerEnd;
      } else if buffer == [] {
        return None;
      }
      if offset >= |p| {
        return None;
      }
      buffer := buffer + p[offset..];
      assert pusi ==> buffer == p[offset..];
      section := Take();
    }
  }

  /** The per-PID table of reassembler states. */
  type Table = map<Pid, Reasm>

  function Lookup(t: Table, pid: Pid): Reasm {
    if pid in t then t[pid] else EMPTY
  }

  function PushTable(t: Table, p: Packet): (Table, Option<Bytes>) {
    if p[0] != TS_SYNC_BYTE then (t, None)
    else
      var (r, section) := Accept(Lookup(t, PktPid(p)), p);
      (t[PktPid(p) := r], section)
  }

  class SectionReassemblerMap {
    var perPid: map<Pid, SectionReassembler>
    ghost var Contents: Table

    /** `Contents` is what the reassemblers hold, PID by PID; no two PIDs share one. */
    ghost predicate Valid()
      reads this, perPid.Values
    {
      && Contents.Keys == perPid.Keys
      && (forall k :: k in perPid ==> perPid[k].pid == k && Contents[k] == perPid[k].State())
      && (forall j, k :: j in perPid && k in perPid && j != k ==> perPid[j] != perPid[k])
    }

    constructor ()
      ensures Valid() && Contents == map[] && perPid == map[]
    {
      perPid := map[];
      Contents := map[];
    }

    method Push(p: Packet) returns (section: Option<Bytes>)
      requires Valid()
      modifies this, perPid.Values
      ensures Valid() && fresh(perPid.Values - old(perPid.Values))
      ensures (Contents, section) == PushTable(old(Contents), p)
    {
      if p[0] != TS_SYNC_BYTE {
        return None;
      }
      var pid := PktPid(p);
      if pid !in perPid {
        var r := new SectionReassembler(pid);
        perPid := perPid[pid := r];
      }
      section := perPid[pid].Push(p);
      Contents := Contents[pid := perPid[pid].State()];
    }
  }

  // ----- the packer's packets -----

  lemma PacketFields(chunk: Bytes, pid: Pid, cc: nat, first: bool)
    requires |chunk| <= Capacity(first)
    ensures var p := PacketOf(chunk, pid, cc, first);
            && IsFor(p, pid) && (Pusi(p) <==> first) && ContinuityCounter(p) == cc % 16
            && PayloadOffset(p) == Some(4) && (first ==> p[4] == 0)
            && p[if first then 5 else 4..] == chunk + Fill(Capacity(first) - |chunk|, 0xFF)
  {
    var p := PacketOf(chunk, pid, cc, first);
    var h := Header(pid, cc, first);
    assert p[..|h|] == h;
    assert p[0] == h[0] && p[1] == h[1] && p[2] == h[2] && p[3] == h[3];
    assert first ==> p[4] == h[4];
  }

  function PacketCount(length: nat): nat {
    (length + 1 + 183) / 184
  }

  lemma {:induction false} NextCount(rest: Bytes, pid: Pid, cc: nat)
    ensures |PackFrom(rest, pid, cc, false)| == (|rest| + 183) / 184
    decreases |rest|
  {
    if rest != [] {
      NextCount(rest[Min(NEXT_CAPACITY, |rest|)..], pid, (cc + 1) % 16);
    }
  }

  predicate Marked(p: Packet, pid: Pid, cc: nat, first: bool) {
    IsFor(p, pid) && ContinuityCounter(p) == cc % 16 && (Pusi(p) <==> first)
  }

  lemma {:induction false} PackedFields(rest: Bytes, pid: Pid, cc: nat, first: bool, i: nat)
    requires i < |PackFrom(rest, pid, cc, first)|
    ensures Marked(PackFrom(rest, pid, cc, first)[i], pid, cc + i, first && i == 0)
    decreases i
  {
    var n := Min(Capacity(first), |rest|);
    if i == 0 {
      PacketMarked(rest[..n], pid, cc, first);
    } else {
      PackedFields(rest[n..], pid, (cc + 1) % 16, false, i - 1);
      NextCounters(PackFrom(rest, pid, cc, first)[i], pid, cc, i);
    }
  }

  lemma PacketMarked(chunk: Bytes, pid: Pid, cc: nat, first: bool)
    requires |chunk| <= Capacity(first)
    ensures Marked(PacketOf(chunk, pid, cc, first), pid, cc, first)
  {
    PacketFields(chunk, pid, cc, first);
  }

  lemma NextCounters(p: Packet, pid: Pid, cc: nat, i: nat)
    requires i > 0 && Marked(p, pid, (cc + 1) % 16 + (i - 1), false)
    ensures Marked(p, pid, cc + i, false)
  {
  }

  /** A section of any length becomes ceil((length + 1) / 184) packets of its PID, with consecutive
    * continuity counters, of which exactly the first starts a section. */
  lemma PackShape(section: Bytes, pid: Pid, cc: nat)
    ensures |Pack(section, pid, cc)| == PacketCount(|section|)
    ensures forall i :: 0 <= i < |Pack(section, pid, cc)|
              ==> Marked(Pack(section, pid, cc)[i], pid, cc + i, i == 0)
  {
    NextCount(section[Min(FIRST_CAPACITY, |section|)..], pid, (cc + 1) % 16);
    forall i | 0 <= i < |Pack(section, pid, cc)|
      ensures Marked(Pack(section, pid, cc)[i], pid, cc + i, i == 0)
    {
      PackedFields(section, pid, cc, true, i);
    }
  }

  // ----- the reassembler on arbitrary input -----

  /** Either too little to know a length, or less than the length the buffered header declares. */
  predicate ReasmInv(r: Reasm) {
    if |r.buffer| < 3 then r.expected == None
    else r.expected == Some(DeclaredLength(r.buffer)) && |r.buffer| < DeclaredLength(r.buffer)
  }

  lemma TakeCompleteSafe(r: Reasm)
    requires r.expected.Some? ==> |r.buffer| >= 3 && r.expected == Some(DeclaredLength(r.buffer))
    ensures ReasmInv(TakeComplete(r).0)
    ensures TakeComplete(r).1.Some? ==> WellSized(TakeComplete(r).1.value)
  {
  }

  lemma GrowSafe(r: Reasm, more: Bytes)
    requires ReasmInv(r)
    ensures var g := Reasm(r.buffer + more, r.expected);
            ReasmInv(TakeComplete(g).0)
            && (TakeComplete(g).1.Some? ==> WellSized(TakeComplete(g).1.value))
  {
    var g := Reasm(r.buffer + more, r.expected);
    if r.expected.Some? {
      assert DeclaredLength(g.buffer) == DeclaredLength(r.buffer);
    }
    TakeCompleteSafe(g);
  }

  /** Whatever bytes a packet holds, the reassembler stays within its bounds (under 4098 bytes
    * buffered) and every section it hands out has exactly the length its header declares. */
  lemma AcceptSafe(r: Reasm, p: Packet)
    requires ReasmInv(r)
    ensures ReasmInv(Accept(r, p).0) && |Accept(r, p).0.buffer| < 4098
    ensures Accept(r, p).1.Some? ==> WellSized(Accept(r, p).1.value)
  {
    match PayloadOffset(p)
    case None =>
    case Some(offset) =>
      if Pusi(p) {
        if offset < TS_PACKET_SIZE {
          var start := offset + 1 + p[offset] as int;
          if start <= TS_PACKET_SIZE {
            GrowSafe(r, p[offset + 1..start]);
            TakeCompleteSafe(Reasm(p[start..], None));
          }
        }
      } else {
        GrowSafe(r, p[offset..]);
      }
  }

  ghost predicate TableInv(t: Table) {
    forall k :: k in t ==> ReasmInv(t[k])
  }

  /** The same for every run of the whole map on arbitrary packets. */
  lemma {:induction false} RunSafe(t: Table, trace: seq<Packet>)
    requires TableInv(t)
    ensures TableInv(RunTable(t, trace).0)
    ensures forall s :: Some(s) in RunTable(t, trace).1 ==> WellSized(s)
    decreases |trace|
  {
    if trace != [] {
      var p := trace[0];
      if p[0] == TS_SYNC_BYTE {
        AcceptSafe(Lookup(t, PktPid(p)), p);
      }
      RunSafe(PushTable(t, p).0, trace[1..]);
    }
  }

  // ----- runs -----

  predicate IsFor(p: Packet, pid: Pid) {
    p[0] == TS_SYNC_BYTE && PktPid(p) == pid
  }

  /** The packets of a trace that belong to a PID. */
  function OnPid(trace: seq<Packet>, pid: Pid): seq<Packet> {
    if trace == [] then []
    else (if IsFor(trace[0], pid) then [trace[0]] else []) + OnPid(trace[1..], pid)
  }

  function RunTable(t: Table, trace: seq<Packet>): (r: (Table, seq<Option<Bytes>>))
    ensures |r.1| == |trace|
    decreases |trace|
  {
    if trace == [] then (t, [])
    else
      var (t1, out) := PushTable(t, trace[0]);
      var (t2, outs) := RunTable(t1, trace[1..]);
      (t2, [out] + outs)
  }

  /** What a run returned on the packets of one PID. */
  function OutcomesOn(trace: seq<Packet>, outs: seq<Option<Bytes>>, pid: Pid): seq<Option<Bytes>>
    requires |outs| == |trace|
  {
    if trace == [] then []
    else (if IsFor(trace[0], pid) then [outs[0]] else []) + OutcomesOn(trace[1..], outs[1..], pid)
  }

  function RunOne(r: Reasm, packets: seq<Packet>): (Reasm, seq<Option<Bytes>>)
    decreases |packets|
  {
    if packets == [] then (r, [])
    else
      var (r1, out) := Accept(r, packets[0]);
      var (r2, outs) := RunOne(r1, packets[1..]);
      (r2, [out] + outs)
  }

  /** PIDs do not disturb each other: on one PID the map behaves as one reassembler fed with that
    * PID's packets, whatever lies between them. */
  lemma {:induction false} Independent(t: Table, trace: seq<Packet>, pid: Pid)
    ensures OutcomesOn(trace, RunTable(t, trace).1, pid) == RunOne(Lookup(t, pid), OnPid(trace, pid)).1
    ensures Lookup(RunTable(t, trace).0, pid) == RunOne(Lookup(t, pid), OnPid(trace, pid)).0
    decreases |trace|
  {
    if trace != [] {
      var (t1, out) := PushTable(t, trace[0]);
      var outs := RunTable(t1, trace[1..]).1;
      assert RunTable(t, trace).1 == [out] + outs;
      assert ([out] + outs)[1..] == outs;
      Independent(t1, trace[1..], pid);
      if IsFor(trace[0], pid) {
        assert OnPid(trace, pid)[0] == trace[0] && OnPid(trace, pid)[1..] == OnPid(trace[1..], pid);
      } else {
        assert OnPid(trace, pid) == OnPid(trace[1..], pid);
        assert Lookup(t1, pid) == Lookup(t, pid);
      }
    }
  }

  lemma {:induction false} RunOneAppend(r: Reasm, a: seq<Packet>, b: seq<Packet>)
    ensures RunOne(r, a + b)
            == (RunOne(RunOne(r, a).0, b).0, RunOne(r, a).1 + RunOne(RunOne(r, a).0, b).1)
    decreases |a|
  {
    if a == [] {
      assert a + b == b;
      assert [] + RunOne(r, b).1 == RunOne(r, b).1;
    } else {
      assert (a + b)[0] == a[0] && (a + b)[1..] == a[1..] + b;
      var (r1, out) := Accept(r, a[0]);
      RunOneAppend(r1, a[1..], b);
      var x, y := RunOne(r1, a[1..]).1, RunOne(RunOne(r1, a[1..]).0, b).1;
      assert [out] + (x + y) == ([out] + x) + y;
    }
  }

  /** The sections among the outcomes, in order. */
  function Somes(outs: seq<Option<Bytes>>): seq<Bytes> {
    if outs == [] then [] else (if outs[0].Some? then [outs[0].value] else []) + Somes(outs[1..])
  }

  lemma {:induction false} SomesAppend(a: seq<Option<Bytes>>, b: seq<Option<Bytes>>)
    ensures Somes(a + b) == Somes(a) + Somes(b)
  {
    if a == [] {
      assert a + b == b;
    } else {
      assert (a + b)[1..] == a[1..] + b;
      SomesAppend(a[1..], b);
      var x := if a[0].Some? then [a[0].value] else [];
      assert x + (Somes(a[1..]) + Somes(b)) == x + Somes(a[1..]) + Somes(b);
    }
  }

  // ----- the round trip -----

  function Nones(n: nat): seq<Option<Bytes>> {
    seq(n, _ => None)
  }

  lemma FirstPacket(r: Reasm, s: Bytes, pid: Pid, cc: nat)
    requires WellSized(s)
    ensures Accept(r, PacketOf(s[..Min(FIRST_CAPACITY, |s|)], pid, cc, true))
            == if |s| <= FIRST_CAPACITY then (EMPTY, Some(s))
               else (Reasm(s[..FIRST_CAPACITY], Some(|s|)), None)
  {
    var n := Min(FIRST_CAPACITY, |s|);
    var p := PacketOf(s[..n], pid, cc, true);
    PacketFields(s[..n], pid, cc, true);
    assert p[5..5] == [];
    assert p[5..][1] == s[1] && p[5..][2] == s[2];
    if |s| <= FIRST_CAPACITY {
      assert p[5..][..|s|] == s;
    } else {
      assert p[5..] == s[..FIRST_CAPACITY];
    }
  }

  lemma FirstOfPack(s: Bytes, pid: Pid, cc: nat)
    ensures PackOne(s, pid, cc) == PacketOf(s[..Min(FIRST_CAPACITY, |s|)], pid, cc, true)
  {
  }

  /** One packet never returns a section that is longer than its payload. */
  lemma OnePacketIsShort(r: Reasm, s: Bytes, pid: Pid, cc: nat)
    requires |s| > FIRST_CAPACITY
    ensures Accept(r, PackOne(s, pid, cc)).1 != Some(s)
  {
    var p := PackOne(s, pid, cc);
    FirstOfPack(s, pid, cc);
    PacketFields(s[..FIRST_CAPACITY], pid, cc, true);
    assert p[5..5] == [];
  }

  /** Which section a packet completes does not depend on its continuity counter. */
  lemma AcceptIgnoresCc(r: Reasm, p: Packet, q: Packet)
    requires SameButCc(p, q)
    ensures Accept(r, p) == Accept(r, q)
  {
    assert p[1] == p[..3][1] && q[1] == q[..3][1];
    assert forall k :: 4 <= k < TS_PACKET_SIZE ==> p[k] == p[4..][k - 4] == q[4..][k - 4] == q[k];
    var a, b := PayloadOffset(p), PayloadOffset(q);
    assert a == b;
    if a.Some? && a.value < TS_PACKET_SIZE {
      assert p[a.value..] == q[a.value..];
      var start := a.value + 1 + p[a.value] as int;
      if start <= TS_PACKET_SIZE {
        assert p[a.value + 1..start] == q[a.value + 1..start] && p[start..] == q[start..];
      }
    }
  }

  /** A section sent as `pack` sends it arrives exactly if it fits the one packet. */
  lemma OnePacketIff(r: Reasm, s: Bytes, pid: Pid, cc: nat)
    requires WellSized(s)
    ensures Accept(r, PackOne(s, pid, cc)).1 == Some(s) <==> |s| <= FIRST_CAPACITY
  {
    FirstOfPack(s, pid, cc);
    if |s| <= FIRST_CAPACITY {
      FirstPacket(r, s, pid, cc);
    } else {
      OnePacketIsShort(r, s, pid, cc);
    }
  }

  lemma NextPacket(s: Bytes, k: nat, pid: Pid, cc: nat)
    requires WellSized(s) && 3 <= k < |s|
    ensures var n := Min(NEXT_CAPACITY, |s| - k);
            Accept(Reasm(s[..k], Some(|s|)), PacketOf(s[k..k + n], pid, cc, false))
            == if k + n == |s| then (EMPTY, Some(s)) else (Reasm(s[..k + n], Some(|s|)), None)
  {
    var n := Min(NEXT_CAPACITY, |s| - k);
    var p := PacketOf(s[k..k + n], pid, cc, false);
    PacketFields(s[k..k + n], pid, cc, false);
    var joined := s[..k] + p[4..];
    assert joined[..k + n] == s[..k] + s[k..k + n] == s[..k + n];
    if k + n == |s| {
      assert joined[..|s|] == s;
    } else {
      assert joined == s[..k + n];
    }
  }

  lemma PackSplit(s: Bytes, k: nat, pid: Pid, cc: nat, first: bool, n: nat)
    requires k <= |s| && (first || k < |s|) && n == Min(Capacity(first), |s| - k)
    ensures PackFrom(s[k..], pid, cc, first)
            == [PacketOf(s[k..k + n], pid, cc, first)] + PackFrom(s[k + n..], pid, (cc + 1) % 16, false)
  {
    assert s[k..][..n] == s[k..k + n] && s[k..][n..] == s[k + n..];
  }

  /** From state `r`, a run of packets returns the section on the last one and nothing before. */
  ghost predicate Delivers(r: Reasm, ps: seq<Packet>, s: Bytes) {
    |ps| > 0 && RunOne(r, ps) == (EMPTY, Nones(|ps| - 1) + [Some(s)])
  }

  lemma DeliversLater(r: Reasm, p: Packet, tail: seq<Packet>, s: Bytes)
    requires Accept(r, p).1 == None && Delivers(Accept(r, p).0, tail, s)
    ensures Delivers(r, [p] + tail, s)
  {
    assert ([p] + tail)[1..] == tail;
    assert [None] + (Nones(|tail| - 1) + [Some(s)]) == Nones(|tail|) + [Some(s)];
  }

  lemma DeliversNow(r: Reasm, p: Packet, s: Bytes)
    requires Accept(r, p) == (EMPTY, Some(s))
    ensures Delivers(r, [p], s)
  {
    assert RunOne(EMPTY, [p][1..]) == (EMPTY, []);
    assert [Some(s)] + [] == Nones(0) + [Some(s)];
  }

  lemma {:induction false} RestOfSection(s: Bytes, k: nat, pid: Pid, cc: nat)
    requires WellSized(s) && 3 <= k < |s|
    ensures Delivers(Reasm(s[..k], Some(|s|)), PackFrom(s[k..], pid, cc, false), s)
    decreases |s| - k
  {
    var n := Min(NEXT_CAPACITY, |s| - k);
    var tail := PackFrom(s[k + n..], pid, (cc + 1) % 16, false);
    var p := PacketOf(s[k..k + n], pid, cc, false);
    NextPacket(s, k, pid, cc);
    PackSplit(s, k, pid, cc, false, n);
    if k + n < |s| {
      RestOfSection(s, k + n, pid, (cc + 1) % 16);
      DeliversLater(Reasm(s[..k], Some(|s|)), p, tail, s);
    } else {
      NothingToPack(s, k + n, pid, (cc + 1) % 16);
      assert [p] + tail == [p];
      DeliversNow(Reasm(s[..k], Some(|s|)), p, s);
    }
  }

  lemma NothingToPack(s: Bytes, k: nat, pid: Pid, cc: nat)
    requires k == |s|
    ensures PackFrom(s[k..], pid, cc, false) == []
  {
    assert s[k..] == [];
  }

  /** One section, fed to a reassembler in any state whatever: it comes back on its last packet. */
  lemma OneSection(r: Reasm, s: Bytes, pid: Pid, cc: nat)
    requires WellSized(s)
    ensures RunOne(r, Pack(s, pid, cc)) == (EMPTY, Nones(PacketCount(|s|) - 1) + [Some(s)])
  {
    PackShape(s, pid, cc);
    var n := Min(FIRST_CAPACITY, |s|);
    var tail := PackFrom(s[n..], pid, (cc + 1) % 16, false);
    var p := PacketOf(s[..n], pid, cc, true);
    assert s[0..] == s;
    PackSplit(s, 0, pid, cc, true, n);
    assert Pack(s, pid, cc) == [p] + tail;
    FirstPacket(r, s, pid, cc);
    if n < |s| {
      RestOfSection(s, n, pid, (cc + 1) % 16);
      DeliversLater(r, p, tail, s);
    } else {
      assert tail == [];
      assert [p] + tail == [p];
      DeliversNow(r, p, s);
    }
  }

  /** All packets of a list of sections on one PID, the counter running on. */
  function PackAll(sections: seq<Bytes>, pid: Pid, cc: nat): seq<Packet>
    decreases |sections|
  {
    if sections == [] then []
    else
      var ps := Pack(sections[0], pid, cc);
      ps + PackAll(sections[1..], pid, (cc + |ps|) % 16)
  }

  /** Every section once, in order, each on its last packet. */
  function Delivered(sections: seq<Bytes>): seq<Option<Bytes>> {
    if sections == [] then []
    else Nones(PacketCount(|sections[0]|) - 1) + [Some(sections[0])] + Delivered(sections[1..])
  }

  lemma {:induction false} ManySections(r: Reasm, sections: seq<Bytes>, pid: Pid, cc: nat)
    requires forall s :: s in sections ==> WellSized(s)
    ensures RunOne(r, PackAll(sections, pid, cc)).1 == Delivered(sections)
    decreases |sections|
  {
    if sections != [] {
      var ps := Pack(sections[0], pid, cc);
      var rest := PackAll(sections[1..], pid, (cc + |ps|) % 16);
      OneSection(r, sections[0], pid, cc);
      ManySections(EMPTY, sections[1..], pid, (cc + |ps|) % 16);
      RunThen(r, ps, Nones(PacketCount(|sections[0]|) - 1) + [Some(sections[0])], rest, Delivered(sections[1..]));
    }
  }

  lemma RunThen(r: Reasm, ps: seq<Packet>, outs: seq<Option<Bytes>>, rest: seq<Packet>, more: seq<Option<Bytes>>)
    requires RunOne(r, ps) == (EMPTY, outs) && RunOne(EMPTY, rest).1 == more
    ensures RunOne(r, ps + rest).1 == outs + more
  {
    RunOneAppend(r, ps, rest);
  }

  /** Pack any sections on any PIDs, mix their packets (and any others) in any order that keeps each
    * PID's own order, and push them through a map in any state: every PID returns exactly its
    * sections, in order, each on its last packet. */
  lemma RoundTrip(t: Table, trace: seq<Packet>, pid: Pid, sections: seq<Bytes>, cc: nat)
    requires forall s :: s in sections ==> WellSized(s)
    requires OnPid(trace, pid) == PackAll(sections, pid, cc)
    ensures OutcomesOn(trace, RunTable(t, trace).1, pid) == Delivered(sections)
  {
    Independent(t, trace, pid);
    ManySections(Lookup(t, pid), sections, pid, cc);
  }

  /** A section survives packing and reassembly exactly when its length field tells the truth. */
  lemma SurvivesIffWellSized(t: Table, s: Bytes, pid: Pid, cc: nat)
    requires TableInv(t)
    ensures Some(s) in RunTable(t, Pack(s, pid, cc)).1 <==> WellSized(s)
  {
    var ps := Pack(s, pid, cc);
    RunSafe(t, ps);
    if WellSized(s) {
      PackShape(s, pid, cc);
      AllOnPid(ps, pid);
      Independent(t, ps, pid);
      OneSection(Lookup(t, pid), s, pid, cc);
      var outs := RunOne(Lookup(t, pid), ps).1;
      assert outs[|outs| - 1] == Some(s);
      AllOutcomes(ps, RunTable(t, ps).1, pid);
    }
  }

  lemma {:induction false} AllOnPid(ps: seq<Packet>, pid: Pid)
    requires forall i :: 0 <= i < |ps| ==> IsFor(ps[i], pid)
    ensures OnPid(ps, pid) == ps
  {
    if ps != [] {
      AllOnPid(ps[1..], pid);
    }
  }

  lemma {:induction false} AllOutcomes(ps: seq<Packet>, outs: seq<Option<Bytes>>, pid: Pid)
    requires |outs| == |ps| && forall i :: 0 <= i < |ps| ==> IsFor(ps[i], pid)
    ensures OutcomesOn(ps, outs, pid) == outs
  {
    if ps != [] {
      AllOutcomes(ps[1..], outs[1..], pid);
    }
  }
}
