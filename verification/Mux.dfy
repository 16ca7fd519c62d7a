/** The multiplexer as a state machine on values (src/mux.rs:256-1405): what one call of `write`,
  * `flush_packet_for_cbr` or `flush_packet_for_vbr` makes of the state, and what it sends.
  * Class PacketHandler in module Handler is proved to do exactly this. */
module Mux {
  import opened Common
  import opened Clock
  import opened TsPacket
  import opened Queues
  import Framing
  import Restamper
  import Schedule
  import Sections

  const NULL_PID: Pid := 0x1FFF
  const PAT_PID: Pid := 0
  const BUFFER_DURATION_PROBE_MS: nat := 5_000
  const DISCONTINUITY_THRESHOLD_MS: nat := 500
  const DTS_PCR_DIFF_MS: nat := 300
  const MIN_DTS_PCR_DIFF_MS: int := 0

  /** The table functions the multiplexer calls, as parameters: nothing below depends on what they
    * answer.  `patSection` and `pmtSection` rewrite a section, `patChanged` and `pmtChanged` compare
    * a section with the one accepted first, `sdtSection` builds the service table from a received
    * one if it lists the service, `sdtDefault` from the configuration alone. */
  datatype Tables = Tables(
    patSection: Bytes -> Bytes, patChanged: (Bytes, Bytes) -> bool,
    pmtSection: Bytes -> Bytes, pmtChanged: (Bytes, Bytes) -> bool,
    sdtSection: (Packet, Bytes) -> Option<Bytes>, sdtDefault: Packet -> Bytes)

  /** `minLimitMs`, `maxLimitMs`, `scaledBitrate` and `maxBuffSize` stand for floating-point
    * expressions, cast to integers as in the source. */
  datatype Config = Config(
    pmtPid: Pid, pcrPid: Pid, videoPids: seq<Pid>, audioPids: seq<Pid>,
    hasProgram: bool, pktSize: nat, bufferDurationMs: nat, jitterMs: nat, adjustBuf: nat,
    minLimitMs: nat, maxLimitMs: nat, scaledBitrate: nat -> nat, maxBuffSize: nat -> nat,
    tables: Tables)

  datatype Counts = Counts(psi: nat, nulls: nat, payload: nat, adjustNulls: nat, adjustPayload: nat)

  datatype State = State(
    isReady: bool, framer: Framing.Framer, v: Queue, a: Queue, maxBuff: nat,
    lastStamps: map<Pid, (nat, nat)>, patInfo: Bytes, pmtInfo: Bytes,
    cache: Schedule.Cache, reasm: Sections.Table, rs: Restamper.Stamper, counts: Counts,
    dirtyPat: bool, dirtyPmt: bool, dirtyCa: bool)

  const ZERO_PACKET: Packet := Fill(TS_PACKET_SIZE, 0)
  const UNSET := Schedule.Cached(ZERO_PACKET, false, None)

  /** A handler in multiplexing mode, just made. */
  function Initial(bitrate: nat): State {
    State(false, Framing.START, [], [], Framing.MAX_BUFFER_SIZE, map[], [], [],
          Schedule.Cache(UNSET, UNSET, UNSET), map[], Restamper.Stamper(bitrate, 0, None),
          Counts(0, 0, 0, 0, 0), false, false, false)
  }

  predicate Dirty(m: State) {
    m.dirtyPat || m.dirtyPmt || m.dirtyCa
  }

  function PktSize(cfg: Config): nat {
    if cfg.pktSize == 0 then TS_PACKET_SIZE else cfg.pktSize
  }

  function BuffersClear(m: State): State {
    m.(isReady := false, v := [], a := [], maxBuff := Framing.MAX_BUFFER_SIZE, lastStamps := map[])
  }

  function BuffersSize(m: State): nat {
    (|m.v| + |m.a|) * TS_PACKET_SIZE
  }

  predicate Overflow(m: State, rate: nat) {
    BuffersSize(m) > m.maxBuff * rate
  }

  // ----- taking packets from the queues -----

  function Pop(m: State, s: Source): (r: (State, Option<TsPkt>))
    requires s == FromA ==> m.a != []
    requires s == FromV ==> m.v != []
    ensures r.0 == m.(a := r.0.a, v := r.0.v)
  {
    match s
    case FromA => (m.(a := m.a[1..]), Some(m.a[0]))
    case FromV => (m.(v := m.v[1..]), Some(m.v[0]))
    case Neither => (m, None)
  }

  function GetAOrV(m: State): (State, Option<TsPkt>) {
    Pop(m, Choose(m.a, m.v))
  }

  function BufferAdjust(cfg: Config, m: State): State
    decreases |m.a| + |m.v|
  {
    if Duration(m.v) > cfg.bufferDurationMs then BufferAdjust(cfg, GetAOrV(m).0) else m
  }

  lemma AdjustTurn(cfg: Config, m: State)
    requires Duration(m.v) > cfg.bufferDurationMs
    ensures var n := GetAOrV(m).0;
            BufferAdjust(cfg, m) == BufferAdjust(cfg, n) && |n.a| + |n.v| < |m.a| + |m.v|
  {
  }

  function ResyncDts(dts: nat): nat {
    (dts - DTS_PCR_DIFF_MS * 90) % DTS_CYCLE
  }

  // ----- receiving -----

  function CachedCc(p: Packet): nat {
    if p[0] == TS_SYNC_BYTE then p[3] % 16 else 0
  }

  /** A rewritten section in the place of a cached table. */
  function Store(x: Schedule.Cached, section: Bytes, pid: Pid): Schedule.Cached {
    x.(packet := Sections.PackOne(section, pid, CachedCc(x.packet)), ready := true)
  }

  /** The first PAT is rewritten and kept; a later one is compared with it. */
  function AcceptPat(cfg: Config, m: State, section: Bytes, pid: Pid): State {
    if m.cache.pat.ready then m.(dirtyPat := cfg.tables.patChanged(m.patInfo, section))
    else KeepPat(m, section, Store(m.cache.pat, cfg.tables.patSection(section), pid))
  }

  function KeepPat(m: State, section: Bytes, x: Schedule.Cached): State {
    m.(patInfo := section, cache := m.cache.(pat := x))
  }

  function ProcessPat(cfg: Config, m: State, p: Packet): State {
    var (reasm, got) := Sections.PushTable(m.reasm, p);
    var n := m.(reasm := reasm);
    if got.Some? then AcceptPat(cfg, n, got.value, PktPid(p)) else n
  }

  function AcceptPmt(cfg: Config, m: State, section: Bytes, pid: Pid): State {
    if m.cache.pmt.ready then m.(dirtyPmt := cfg.tables.pmtChanged(m.pmtInfo, section))
    else KeepPmt(m, section, Store(m.cache.pmt, cfg.tables.pmtSection(section), pid))
  }

  function KeepPmt(m: State, section: Bytes, x: Schedule.Cached): State {
    m.(pmtInfo := section, cache := m.cache.(pmt := x))
  }

  function ProcessPmt(cfg: Config, m: State, p: Packet): State {
    var (reasm, got) := Sections.PushTable(m.reasm, p);
    var n := m.(reasm := reasm);
    if got.Some? then AcceptPmt(cfg, n, got.value, PktPid(p)) else n
  }

  function StoreSdt(m: State, section: Bytes): State {
    m.(cache := m.cache.(sdt := m.cache.sdt.(packet := Sections.PackOne(section, SDT_PID, 0), ready := true)))
  }

  function ProcessSdt(cfg: Config, m: State, p: Packet): State {
    var (reasm, got) := Sections.PushTable(m.reasm, p);
    match got
    case None => m.(reasm := reasm)
    case Some(section) =>
      match cfg.tables.sdtSection(m.cache.pat.packet, section)
      case None => m.(reasm := reasm)
      case Some(s) => StoreSdt(m.(reasm := reasm), s)
  }

  predicate IsVideo(cfg: Config, pid: Pid) {
    pid in cfg.videoPids
  }

  predicate IsAudio(cfg: Config, pid: Pid) {
    pid in cfg.audioPids
  }

  /** A stamp that jumps by more than 500 ms, or does not advance, is a discontinuity. */
  predicate Jump(m: State, pid: Pid, dts: nat) {
    pid in m.lastStamps &&
    var delta := DtsForwardDeltaMs(dts, m.lastStamps[pid].1);
    delta < 0 || delta > DISCONTINUITY_THRESHOLD_MS
  }

  /** The stamps a packet is given: its own, or the last ones seen on its PID. */
  function Stamped(m: State, pid: Pid, stamps: Option<(nat, nat)>): State {
    if stamps.Some? then m.(lastStamps := m.lastStamps[pid := stamps.value]) else m
  }

  function Append(cfg: Config, m: State, pkt: TsPkt): State {
    if IsVideo(cfg, pkt.pid) then m.(v := m.v + [pkt]) else m.(a := m.a + [pkt])
  }

  /** The queue entry for a packet, if stamps for its PID are known by now. */
  function Entry(cfg: Config, m: State, p: Packet): Option<TsPkt> {
    var pid := PktPid(p);
    var stamps := PtsDts(p, pid);
    var disc := GetDiscontinuity(p) || (stamps.Some? && Jump(m, pid, stamps.value.1));
    var last := Stamped(m, pid, stamps).lastStamps;
    if pid !in last then None
    else Some(TsPkt(p, pid, last[pid].0, last[pid].1, stamps.Some?, disc,
                    if pid == cfg.pcrPid then ExtractPcr(p) else None))
  }

  function Enqueue(cfg: Config, m: State, p: Packet): State {
    var n := Stamped(m, PktPid(p), PtsDts(p, PktPid(p)));
    match Entry(cfg, m, p)
    case None => n
    case Some(pkt) => Append(cfg, n, pkt)
  }

  /** The body of the loop of `process` for one clear packet. */
  function HandleClear(cfg: Config, m: State, p: Packet): State {
    var pid := PktPid(p);
    if pid == NULL_PID then m
    else if pid == PAT_PID then
      if !m.cache.pat.ready || !m.isReady then ProcessPat(cfg, m, p) else m
    else if pid == cfg.pmtPid && (!m.cache.pmt.ready || !m.isReady) then ProcessPmt(cfg, m, p)
    else if Dirty(m) then m
    else if pid == SDT_PID then
      if m.cache.pat.ready && !m.cache.sdt.ready then ProcessSdt(cfg, m, p) else m
    else if IsAudio(cfg, pid) || IsVideo(cfg, pid) then Enqueue(cfg, m, p)
    else m
  }

  function Handle(cfg: Config, m: State, p: Packet): State {
    if ScramblingControl(p) != 0 then m.(dirtyCa := true)
    else HandleClear(cfg, m.(dirtyCa := false), p)
  }

  function HandleAll(cfg: Config, m: State, ps: seq<Packet>): State
    decreases |ps|
  {
    if ps == [] then m else HandleAll(cfg, Handle(cfg, m, ps[0]), ps[1..])
  }

  /** Kilobits per second. */
  function Rate(bytes: nat, ms: nat): nat
    requires ms > 0
  {
    RateNonnegative(bytes * 8, ms);
    bytes * 8 / ms
  }

  lemma RateNonnegative(x: nat, ms: nat)
    requires ms > 0
    ensures x / ms >= 0
  {
  }

  /** Bit rate from five seconds of video, if none is configured. */
  function Probe(cfg: Config, m: State): State {
    if m.rs.bitrate == 0 && Duration(m.v) >= BUFFER_DURATION_PROBE_MS then
      m.(rs := m.rs.(bitrate := cfg.scaledBitrate(Rate(BuffersSize(m), Duration(m.v)))))
    else m
  }

  function Resynced(m: State, dts: nat): State {
    m.(rs := Restamper.Resync(m.rs, ResyncDts(dts)))
  }

  function WithSdt(cfg: Config, m: State): State {
    if m.cache.sdt.ready then m else StoreSdt(m, cfg.tables.sdtDefault(m.cache.pat.packet))
  }

  /** With the bit rate known and enough buffered, the surplus is dropped, the clock is set and sending
    * may begin. */
  function Start(cfg: Config, m: State): State {
    if m.rs.bitrate != 0 && Duration(m.v) >= cfg.bufferDurationMs then
      var r := BufferAdjust(cfg, m).(maxBuff := cfg.maxBuffSize(m.rs.bitrate));
      if r.v == [] then r else Resynced(r, r.v[0].dts).(isReady := true)
    else m
  }

  /** The end of `process`: is there enough to start sending? */
  function ReadyCheck(cfg: Config, m: State): State {
    if Dirty(m) || m.isReady || !m.cache.pat.ready || !m.cache.pmt.ready then m
    else
      var n := WithSdt(cfg, m);
      if n.v == [] then n
      else if DtsAfter(n.v[0].dts, n.v[|n.v| - 1].dts) then BuffersClear(n)
      else Start(cfg, Probe(cfg, n))
  }

  /** The input buffer in step, if a sync point can be found. */
  function Located(m: State): State {
    if m.framer.synced then m
    else
      var (found, rest) := Framing.Hunt(m.framer.buf);
      m.(framer := Framing.Framer(rest, found))
  }

  function Relieved(m: State): State {
    if Overflow(m, 2) then BuffersClear(m) else m
  }

  /** `process`, once the input buffer has been extended. */
  function Process(cfg: Config, m: State): State {
    var m0 := Located(m);
    if !m0.framer.synced then m0
    else if |m0.framer.buf| < TS_PACKET_SIZE then Relieved(m0)
    else Demultiplex(cfg, Relieved(m0))
  }

  /** The loop of `process`. */
  function Demuxed(cfg: Config, m: State): State {
    var (packets, f) := Framing.Demux(m.framer.buf);
    HandleAll(cfg, m, packets).(framer := f)
  }

  /** The loop of `process`, and what follows it. */
  function Demultiplex(cfg: Config, m: State): State {
    Settle(cfg, Demuxed(cfg, m))
  }

  /** The chunk behind what is buffered; a buffer that would reach its limit is dropped first. */
  function Fed(m: State, chunk: Bytes): State {
    m.(framer := if Framing.Overflows(m.framer, chunk) then Framing.Framer(chunk, false)
                 else Framing.Framer(m.framer.buf + chunk, m.framer.synced))
  }

  function Write(cfg: Config, m: State, chunk: Bytes): State {
    Process(cfg, Fed(m, chunk))
  }

  /** The packets one call of `write` puts through the loop of `process`. */
  function Handled(m: State, chunk: Bytes): seq<Packet> {
    var m0 := Located(Fed(m, chunk));
    if m0.framer.synced && |m0.framer.buf| >= TS_PACKET_SIZE then Framing.Demux(m0.framer.buf).0 else []
  }

  /** What `process` does once its loop has ended. */
  function Settle(cfg: Config, m: State): State {
    if !m.framer.synced then BuffersClear(m) else ReadyCheck(cfg, m)
  }

  /** The multiplexer frames its input exactly as module Framing says: the packets it handles, one after
    * the other, and the buffer it keeps are those of `Framing.Write`. */
  lemma WriteFrames(cfg: Config, m: State, chunk: Bytes)
    ensures var (packets, f) := Framing.Write(m.framer, chunk);
            var m0 := Located(Fed(m, chunk));
            && Handled(m, chunk) == packets && Write(cfg, m, chunk).framer == f
            && Write(cfg, m, chunk)
               == if !m0.framer.synced then m0
                  else if |m0.framer.buf| < TS_PACKET_SIZE then Relieved(m0)
                  else Settle(cfg, HandleAll(cfg, Relieved(m0), packets).(framer := f))
  {
    var m0 := Located(Fed(m, chunk));
    ProcessFrames(cfg, Fed(m, chunk));
    RelievedFrames(m0);
    if m0.framer.synced {
      PassLocated(Fed(m, chunk));
    }
  }

  /** The packets handled over a run of calls. */
  function HandledBy(cfg: Config, m: State, chunks: seq<Bytes>): seq<Packet>
    decreases |chunks|
  {
    if chunks == [] then []
    else Handled(m, chunks[0]) + HandledBy(cfg, Write(cfg, m, chunks[0]), chunks[1..])
  }

  lemma {:induction false} HandledByIsRun(cfg: Config, m: State, chunks: seq<Bytes>)
    ensures HandledBy(cfg, m, chunks) == Framing.Run(m.framer, chunks).0
    decreases |chunks|
  {
    if chunks != [] {
      WriteFrames(cfg, m, chunks[0]);
      HandledByIsRun(cfg, Write(cfg, m, chunks[0]), chunks[1..]);
    }
  }

  /** So the multiplexer handles the packets of the canonical framing of its input, in order and
    * without a gap, however the input is cut; none is missing if it ends in step. */
  lemma HandlesCanonical(cfg: Config, bitrate: nat, chunks: seq<Bytes>)
    requires Framing.NoOverflow(Framing.START, chunks)
    ensures var all, handled := Framing.Canonical(Flatten(chunks), false), HandledBy(cfg, Initial(bitrate), chunks);
            handled <= all && (Framing.Run(Framing.START, chunks).1.synced ==> handled == all)
  {
    HandledByIsRun(cfg, Initial(bitrate), chunks);
    Framing.ChunkIndependence(chunks);
  }

  lemma ProcessFrames(cfg: Config, m: State)
    ensures Process(cfg, m).framer == Framing.Pass(m.framer).1
  {
    var m0 := Located(m);
    RelievedFrames(m0);
    if m0.framer.synced && |m0.framer.buf| >= TS_PACKET_SIZE {
      DemultiplexFrames(cfg, Relieved(m0));
      PassLocated(m);
    }
  }

  lemma PassLocated(m: State)
    requires Located(m).framer.synced
    ensures Framing.Pass(m.framer) == Framing.Demux(Located(m).framer.buf)
  {
  }

  lemma RelievedFrames(m: State)
    ensures Relieved(m).framer == m.framer
  {
  }

  lemma DemultiplexFrames(cfg: Config, m: State)
    ensures Demultiplex(cfg, m).framer == Framing.Demux(m.framer.buf).1
  {
    var (packets, f) := Framing.Demux(m.framer.buf);
    ReadyCheckFrames(cfg, HandleAll(cfg, m, packets).(framer := f));
  }

  lemma StartFrames(cfg: Config, m: State)
    ensures Start(cfg, m).framer == m.framer
  {
    AdjustKeeps(cfg, m);
  }

  lemma ReadyCheckFrames(cfg: Config, m: State)
    ensures ReadyCheck(cfg, m).framer == m.framer
  {
    StartFrames(cfg, Probe(cfg, WithSdt(cfg, m)));
  }

  /** Adjusting the buffer touches only the queues; it ends with the video queue within its duration,
    * and with a packet in it if there was one. */
  lemma {:induction false} AdjustKeeps(cfg: Config, m: State)
    ensures BufferAdjust(cfg, m) == m.(a := BufferAdjust(cfg, m).a, v := BufferAdjust(cfg, m).v)
    ensures Duration(BufferAdjust(cfg, m).v) <= cfg.bufferDurationMs
    ensures m.v != [] ==> BufferAdjust(cfg, m).v != []
    decreases |m.a| + |m.v|
  {
    if Duration(m.v) > cfg.bufferDurationMs {
      TwoForDuration(m.v);
      var p := GetAOrV(m).0;
      assert p == m.(a := p.a, v := p.v);
      AdjustKeeps(cfg, p);
    }
  }

  lemma TwoForDuration(q: Queue)
    requires Duration(q) > 0
    ensures |q| >= 2
  {
  }

  // ----- sending -----

  datatype Kind = Table | Null | AdjustNull | Payload | AdjustPayload

  /** One packet sent: its slot for the clock, why it was sent, the queue packet it came from, and what
    * the clock reads after it. */
  datatype Emitted = Emitted(slot: Restamper.Slot, kind: Kind, taken: Option<TsPkt>, source: Source, clock: Option<nat>)

  /** Milliseconds a stamp is ahead of the clock; 0 if there is no clock. */
  function DtsDrift(m: State, dts: nat): int {
    match Restamper.GetPcr(m.rs)
    case None => 0
    case Some(pcr) => TruncDiv(DtsSignedDelta(dts, pcr / 300), 90)
  }

  predicate MustResync(m: State, pkt: TsPkt) {
    pkt.disc || !(MIN_DTS_PCR_DIFF_MS <= DtsDrift(m, pkt.dts) <= MAX_DTS_PCR_DIFF_MS)
  }

  /** `process_packet`, with the decision to resynchronise made. */
  function ProcessAs(cfg: Config, m: State, pkt: TsPkt, disc: bool): (State, Restamper.Slot) {
    var data := if disc then SetDiscontinuity(pkt.data) else pkt.data;
    var m1 := if disc then Resynced(m, pkt.dts) else m;
    var to := if disc then Some(ResyncDts(pkt.dts)) else None;
    if pkt.pid == cfg.pcrPid then
      var (rs, out, stamp) := Restamper.Process(m1.rs, data);
      (m1.(rs := rs), Restamper.Slot(out, to, stamp))
    else (m1, Restamper.Slot(data, to, None))
  }

  function ProcessPacket(cfg: Config, m: State, pkt: TsPkt): (State, Restamper.Slot) {
    ProcessAs(cfg, m, pkt, MustResync(m, pkt))
  }

  function EmitNull(m: State, kind: Kind): (State, Emitted) {
    (m.(counts := if kind == AdjustNull then m.counts.(adjustNulls := m.counts.adjustNulls + 1)
                  else m.counts.(nulls := m.counts.nulls + 1)),
     Emitted(Restamper.Slot(NULL_PACKET, None, None), kind, None, Neither, Restamper.GetPcr(m.rs)))
  }

  /** A packet off its queue, counted. */
  function Take(m: State, s: Source, kind: Kind): (State, TsPkt)
    requires s != Neither && (s == FromA ==> m.a != []) && (s == FromV ==> m.v != [])
  {
    var (m1, pkt) := Pop(m, s);
    (m1.(counts := if kind == AdjustPayload
                   then m1.counts.(adjustPayload := m1.counts.adjustPayload + 1)
                   else m1.counts.(payload := m1.counts.payload + 1)), pkt.value)
  }

  function EmitFrom(cfg: Config, m: State, s: Source, kind: Kind): (State, Emitted)
    requires s != Neither && (s == FromA ==> m.a != []) && (s == FromV ==> m.v != [])
  {
    var (m1, pkt) := Take(m, s, kind);
    var (m2, slot) := ProcessPacket(cfg, m1, pkt);
    (m2, Emitted(slot, kind, Some(pkt), s, Restamper.GetPcr(m2.rs)))
  }

  /** What an adjusting multiplexer sends in place of a null packet. */
  function ChooseInstead(cfg: Config, m: State): Source {
    if Dirty(m) || IsDirty(m.v) || Overflow(m, 1) then Choose(m.a, m.v)
    else if Duration(m.v) > cfg.maxLimitMs then ChooseDrain(m.a, m.v, Restamper.GetPcr(m.rs))
    else Neither
  }

  datatype Decision = SendNull(nullKind: Kind) | SendFrom(source: Source, kind: Kind)

  /** What the next packet is, once it has been counted. */
  function Decide(cfg: Config, t: State): (d: Decision)
    ensures d.SendFrom? ==> d.source != Neither && (d.source == FromA ==> t.a != [])
                            && (d.source == FromV ==> t.v != []) && d.kind in {Payload, AdjustPayload}
    ensures d.SendNull? ==> d.nullKind in {Null, AdjustNull}
  {
    if MustFill(cfg, t) then SendNull(AdjustNull) else DecideSending(cfg, t)
  }

  /** An adjusting multiplexer with too short a buffer holds its packets back. */
  predicate MustFill(cfg: Config, t: State) {
    cfg.adjustBuf != 0 && !IsDirty(t.v) && Duration(t.v) < cfg.minLimitMs
  }

  function DecideSending(cfg: Config, t: State): (d: Decision)
    ensures d.SendFrom? ==> d.source != Neither && (d.source == FromA ==> t.a != [])
                            && (d.source == FromV ==> t.v != []) && d.kind in {Payload, AdjustPayload}
    ensures d.SendNull? ==> d.nullKind == Null
  {
    var s := ChooseReady(t.a, t.v, Restamper.GetPcr(t.rs), cfg.jitterMs);
    if s != Neither then SendFrom(s, Payload) else DecideUnready(cfg, t)
  }

  function DecideUnready(cfg: Config, t: State): (d: Decision)
    ensures d.SendFrom? ==> d.source != Neither && (d.source == FromA ==> t.a != [])
                            && (d.source == FromV ==> t.v != []) && d.kind == AdjustPayload
    ensures d.SendNull? ==> d.nullKind == Null
  {
    var i := if cfg.adjustBuf != 0 then ChooseInstead(cfg, t) else Neither;
    if i != Neither then SendFrom(i, AdjustPayload) else SendNull(Null)
  }

  function Perform(cfg: Config, t: State, d: Decision): (State, Emitted)
    requires d.SendFrom? ==> d.source != Neither && (d.source == FromA ==> t.a != [])
                             && (d.source == FromV ==> t.v != [])
  {
    match d
    case SendNull(kind) => EmitNull(t, kind)
    case SendFrom(s, kind) => EmitFrom(cfg, t, s, kind)
  }

  /** One turn of the loop of `flush_packet_for_cbr`. */
  function CbrSlot(cfg: Config, m: State): (State, Emitted) {
    Perform(cfg, Ticked(m), Decide(cfg, Ticked(m)))
  }

  function Ticked(m: State): State {
    m.(rs := Restamper.Tick(m.rs))
  }

  function CbrLoop(cfg: Config, m: State, n: nat): (r: (State, seq<Emitted>))
    ensures |r.1| == n
    decreases n
  {
    if n == 0 then (m, [])
    else
      var (m1, e) := CbrSlot(cfg, m);
      var (m2, es) := CbrLoop(cfg, m1, n - 1);
      (m2, [e] + es)
  }

  lemma CbrLoopTurn(cfg: Config, m: State, n: nat)
    requires n > 0
    ensures var (m1, e) := CbrSlot(cfg, m);
            CbrLoop(cfg, m, n) == (CbrLoop(cfg, m1, n - 1).0, [e] + CbrLoop(cfg, m1, n - 1).1)
  {
  }

  function TableEmitted(p: Packet): Emitted {
    Emitted(Restamper.Slot(p, None, None), Table, None, Neither, None)
  }

  /** `flush_psi_packets` and the accounting after it. */
  function FlushTables(m: State): (State, seq<Emitted>) {
    var (cache, out) := Schedule.Flush(m.cache, Restamper.GetPcr(m.rs));
    if out == [] then (m.(cache := cache), [])
    else
      (m.(cache := cache, rs := Restamper.Tick(m.rs), counts := m.counts.(psi := m.counts.psi + 1)),
       [TableEmitted(out[0])])
  }

  function FlushCbr(cfg: Config, m: State): (State, Option<seq<Emitted>>) {
    if Dirty(m) || !m.isReady then (m, None)
    else
      var (m1, tables) := FlushTables(m);
      var (m2, es) := CbrLoop(cfg, m1, SaturatingSub(PktSize(cfg) / TS_PACKET_SIZE, |tables|));
      (m2, Some(tables + es))
  }

  /** The bytes handed to the output. */
  function Data(es: seq<Emitted>): seq<Packet> {
    seq(|es|, i requires 0 <= i < |es| => es[i].slot.data)
  }

  // ----- sending without a bit rate -----

  function Counted(m: State): State {
    m.(counts := m.counts.(payload := m.counts.payload + 1))
  }

  function VbrLoop(m: State, n: nat): (State, seq<TsPkt>)
    decreases n
  {
    if n == 0 then (m, [])
    else
      var (m1, pkt) := GetAOrV(m);
      match pkt
      case None => (m1, [])
      case Some(x) =>
        var (m2, xs) := VbrLoop(Counted(m1), n - 1);
        (m2, [x] + xs)
  }

  function FirstPcr(xs: seq<TsPkt>): Option<nat> {
    if xs == [] then None else if xs[0].pcr.Some? then xs[0].pcr else FirstPcr(xs[1..])
  }

  function PacketsOf(xs: seq<TsPkt>): (ps: seq<Packet>)
    ensures |ps| == |xs| && forall k :: 0 <= k < |xs| ==> ps[k] == xs[k].data
  {
    seq(|xs|, i requires 0 <= i < |xs| => xs[i].data)
  }

  function CountTables(m: State): (State, seq<Packet>) {
    var (cache, tables) := Schedule.Flush(m.cache, Restamper.GetPcr(m.rs));
    (m.(cache := cache, counts := m.counts.(psi := m.counts.psi + |tables|)), tables)
  }

  /** The clock follows the stream's own: the first PCR sent becomes its base. */
  function Rebased(m: State, first: Option<nat>): State {
    if first.Some? then m.(rs := m.rs.(first := first)) else m
  }

  function FlushVbr(cfg: Config, m: State): (State, Option<seq<Packet>>) {
    if Dirty(m) || !m.isReady then (m, None)
    else
      var (m1, tables) := CountTables(m);
      var (m2, xs) := VbrLoop(m1, SaturatingSub(PktSize(cfg) / TS_PACKET_SIZE, |tables|));
      var out := tables + PacketsOf(xs);
      (Rebased(m2, FirstPcr(xs)), if out == [] then None else Some(out))
  }

  // ----- runs -----

  datatype Event = Chunk(bytes: Bytes) | FlushAtRate | FlushFreely

  /** The state after an event and the packets it sent. */
  function Step(cfg: Config, m: State, e: Event): (State, seq<Packet>) {
    match e
    case Chunk(bytes) => (Write(cfg, m, bytes), [])
    case FlushAtRate =>
      var (n, out) := FlushCbr(cfg, m);
      (n, if out.Some? then Data(out.value) else [])
    case FlushFreely =>
      var (n, out) := FlushVbr(cfg, m);
      (n, if out.Some? then out.value else [])
  }

  function Run(cfg: Config, m: State, events: seq<Event>): (State, seq<Packet>)
    decreases |events|
  {
    if events == [] then (m, [])
    else
      var (m1, sent) := Step(cfg, m, events[0]);
      var (m2, more) := Run(cfg, m1, events[1..]);
      (m2, sent + more)
  }
}
