/** The multiplexer as the object it is in the source (src/mux.rs:256-1405).  Every method is proved to
  * make of the object's state, and to return, exactly what the function of the same purpose in module
  * Mux says. */
module Handler {
  import opened Common
  import opened Clock
  import opened TsPacket
  import opened Queues
  import opened Mux
  import Framing
  import Proxy
  import Restamper
  import Schedule
  import Sections

  class PacketHandler {
    const cfg: Config
    const outBuffV: OutBuffer
    const outBuffA: OutBuffer
    const pcrRestamper: Restamper.PcrRestamper
    const psiReasm: Sections.SectionReassemblerMap
    var isReady: bool
    var isSync: bool
    var inBuff: Bytes
    var frameBuff: Bytes
    var maxBuffSize: nat
    var lastPtsDts: map<Pid, (nat, nat)>
    var patInfo: Bytes
    var pmtInfo: Bytes
    // Packet, readiness flag and insertion timer of each table.
    var pat: Schedule.Cached
    var pmt: Schedule.Cached
    var sdt: Schedule.Cached
    var counts: Counts
    var dirtyPat: bool
    var dirtyPmt: bool
    var dirtyCa: bool

    ghost function Repr(): set<object>
      reads this, psiReasm
    {
      {this, outBuffV, outBuffA, pcrRestamper, psiReasm} + psiReasm.perPid.Values
    }

    ghost predicate Valid()
      reads Repr()
    {
      outBuffV != outBuffA && outBuffV.Valid() && outBuffA.Valid() && psiReasm.Valid()
    }

    ghost function View(): State
      reads this, outBuffV, outBuffA, pcrRestamper, psiReasm
    {
      State(isReady, Framing.Framer(inBuff, isSync), outBuffV.inner, outBuffA.inner, maxBuffSize, lastPtsDts,
            patInfo, pmtInfo, Schedule.Cache(pat, pmt, sdt), psiReasm.Contents, pcrRestamper.State(), counts,
            dirtyPat, dirtyPmt, dirtyCa)
    }

    constructor (cfg: Config, bitrate: nat)
      ensures Valid() && fresh(Repr()) && this.cfg == cfg
      ensures View() == Initial(bitrate) && frameBuff == []
    {
      this.cfg := cfg;
      outBuffV := new OutBuffer();
      outBuffA := new OutBuffer();
      pcrRestamper := new Restamper.PcrRestamper(bitrate);
      psiReasm := new Sections.SectionReassemblerMap();
      isReady, isSync, inBuff, frameBuff := false, false, [], [];
      maxBuffSize := Framing.MAX_BUFFER_SIZE;
      lastPtsDts, patInfo, pmtInfo := map[], [], [];
      pat, pmt, sdt := UNSET, UNSET, UNSET;
      counts := Counts(0, 0, 0, 0, 0);
      dirtyPat, dirtyPmt, dirtyCa := false, false, false;
    }

    /** `new`: an output with more than one program is refused. */
    static method New(cfg: Config, programs: nat, cbr: nat) returns (h: Option<PacketHandler>)
      requires cfg.hasProgram <==> programs > 0
      ensures h.Some? <==> programs <= 1
      ensures h.Some? ==>
                h.value.Valid() && fresh(h.value.Repr()) && h.value.cfg == cfg && h.value.View() == Initial(cbr)
    {
      if programs > 1 {
        return None;
      }
      var handler := new PacketHandler(cfg, cbr);
      h := Some(handler);
    }

    // ----- queues -----

    method BuffersClear()
      requires Valid()
      modifies this`isReady, this`maxBuffSize, this`lastPtsDts, outBuffV, outBuffA
      ensures Valid() && View() == Mux.BuffersClear(old(View()))
    {
      isReady := false;
      outBuffV.Clear();
      outBuffA.Clear();
      maxBuffSize := Framing.MAX_BUFFER_SIZE;
      lastPtsDts := map[];
    }

    method GetAOrV() returns (pkt: Option<TsPkt>)
      requires Valid()
      modifies outBuffV, outBuffA
      ensures Valid() && (View(), pkt) == Mux.GetAOrV(old(View()))
    {
      if outBuffA.inner != [] && outBuffV.inner != [] {
        if DtsAfter(outBuffA.inner[0].dts, outBuffV.inner[0].dts) {
          pkt := outBuffV.PopFront();
        } else {
          pkt := outBuffA.PopFront();
        }
      } else if outBuffA.inner != [] {
        pkt := outBuffA.PopFront();
      } else if outBuffV.inner != [] {
        pkt := outBuffV.PopFront();
      } else {
        pkt := None;
      }
    }

    /** `ready_send` and `drain_send`, which differ in the margin. */
    method SendBy(dts: nat, marginMs: nat) returns (ready: bool)
      ensures ready == NotLaterThan(dts, Restamper.GetPcr(pcrRestamper.State()), marginMs)
    {
      var currentPcr := pcrRestamper.CurrentPcr();
      if currentPcr.None? {
        return false;
      }
      var ticks := dts * 300 % PCR_CYCLE;
      var limit := PcrAdd(currentPcr.value, marginMs * 27_000);
      ready := !PcrAfter(ticks, limit);
    }

    method PopVideo() returns (pkt: Option<TsPkt>)
      requires Valid() && outBuffV.inner != []
      modifies outBuffV
      ensures Valid() && (View(), pkt) == Pop(old(View()), FromV)
    {
      pkt := outBuffV.PopFront();
    }

    method PopAudio() returns (pkt: Option<TsPkt>)
      requires Valid() && outBuffA.inner != []
      modifies outBuffA
      ensures Valid() && (View(), pkt) == Pop(old(View()), FromA)
    {
      pkt := outBuffA.PopFront();
    }

    method GetAOrVReady() returns (pkt: Option<TsPkt>, ghost s: Source)
      requires Valid()
      modifies outBuffV, outBuffA
      ensures s == ChooseReady(old(View()).a, old(View()).v, Restamper.GetPcr(old(View()).rs), cfg.jitterMs)
      ensures Valid() && (View(), pkt) == Pop(old(View()), s)
    {
      var a, v := outBuffA.inner, outBuffV.inner;
      if a != [] && v != [] && DtsAfter(a[0].dts, v[0].dts) {
        var vReady := SendBy(v[0].dts, cfg.jitterMs);
        if vReady || v[0].disc {
          pkt := PopVideo();
          return pkt, FromV;
        }
      }
      if a != [] {
        var aReady := SendBy(a[0].dts, cfg.jitterMs);
        if aReady || a[0].disc {
          pkt := PopAudio();
          return pkt, FromA;
        }
      } else if v != [] {
        var vReady := SendBy(v[0].dts, cfg.jitterMs);
        if vReady || v[0].disc {
          pkt := PopVideo();
          return pkt, FromV;
        }
      }
      return None, Neither;
    }

    method GetAOrVDrain() returns (pkt: Option<TsPkt>)
      requires Valid()
      modifies outBuffV, outBuffA
      ensures Valid()
      ensures (View(), pkt) == Pop(old(View()), ChooseDrain(old(View()).a, old(View()).v,
                                                            Restamper.GetPcr(old(View()).rs)))
    {
      var a, v := outBuffA.inner, outBuffV.inner;
      if a != [] && v != [] && DtsAfter(a[0].dts, v[0].dts) {
        var vReady := SendBy(v[0].dts, MAX_DTS_PCR_DIFF_MS);
        if vReady {
          pkt := PopVideo();
          return;
        }
      }
      if a != [] {
        var aReady := SendBy(a[0].dts, MAX_DTS_PCR_DIFF_MS);
        if aReady {
          pkt := PopAudio();
          return;
        }
      } else if v != [] {
        var vReady := SendBy(v[0].dts, MAX_DTS_PCR_DIFF_MS);
        if vReady {
          pkt := PopVideo();
          return;
        }
      }
      pkt := None;
    }

    method BufferAdjust()
      requires Valid()
      modifies outBuffV, outBuffA
      ensures Valid() && View() == Mux.BufferAdjust(cfg, old(View()))
    {
      var duration := outBuffV.DurationMs();
      while duration > cfg.bufferDurationMs
        invariant Valid() && duration == Duration(outBuffV.inner)
        invariant Mux.BufferAdjust(cfg, View()) == Mux.BufferAdjust(cfg, old(View()))
        decreases |outBuffV.inner| + |outBuffA.inner|
      {
        AdjustTurn(cfg, View());
        var dropped := GetAOrV();
        duration := outBuffV.DurationMs();
      }
    }

    method IsBufferOverflow(rate: nat) returns (over: bool)
      requires Valid()
      ensures over == Overflow(View(), rate)
    {
      over := (|outBuffV.inner| + |outBuffA.inner|) * TS_PACKET_SIZE > maxBuffSize * rate;
    }

    // ----- receiving -----

    method Reassemble(p: Packet) returns (section: Option<Bytes>)
      requires Valid()
      modifies psiReasm, psiReasm.perPid.Values
      ensures Valid() && fresh(psiReasm.perPid.Values - old(psiReasm.perPid.Values))
      ensures View() == old(View()).(reasm := Sections.PushTable(old(View()).reasm, p).0)
      ensures section == Sections.PushTable(old(View()).reasm, p).1
    {
      section := psiReasm.Push(p);
    }

    method TakePat(section: Bytes, pid: Pid)
      requires Valid()
      modifies this`patInfo, this`pat, this`dirtyPat
      ensures Valid() && View() == AcceptPat(cfg, old(View()), section, pid)
    {
      if !pat.ready {
        patInfo := section;
        pat := Store(pat, cfg.tables.patSection(section), pid);
      } else {
        dirtyPat := cfg.tables.patChanged(patInfo, section);
      }
    }

    method ProcessPat(p: Packet)
      requires Valid()
      modifies this`patInfo, this`pat, this`dirtyPat, psiReasm, psiReasm.perPid.Values
      ensures Valid() && fresh(psiReasm.perPid.Values - old(psiReasm.perPid.Values))
      ensures View() == Mux.ProcessPat(cfg, old(View()), p)
    {
      var section := Reassemble(p);
      if section.Some? {
        TakePat(section.value, PktPid(p));
      }
    }

    method TakePmt(section: Bytes, pid: Pid)
      requires Valid()
      modifies this`pmtInfo, this`pmt, this`dirtyPmt
      ensures Valid() && View() == AcceptPmt(cfg, old(View()), section, pid)
    {
      if !pmt.ready {
        pmtInfo := section;
        pmt := Store(pmt, cfg.tables.pmtSection(section), pid);
      } else {
        dirtyPmt := cfg.tables.pmtChanged(pmtInfo, section);
      }
    }

    method ProcessPmt(p: Packet)
      requires Valid()
      modifies this`pmtInfo, this`pmt, this`dirtyPmt, psiReasm, psiReasm.perPid.Values
      ensures Valid() && fresh(psiReasm.perPid.Values - old(psiReasm.perPid.Values))
      ensures View() == Mux.ProcessPmt(cfg, old(View()), p)
    {
      var section := Reassemble(p);
      if section.Some? {
        TakePmt(section.value, PktPid(p));
      }
    }

    method SetSdt(section: Bytes)
      requires Valid()
      modifies this`sdt
      ensures Valid() && View() == StoreSdt(old(View()), section)
    {
      sdt := sdt.(packet := Sections.PackOne(section, SDT_PID, 0), ready := true);
    }

    method ProcessSdt(p: Packet)
      requires Valid()
      modifies this`sdt, psiReasm, psiReasm.perPid.Values
      ensures Valid() && fresh(psiReasm.perPid.Values - old(psiReasm.perPid.Values))
      ensures View() == Mux.ProcessSdt(cfg, old(View()), p)
    {
      var section := Reassemble(p);
      if section.Some? {
        var s := cfg.tables.sdtSection(pat.packet, section.value);
        if s.Some? {
          SetSdt(s.value);
        }
      }
    }

    /** Notes the stamps of a packet that has them; reports whether they jump. */
    method NoteStamps(pid: Pid, stamps: Option<(nat, nat)>) returns (jump: bool)
      requires Valid()
      modifies this`lastPtsDts
      ensures Valid() && View() == Stamped(old(View()), pid, stamps)
      ensures jump == (stamps.Some? && Jump(old(View()), pid, stamps.value.1))
    {
      jump := false;
      if stamps.Some? {
        if pid in lastPtsDts {
          var delta := DtsForwardDeltaMs(stamps.value.1, lastPtsDts[pid].1);
          if delta < 0 || delta > DISCONTINUITY_THRESHOLD_MS {
            jump := true;
          }
        }
        lastPtsDts := lastPtsDts[pid := stamps.value];
      }
    }

    method PushBack(pkt: TsPkt)
      requires Valid()
      modifies outBuffV, outBuffA
      ensures Valid() && View() == Append(cfg, old(View()), pkt)
    {
      if IsVideo(cfg, pkt.pid) {
        outBuffV.PushBack(pkt);
      } else {
        outBuffA.PushBack(pkt);
      }
    }

    method Enqueue(p: Packet, pid: Pid)
      requires Valid() && pid == PktPid(p)
      modifies this`lastPtsDts, outBuffV, outBuffA
      ensures Valid() && View() == Mux.Enqueue(cfg, old(View()), p)
    {
      var stamps := PtsDts(p, pid);
      var jump := NoteStamps(pid, stamps);
      var discontinuity := GetDiscontinuity(p) || jump;
      if pid in lastPtsDts {
        var (pts, dts) := lastPtsDts[pid];
        var pcr := if pid == cfg.pcrPid then ExtractPcr(p) else None;
        PushBack(TsPkt(p, pid, pts, dts, stamps.Some?, discontinuity, pcr));
      }
    }

    method HandleClear(p: Packet)
      requires Valid()
      modifies Repr()
      ensures Valid() && fresh(psiReasm.perPid.Values - old(psiReasm.perPid.Values))
      ensures View() == Mux.HandleClear(cfg, old(View()), p)
    {
      var pid := PktPid(p);
      if pid == NULL_PID {
      } else if pid == PAT_PID {
        if !pat.ready || !isReady {
          ProcessPat(p);
        }
      } else if pid == cfg.pmtPid && (!pmt.ready || !isReady) {
        ProcessPmt(p);
      } else if dirtyPat || dirtyPmt || dirtyCa {
      } else if pid == SDT_PID {
        if pat.ready && !sdt.ready {
          ProcessSdt(p);
        }
      } else if IsAudio(cfg, pid) || IsVideo(cfg, pid) {
        Enqueue(p, pid);
      }
    }

    method Handle(p: Packet)
      requires Valid()
      modifies Repr()
      ensures Valid() && fresh(psiReasm.perPid.Values - old(psiReasm.perPid.Values))
      ensures View() == Mux.Handle(cfg, old(View()), p)
    {
      if ScramblingControl(p) != 0 {
        dirtyCa := true;
      } else {
        dirtyCa := false;
        HandleClear(p);
      }
    }

    method DefaultSdt()
      requires Valid()
      modifies this`sdt
      ensures Valid() && View() == WithSdt(cfg, old(View()))
    {
      if !sdt.ready {
        SetSdt(cfg.tables.sdtDefault(pat.packet));
      }
    }

    method ProbeBitrate()
      requires Valid()
      modifies pcrRestamper
      ensures Valid() && View() == Probe(cfg, old(View()))
    {
      if pcrRestamper.targetBitrateBps == 0 {
        var duration := outBuffV.DurationMs();
        if duration >= BUFFER_DURATION_PROBE_MS {
          var size := (|outBuffV.inner| + |outBuffA.inner|) * TS_PACKET_SIZE;
          pcrRestamper.targetBitrateBps := cfg.scaledBitrate(Rate(size, duration));
        }
      }
    }

    method SetMaxBuffSize(size: nat)
      requires Valid()
      modifies this`maxBuffSize
      ensures Valid() && View() == old(View()).(maxBuff := size)
    {
      maxBuffSize := size;
    }

    method SetReady()
      requires Valid()
      modifies this`isReady
      ensures Valid() && View() == old(View()).(isReady := true)
    {
      isReady := true;
    }

    method StartSending()
      requires Valid()
      modifies this`isReady, this`maxBuffSize, outBuffV, outBuffA, pcrRestamper
      ensures Valid() && View() == Start(cfg, old(View()))
    {
      if pcrRestamper.targetBitrateBps != 0 {
        var duration := outBuffV.DurationMs();
        if duration >= cfg.bufferDurationMs {
          ghost var m := View();
          AdjustKeeps(cfg, m);
          BufferAdjust();
          SetMaxBuffSize(cfg.maxBuffSize(pcrRestamper.targetBitrateBps));
          if outBuffV.inner != [] {
            Resync(outBuffV.inner[0].dts);
            SetReady();
          }
        }
      }
    }

    /** The end of `process`. */
    method CheckReady()
      requires Valid()
      modifies this`isReady, this`maxBuffSize, this`lastPtsDts, this`sdt, outBuffV, outBuffA, pcrRestamper
      ensures Valid() && View() == ReadyCheck(cfg, old(View()))
    {
      if dirtyPat || dirtyPmt || dirtyCa {
        return;
      }
      if isReady {
        return;
      }
      if !pat.ready || !pmt.ready {
        return;
      }
      DefaultSdt();
      var v := outBuffV.inner;
      if v != [] {
        if DtsAfter(v[0].dts, v[|v| - 1].dts) {
          BuffersClear();
        } else {
          ProbeBitrate();
          StartSending();
        }
      }
    }

    method SetFramer(buf: Bytes, synced: bool)
      requires Valid()
      modifies this`inBuff, this`isSync
      ensures Valid() && View() == old(View()).(framer := Framing.Framer(buf, synced))
    {
      inBuff, isSync := buf, synced;
    }

    /** One turn of the loop of `process`. */
    method TakeNext(buf: Bytes, pointer: nat, ghost m: State)
      requires Valid() && pointer + TS_PACKET_SIZE <= |buf| && buf[pointer] == TS_SYNC_BYTE
      requires DemuxAt(cfg, m, buf, View(), pointer)
      modifies Repr()
      ensures Valid() && fresh(psiReasm.perPid.Values - old(psiReasm.perPid.Values))
      ensures DemuxAt(cfg, m, buf, View(), pointer + TS_PACKET_SIZE)
    {
      ghost var before := View();
      Handle(buf[pointer..pointer + TS_PACKET_SIZE]);
      DemuxTurn(cfg, m, buf, before, pointer);
    }

    /** The loop of `process`; `inStep` says whether it ran to the end of the buffer. */
    method TakePackets() returns (inStep: bool)
      requires Valid()
      modifies Repr()
      ensures Valid() && fresh(psiReasm.perPid.Values - old(psiReasm.perPid.Values))
      ensures inStep == Framing.Demux(old(View()).framer.buf).1.synced
      ensures View() == Demuxed(cfg, old(View()))
    {
      ghost var m := View();
      var buf := inBuff;
      var pointer := 0;
      while pointer + TS_PACKET_SIZE <= |buf|
        invariant pointer <= |buf| && Valid() && fresh(psiReasm.perPid.Values - old(psiReasm.perPid.Values))
        invariant DemuxAt(cfg, m, buf, View(), pointer)
      {
        if buf[pointer] != TS_SYNC_BYTE {
          DemuxStops(cfg, m, buf, View(), pointer);
          SetFramer(buf[pointer..], false);
          return false;
        }
        TakeNext(buf, pointer, m);
        pointer := pointer + TS_PACKET_SIZE;
      }
      DemuxStops(cfg, m, buf, View(), pointer);
      SetFramer(buf[pointer..], true);
      inStep := true;
    }

    method Locate()
      requires Valid()
      modifies this`inBuff, this`isSync
      ensures Valid() && View() == Located(old(View()))
    {
      if !isSync {
        var found, rest := Framing.SyncBuffer(inBuff);
        SetFramer(rest, found);
      }
    }

    method Relieve()
      requires Valid()
      modifies this`isReady, this`maxBuffSize, this`lastPtsDts, outBuffV, outBuffA
      ensures Valid() && View() == Relieved(old(View()))
    {
      var over := IsBufferOverflow(2);
      if over {
        BuffersClear();
      }
    }

    /** The loop of `process`, and what follows it. */
    method HandleBuffered()
      requires Valid()
      modifies Repr()
      ensures Valid() && fresh(psiReasm.perPid.Values - old(psiReasm.perPid.Values))
      ensures View() == Demultiplex(cfg, old(View()))
    {
      var inStep := TakePackets();
      if inStep {
        CheckReady();
      } else {
        BuffersClear();
      }
    }

    method ProcessInput()
      requires Valid()
      modifies Repr()
      ensures Valid() && fresh(psiReasm.perPid.Values - old(psiReasm.perPid.Values))
      ensures View() == Process(cfg, old(View()))
    {
      Locate();
      if !isSync {
        return;
      }
      Relieve();
      if |inBuff| >= TS_PACKET_SIZE {
        HandleBuffered();
      }
    }

    method Write(chunk: Bytes)
      requires Valid()
      modifies Repr()
      ensures Valid() && fresh(psiReasm.perPid.Values - old(psiReasm.perPid.Values))
      ensures View() == Mux.Write(cfg, old(View()), chunk)
    {
      if |inBuff| + |chunk| >= Framing.MAX_BUFFER_SIZE {
        SetFramer([], false);
      }
      assert [] + chunk == chunk;
      SetFramer(inBuff + chunk, isSync);
      ProcessInput();
    }

    // ----- sending -----

    /** One of the three blocks of `flush_psi_packets`. */
    static method TrySend(x: Schedule.Cached, pcr: Option<nat>, periodMs: nat)
      returns (y: Schedule.Cached, sent: bool)
      ensures sent == (pcr.Some? && Schedule.Due(x, pcr.value, periodMs))
      ensures y == if sent then Schedule.Send(x, pcr.value) else x
    {
      y, sent := x, false;
      if x.ready {
        if pcr.Some? && x.inserted.Some? {
          var limit := PcrAdd(x.inserted.value, periodMs * 27_000);
          sent := PcrAfter(pcr.value, limit);
        } else if pcr.Some? {
          sent := true;
        }
        if sent {
          y := x.(inserted := pcr, packet := NextCc(x.packet));
        }
      }
    }

    method FlushPsiPackets() returns (out: seq<Packet>)
      requires Valid()
      modifies this`pat, this`pmt, this`sdt
      ensures Valid() && |out| <= 1
      ensures (Schedule.Cache(pat, pmt, sdt), out)
              == Schedule.Flush(Schedule.Cache(old(pat), old(pmt), old(sdt)), Restamper.GetPcr(pcrRestamper.State()))
    {
      out := [];
      var sent: bool;
      var pcr := pcrRestamper.CurrentPcr();
      pat, sent := TrySend(pat, pcr, Schedule.PERIOD_PAT_MS);
      if sent {
        out := [pat.packet];
      }
      if 1 > |out| {
        pmt, sent := TrySend(pmt, pcr, Schedule.PERIOD_PMT_MS);
        if sent {
          out := [pmt.packet];
        }
      }
      if 1 > |out| {
        sdt, sent := TrySend(sdt, pcr, Schedule.PERIOD_SDT_MS);
        if sent {
          out := [sdt.packet];
        }
      }
    }

    method Resync(dts: nat)
      requires Valid()
      modifies pcrRestamper
      ensures Valid() && View() == Resynced(old(View()), dts)
    {
      pcrRestamper.ResyncTo((dts - DTS_PCR_DIFF_MS * 90) % DTS_CYCLE);
    }

    method DtsDriftNow(dts: nat) returns (leadTimeMs: int)
      requires Valid()
      ensures leadTimeMs == DtsDrift(View(), dts)
    {
      leadTimeMs := 0;
      var currentPcr := pcrRestamper.CurrentPcr();
      if currentPcr.Some? {
        var pcr90k := currentPcr.value / 300;
        leadTimeMs := TruncDiv(DtsSignedDelta(dts, pcr90k), 90);
      }
    }

    method ProcessPacket(pkt: TsPkt) returns (data: Packet)
      requires Valid()
      modifies pcrRestamper
      ensures Valid()
      ensures View() == Mux.ProcessPacket(cfg, old(View()), pkt).0
      ensures data == Mux.ProcessPacket(cfg, old(View()), pkt).1.data
    {
      var bytes := new Byte[TS_PACKET_SIZE](i requires 0 <= i < TS_PACKET_SIZE => pkt.data[i]);
      assert bytes[..] == pkt.data;
      var drift := DtsDriftNow(pkt.dts);
      var discontinuity := pkt.disc;
      if !(MIN_DTS_PCR_DIFF_MS <= drift <= MAX_DTS_PCR_DIFF_MS) {
        discontinuity := true;
      }
      if discontinuity {
        var marked := PktSetDiscontinuity(bytes);
        Resync(pkt.dts);
      }
      if pkt.pid == cfg.pcrPid {
        var newPcr := pcrRestamper.ProcessPacket(bytes);
      }
      data := bytes[..];
    }

    /** What an adjusting multiplexer sends in place of a null packet. */
    method SendInstead() returns (pkt: Option<TsPkt>, ghost s: Source)
      requires Valid()
      modifies outBuffV, outBuffA
      ensures s == ChooseInstead(cfg, old(View()))
      ensures Valid() && (View(), pkt) == Pop(old(View()), s)
    {
      var dirty := outBuffV.IsDirtyNow();
      var over := IsBufferOverflow(1);
      var duration := outBuffV.DurationMs();
      if dirtyPat || dirtyPmt || dirtyCa || dirty || over {
        s := Choose(View().a, View().v);
        pkt := GetAOrV();
      } else if duration > cfg.maxLimitMs {
        s := ChooseDrain(View().a, View().v, Restamper.GetPcr(View().rs));
        pkt := GetAOrVDrain();
      } else {
        pkt, s := None, Neither;
      }
    }

    method SendPayload(pkt: TsPkt, kind: Kind, ghost m: State, ghost s: Source) returns (data: Packet)
      requires Valid() && kind in {Payload, AdjustPayload}
      requires s != Neither && (s == FromA ==> m.a != []) && (s == FromV ==> m.v != [])
      requires (View(), Some(pkt)) == Pop(m, s)
      modifies this`counts, pcrRestamper
      ensures Valid()
      ensures View() == EmitFrom(cfg, m, s, kind).0
      ensures data == EmitFrom(cfg, m, s, kind).1.slot.data
    {
      if kind == AdjustPayload {
        counts := counts.(adjustPayload := counts.adjustPayload + 1);
      } else {
        counts := counts.(payload := counts.payload + 1);
      }
      assert (View(), pkt) == Take(m, s, kind);
      data := ProcessPacket(pkt);
    }

    method SendNullPacket(kind: Kind) returns (data: Packet)
      requires Valid() && kind in {Null, AdjustNull}
      modifies this`counts
      ensures Valid()
      ensures View() == EmitNull(old(View()), kind).0 && data == EmitNull(old(View()), kind).1.slot.data
    {
      if kind == AdjustNull {
        counts := counts.(adjustNulls := counts.adjustNulls + 1);
      } else {
        counts := counts.(nulls := counts.nulls + 1);
      }
      data := NULL_PACKET;
    }

    method CountPackets(n: nat)
      requires Valid()
      modifies pcrRestamper
      ensures Valid()
      ensures View() == old(View()).(rs := old(View()).rs.(sent := old(View()).rs.sent + n))
    {
      pcrRestamper.totalPacketsSent := pcrRestamper.totalPacketsSent + n;
    }

    ghost function Performed(m: State, d: Decision): (State, Packet)
      reads this
      requires d.SendFrom? ==> d.source != Neither && (d.source == FromA ==> m.a != [])
                               && (d.source == FromV ==> m.v != [])
    {
      var (n, e) := Perform(cfg, m, d);
      (n, e.slot.data)
    }

    /** With no packet ready: another one if the buffer is to shrink, else a null packet. */
    method SendUnready() returns (data: Packet)
      requires Valid()
      modifies this`counts, outBuffV, outBuffA, pcrRestamper
      ensures Valid()
      ensures View() == Performed(old(View()), DecideUnready(cfg, old(View()))).0
      ensures data == Performed(old(View()), DecideUnready(cfg, old(View()))).1
    {
      ghost var t := View();
      if cfg.adjustBuf != 0 {
        var pkt, i := SendInstead();
        if pkt.Some? {
          data := SendPayload(pkt.value, AdjustPayload, t, i);
          return;
        }
        assert View() == t;
      }
      data := SendNullPacket(Null);
    }

    /** Is the buffer to be filled up? */
    method RunsLow() returns (low: bool)
      requires Valid()
      ensures low == MustFill(cfg, View())
    {
      low := false;
      if cfg.adjustBuf != 0 {
        var dirty := outBuffV.IsDirtyNow();
        var duration := outBuffV.DurationMs();
        low := !dirty && duration < cfg.minLimitMs;
      }
    }

    method SendReady() returns (data: Packet)
      requires Valid()
      modifies this`counts, outBuffV, outBuffA, pcrRestamper
      ensures Valid()
      ensures View() == Performed(old(View()), DecideSending(cfg, old(View()))).0
      ensures data == Performed(old(View()), DecideSending(cfg, old(View()))).1
    {
      ghost var t := View();
      var packet, s := GetAOrVReady();
      if packet.Some? {
        data := SendPayload(packet.value, Payload, t, s);
      } else {
        assert View() == t;
        data := SendUnready();
      }
    }

    /** One turn of the loop of `flush_packet_for_cbr`, up to what it sends. */
    method CbrTurn() returns (data: Packet)
      requires Valid()
      modifies this`counts, outBuffV, outBuffA, pcrRestamper
      ensures Valid()
      ensures View() == Performed(Ticked(old(View())), Decide(cfg, Ticked(old(View())))).0
      ensures data == Performed(Ticked(old(View())), Decide(cfg, Ticked(old(View())))).1
    {
      CountPackets(1);
      assert View() == Ticked(old(View()));
      var low := RunsLow();
      if low {
        data := SendNullPacket(AdjustNull);
      } else {
        data := SendReady();
      }
    }

    /** The loop of `flush_packet_for_cbr`. */
    method CbrTurns(n: nat) returns (out: Bytes)
      requires Valid()
      modifies this`counts, outBuffV, outBuffA, pcrRestamper
      ensures Valid()
      ensures View() == CbrLoop(cfg, old(View()), n).0
      ensures out == Concat(Data(CbrLoop(cfg, old(View()), n).1))
    {
      out := [];
      ghost var m := View();
      for i := 0 to n
        invariant Valid() && LoopAt(cfg, m, n, View(), n - i, out)
      {
        ghost var before, sent := View(), out;
        var data := CbrTurn();
        out := out + data;
        LoopTurn(cfg, m, n, before, n - i, sent);
      }
      assert out + [] == out;
    }

    method CountedTables() returns (out: seq<Packet>)
      requires Valid()
      modifies this`pat, this`pmt, this`sdt, this`counts
      ensures Valid() && |out| <= 1
      ensures View() == CountTables(old(View())).0
      ensures out == CountTables(old(View())).1
    {
      out := FlushPsiPackets();
      if |out| > 0 {
        counts := counts.(psi := counts.psi + |out|);
      }
    }

    /** The tables that are due, counted by the clock as well. */
    method TickedTables() returns (out: seq<Packet>)
      requires Valid()
      modifies this`pat, this`pmt, this`sdt, this`counts, pcrRestamper
      ensures Valid()
      ensures View() == FlushTables(old(View())).0
      ensures out == Data(FlushTables(old(View())).1)
    {
      out := CountedTables();
      if |out| > 0 {
        CountPackets(|out|);
      }
    }

    method FlushPacketForCbr() returns (out: Option<Bytes>)
      requires Valid()
      modifies this`pat, this`pmt, this`sdt, this`counts, outBuffV, outBuffA, pcrRestamper
      ensures Valid()
      ensures View() == FlushCbr(cfg, old(View())).0
      ensures out == match FlushCbr(cfg, old(View())).1
                     case None => None
                     case Some(es) => Some(Concat(Data(es)))
    {
      if dirtyPat || dirtyPmt || dirtyCa || !isReady {
        return None;
      }
      ghost var m := View();
      var packetCount := PktSize(cfg) / TS_PACKET_SIZE;
      var tables := TickedTables();
      if |tables| > 0 {
        packetCount := SaturatingSub(packetCount, |tables|);
      }
      ghost var m1 := View();
      var payload := CbrTurns(packetCount);
      DataAppend(FlushTables(m).1, CbrLoop(cfg, m1, packetCount).1);
      ConcatAppend(tables, Data(CbrLoop(cfg, m1, packetCount).1));
      out := Some(Concat(tables) + payload);
    }

    /** The loop of `flush_packet_for_vbr`. */
    method VbrTurns(n: nat) returns (out: Bytes, first: Option<nat>)
      requires Valid()
      modifies this`counts, outBuffV, outBuffA
      ensures Valid()
      ensures View() == VbrLoop(old(View()), n).0
      ensures out == Concat(PacketsOf(VbrLoop(old(View()), n).1))
      ensures first == FirstPcr(VbrLoop(old(View()), n).1)
    {
      out, first := [], None;
      ghost var m, xs := View(), [];
      var i := 0;
      while i < n
        invariant 0 <= i <= n && Valid() && FreelyAt(m, n, View(), n - i, xs)
        invariant out == Concat(PacketsOf(xs)) && first == FirstPcr(xs)
      {
        ghost var before := View();
        var pkt := GetAOrV();
        if pkt.None? {
          FreelyEnds(m, n, before, n - i, xs);
          return;
        }
        CountPayload();
        out := out + pkt.value.data;
        if pkt.value.pcr.Some? && first.None? {
          first := pkt.value.pcr;
        }
        TakenOne(xs, pkt.value);
        FreelyTurn(m, n, before, n - i, xs);
        xs := xs + [pkt.value];
        i := i + 1;
      }
      FreelyEnds(m, n, View(), 0, xs);
    }

    method CountPayload()
      requires Valid()
      modifies this`counts
      ensures Valid() && View() == Counted(old(View()))
    {
      counts := counts.(payload := counts.payload + 1);
    }

    method Rebase(first: Option<nat>)
      requires Valid()
      modifies pcrRestamper
      ensures Valid() && View() == Rebased(old(View()), first)
    {
      if first.Some? {
        pcrRestamper.firstPcrValue := first;
      }
    }

    method FlushPacketForVbr() returns (out: Option<Bytes>)
      requires Valid()
      modifies this`pat, this`pmt, this`sdt, this`counts, outBuffV, outBuffA, pcrRestamper
      ensures Valid()
      ensures View() == FlushVbr(cfg, old(View())).0
      ensures out == match FlushVbr(cfg, old(View())).1
                     case None => None
                     case Some(ps) => Some(Concat(ps))
    {
      if dirtyPat || dirtyPmt || dirtyCa || !isReady {
        return None;
      }
      var packetCount := PktSize(cfg) / TS_PACKET_SIZE;
      var tables := CountedTables();
      if |tables| > 0 {
        packetCount := SaturatingSub(packetCount, |tables|);
      }
      ghost var m1 := View();
      var payload, first := VbrTurns(packetCount);
      Rebase(first);
      ConcatAppend(tables, PacketsOf(VbrLoop(m1, packetCount).1));
      var bytes := Concat(tables) + payload;
      out := if bytes != [] then Some(bytes) else None;
    }

    // ----- proxying -----

    ghost function ProxyView(): Proxy.Proxied
      reads this, outBuffV, outBuffA, pcrRestamper, psiReasm
    {
      Proxy.Proxied(View(), frameBuff)
    }

    method ForwardPat(p: Packet) returns (got: Option<Packet>)
      requires Valid()
      modifies this`patInfo, this`pat, this`dirtyPat, psiReasm, psiReasm.perPid.Values
      ensures Valid() && fresh(psiReasm.perPid.Values - old(psiReasm.perPid.Values))
      ensures View() == Proxy.SendPat(Mux.ProcessPat(cfg, old(View()), p)).0
      ensures got == Proxy.SendPat(Mux.ProcessPat(cfg, old(View()), p)).1
    {
      ProcessPat(p);
      if dirtyPat {
        return None;
      }
      pat := pat.(packet := NextCc(pat.packet));
      got := Some(pat.packet);
    }

    method ForwardPmt(p: Packet) returns (got: Option<Packet>)
      requires Valid()
      modifies this`pmtInfo, this`pmt, this`dirtyPmt, psiReasm, psiReasm.perPid.Values
      ensures Valid() && fresh(psiReasm.perPid.Values - old(psiReasm.perPid.Values))
      ensures View() == Proxy.SendPmt(Mux.ProcessPmt(cfg, old(View()), p)).0
      ensures got == Proxy.SendPmt(Mux.ProcessPmt(cfg, old(View()), p)).1
    {
      ProcessPmt(p);
      if dirtyPmt {
        return None;
      }
      pmt := pmt.(packet := NextCc(pmt.packet));
      got := Some(pmt.packet);
    }

    /** The `match` of `proxy_packet`; `skip` is its `continue`. */
    method Forward(p: Packet) returns (got: Option<Packet>, skip: bool)
      requires Valid()
      modifies this`patInfo, this`pat, this`dirtyPat, this`pmtInfo, this`pmt, this`dirtyPmt
      modifies psiReasm, psiReasm.perPid.Values
      ensures Valid() && fresh(psiReasm.perPid.Values - old(psiReasm.perPid.Values))
      ensures View() == Proxy.Forward(cfg, old(View()), p).0
      ensures got == Proxy.Forward(cfg, old(View()), p).1
      ensures skip == Proxy.Skips(cfg, old(View()), p)
    {
      var pid := PktPid(p);
      skip, got := false, None;
      if pid == PAT_PID {
        got := ForwardPat(p);
      } else if pid == cfg.pmtPid {
        got := ForwardPmt(p);
      } else if dirtyPat || dirtyPmt || dirtyCa {
        skip := true;
      } else if pid == cfg.pcrPid {
        got := Some(p);
      } else if IsAudio(cfg, pid) || IsVideo(cfg, pid) {
        got := Some(p);
      }
    }

    /** At most one datagram is split off the frame. */
    method FillFrame(got: Option<Packet>) returns (datagrams: seq<Bytes>)
      modifies this`frameBuff
      ensures (frameBuff, datagrams) == Proxy.Split(old(frameBuff) + Proxy.Bytes1(got), PktSize(cfg))
    {
      datagrams := [];
      if got.Some? {
        frameBuff := frameBuff + got.value;
      } else {
        assert frameBuff + [] == frameBuff;
      }
      if |frameBuff| >= PktSize(cfg) {
        datagrams := [frameBuff[..PktSize(cfg)]];
        frameBuff := frameBuff[PktSize(cfg)..];
      }
    }

    method ProxyOne(p: Packet) returns (datagrams: seq<Bytes>)
      requires Valid()
      modifies this`frameBuff, this`patInfo, this`pat, this`dirtyPat, this`pmtInfo, this`pmt, this`dirtyPmt
      modifies psiReasm, psiReasm.perPid.Values
      ensures Valid() && fresh(psiReasm.perPid.Values - old(psiReasm.perPid.Values))
      ensures ProxyView() == Proxy.ProxyOne(cfg, old(ProxyView()), p).0
      ensures datagrams == Proxy.ProxyOne(cfg, old(ProxyView()), p).1
    {
      var got, skip := Forward(p);
      if skip {
        return [];
      }
      datagrams := FillFrame(got);
    }

    /** The body of the loop of `proxy_packet`. */
    method ProxyNext(buf: Bytes, pointer: nat, ghost f: Proxy.Proxied, ghost sent: seq<Bytes>)
      returns (one: seq<Bytes>)
      requires Valid() && pointer + TS_PACKET_SIZE <= |buf| && buf[pointer] == TS_SYNC_BYTE
      requires ProxyAt(cfg, f, buf, ProxyView(), pointer, sent)
      modifies this`frameBuff, this`patInfo, this`pat, this`dirtyPat, this`pmtInfo, this`pmt, this`dirtyPmt
      modifies psiReasm, psiReasm.perPid.Values
      ensures Valid() && fresh(psiReasm.perPid.Values - old(psiReasm.perPid.Values))
      ensures ProxyAt(cfg, f, buf, ProxyView(), pointer + TS_PACKET_SIZE, sent + one)
    {
      ghost var before := ProxyView();
      one := ProxyOne(buf[pointer..pointer + TS_PACKET_SIZE]);
      ProxyTurn(cfg, f, buf, before, pointer, sent);
    }

    /** The loop of `proxy_packet`: it ends behind the last packet that starts with the sync byte. */
    method ProxyLoop(buf: Bytes) returns (datagrams: seq<Bytes>, pointer: nat)
      requires Valid()
      modifies this`frameBuff, this`patInfo, this`pat, this`dirtyPat, this`pmtInfo, this`pmt, this`dirtyPmt
      modifies psiReasm, psiReasm.perPid.Values
      ensures Valid() && fresh(psiReasm.perPid.Values - old(psiReasm.perPid.Values))
      ensures pointer <= |buf| && (pointer + TS_PACKET_SIZE > |buf| || buf[pointer] != TS_SYNC_BYTE)
      ensures ProxyAt(cfg, old(ProxyView()), buf, ProxyView(), pointer, datagrams)
    {
      datagrams, pointer := [], 0;
      ghost var f := ProxyView();
      while pointer + TS_PACKET_SIZE <= |buf| && buf[pointer] == TS_SYNC_BYTE
        invariant pointer <= |buf| && Valid() && fresh(psiReasm.perPid.Values - old(psiReasm.perPid.Values))
        invariant ProxyAt(cfg, f, buf, ProxyView(), pointer, datagrams)
      {
        var one := ProxyNext(buf, pointer, f, datagrams);
        datagrams := datagrams + one;
        pointer := pointer + TS_PACKET_SIZE;
      }
    }

    method ProxyPackets() returns (datagrams: seq<Bytes>)
      requires Valid()
      modifies this`inBuff, this`isSync, this`frameBuff
      modifies this`patInfo, this`pat, this`dirtyPat, this`pmtInfo, this`pmt, this`dirtyPmt
      modifies psiReasm, psiReasm.perPid.Values
      ensures Valid() && fresh(psiReasm.perPid.Values - old(psiReasm.perPid.Values))
      ensures ProxyView() == Proxy.ProxyBuffer(cfg, old(ProxyView())).0
      ensures datagrams == Proxy.ProxyBuffer(cfg, old(ProxyView())).1
    {
      var buf, pointer := inBuff, 0;
      datagrams, pointer := ProxyLoop(buf);
      ProxyEnds(cfg, old(ProxyView()), buf, ProxyView(), pointer, datagrams);
      SetFramer(buf[pointer..], pointer + TS_PACKET_SIZE > |buf|);
    }

    /** The datagrams handed to the output, in order; what the output makes of them is not modelled. */
    method ProxyPacket(chunk: Bytes) returns (datagrams: seq<Bytes>)
      requires Valid()
      modifies this`inBuff, this`isSync, this`frameBuff
      modifies this`patInfo, this`pat, this`dirtyPat, this`pmtInfo, this`pmt, this`dirtyPmt
      modifies psiReasm, psiReasm.perPid.Values
      ensures Valid() && fresh(psiReasm.perPid.Values - old(psiReasm.perPid.Values))
      ensures ProxyView() == Proxy.ProxyChunk(cfg, old(ProxyView()), chunk).0
      ensures datagrams == Proxy.ProxyChunk(cfg, old(ProxyView()), chunk).1
    {
      if !cfg.hasProgram {
        return [chunk];
      }
      SetFramer(inBuff + chunk, isSync);
      Locate();
      if !isSync {
        return [];
      }
      datagrams := ProxyPackets();
    }
  }

  /** `n - left` turns of the loop from `m` have led to `now` and sent `out`. */
  ghost predicate LoopAt(cfg: Config, m: State, n: nat, now: State, left: int, out: Bytes) {
    left >= 0
    && CbrLoop(cfg, m, n).0 == CbrLoop(cfg, now, left).0
    && Concat(Data(CbrLoop(cfg, m, n).1)) == out + Concat(Data(CbrLoop(cfg, now, left).1))
  }

  lemma LoopTurn(cfg: Config, m: State, n: nat, now: State, left: nat, out: Bytes)
    requires left > 0 && LoopAt(cfg, m, n, now, left, out)
    ensures LoopAt(cfg, m, n, CbrSlot(cfg, now).0, left - 1, out + CbrSlot(cfg, now).1.slot.data)
  {
    CbrLoopTurn(cfg, now, left);
    var (next, e) := CbrSlot(cfg, now);
    DataCons(e, CbrLoop(cfg, next, left - 1).1, out);
  }

  lemma DataCons(e: Emitted, es: seq<Emitted>, out: Bytes)
    ensures out + Concat(Data([e] + es)) == out + e.slot.data + Concat(Data(es))
  {
    assert Data([e] + es) == [e.slot.data] + Data(es);
    assert ([e.slot.data] + Data(es))[1..] == Data(es);
    assert out + (e.slot.data + Concat(Data(es))) == out + e.slot.data + Concat(Data(es));
  }

  lemma DataAppend(xs: seq<Emitted>, ys: seq<Emitted>)
    ensures Data(xs + ys) == Data(xs) + Data(ys)
  {
  }

  lemma TakenOne(xs: seq<TsPkt>, x: TsPkt)
    ensures Concat(PacketsOf(xs + [x])) == Concat(PacketsOf(xs)) + x.data
    ensures FirstPcr(xs + [x]) == if FirstPcr(xs).Some? then FirstPcr(xs) else x.pcr
  {
    assert PacketsOf(xs + [x]) == PacketsOf(xs) + [x.data];
    ConcatAppend(PacketsOf(xs), [x.data]);
    assert Concat([x.data]) == x.data + Concat([]) == x.data;
    FirstPcrAppend(xs, x);
  }

  /** `n - left` turns of the loop from `m` have led to `now` and taken `xs`. */
  ghost predicate FreelyAt(m: State, n: nat, now: State, left: int, xs: seq<TsPkt>) {
    left >= 0 && VbrLoop(m, n).0 == VbrLoop(now, left).0 && VbrLoop(m, n).1 == xs + VbrLoop(now, left).1
  }

  lemma FreelyTurn(m: State, n: nat, now: State, left: nat, xs: seq<TsPkt>)
    requires left > 0 && FreelyAt(m, n, now, left, xs) && GetAOrV(now).1.Some?
    ensures FreelyAt(m, n, Counted(GetAOrV(now).0), left - 1, xs + [GetAOrV(now).1.value])
  {
    var x := GetAOrV(now).1.value;
    var rest := VbrLoop(Counted(GetAOrV(now).0), left - 1).1;
    assert xs + ([x] + rest) == xs + [x] + rest;
  }

  lemma FreelyEnds(m: State, n: nat, now: State, left: nat, xs: seq<TsPkt>)
    requires FreelyAt(m, n, now, left, xs) && (left == 0 || GetAOrV(now).1.None?)
    ensures VbrLoop(m, n) == (if left == 0 then now else GetAOrV(now).0, xs)
  {
    assert xs + [] == xs;
  }

  lemma {:induction false} FirstPcrAppend(xs: seq<TsPkt>, x: TsPkt)
    ensures FirstPcr(xs + [x]) == if FirstPcr(xs).Some? then FirstPcr(xs) else x.pcr
  {
    if xs == [] {
      assert xs + [x] == [x];
    } else {
      assert (xs + [x])[1..] == xs[1..] + [x];
      FirstPcrAppend(xs[1..], x);
    }
  }

  /** The packets before `pointer` have been handled, which led from `m` to `now`. */
  ghost predicate DemuxAt(cfg: Config, m: State, buf: Bytes, now: State, pointer: nat)
    requires pointer <= |buf|
  {
    HandleAll(cfg, m, Framing.Demux(buf).0) == HandleAll(cfg, now, Framing.Demux(buf[pointer..]).0)
    && Framing.Demux(buf).1 == Framing.Demux(buf[pointer..]).1
  }

  lemma DemuxStops(cfg: Config, m: State, buf: Bytes, now: State, pointer: nat)
    requires pointer <= |buf| && m.framer.buf == buf && DemuxAt(cfg, m, buf, now, pointer)
    requires pointer + TS_PACKET_SIZE > |buf| || buf[pointer] != TS_SYNC_BYTE
    ensures Demuxed(cfg, m) == now.(framer := Framing.Framer(buf[pointer..], pointer + TS_PACKET_SIZE > |buf|))
    ensures Framing.Demux(buf).1.synced == (pointer + TS_PACKET_SIZE > |buf|)
  {
  }

  lemma DemuxTurn(cfg: Config, m: State, buf: Bytes, now: State, pointer: nat)
    requires pointer + TS_PACKET_SIZE <= |buf| && buf[pointer] == TS_SYNC_BYTE
    requires DemuxAt(cfg, m, buf, now, pointer)
    ensures DemuxAt(cfg, m, buf, Mux.Handle(cfg, now, buf[pointer..pointer + TS_PACKET_SIZE]), pointer + TS_PACKET_SIZE)
  {
    var b := buf[pointer..];
    assert b[..TS_PACKET_SIZE] == buf[pointer..pointer + TS_PACKET_SIZE];
    assert b[TS_PACKET_SIZE..] == buf[pointer + TS_PACKET_SIZE..];
    var packets := Framing.Demux(b).0;
    assert packets[0] == b[..TS_PACKET_SIZE] && packets[1..] == Framing.Demux(b[TS_PACKET_SIZE..]).0;
  }

  /** The packets before `pointer` have been proxied, which led from `f` to `now` and sent `sent`. */
  ghost predicate ProxyAt(cfg: Config, f: Proxy.Proxied, buf: Bytes, now: Proxy.Proxied, pointer: nat,
                          sent: seq<Bytes>)
    requires pointer <= |buf|
  {
    && Framing.Demux(buf).1 == Framing.Demux(buf[pointer..]).1
    && Proxy.ProxyAll(cfg, f, Framing.Demux(buf).0).0
       == Proxy.ProxyAll(cfg, now, Framing.Demux(buf[pointer..]).0).0
    && Proxy.ProxyAll(cfg, f, Framing.Demux(buf).0).1
       == sent + Proxy.ProxyAll(cfg, now, Framing.Demux(buf[pointer..]).0).1
  }

  lemma ProxyTurn(cfg: Config, f: Proxy.Proxied, buf: Bytes, now: Proxy.Proxied, pointer: nat, sent: seq<Bytes>)
    requires pointer + TS_PACKET_SIZE <= |buf| && buf[pointer] == TS_SYNC_BYTE
    requires ProxyAt(cfg, f, buf, now, pointer, sent)
    ensures var (next, one) := Proxy.ProxyOne(cfg, now, buf[pointer..pointer + TS_PACKET_SIZE]);
            ProxyAt(cfg, f, buf, next, pointer + TS_PACKET_SIZE, sent + one)
  {
    var b := buf[pointer..];
    assert b[..TS_PACKET_SIZE] == buf[pointer..pointer + TS_PACKET_SIZE];
    assert b[TS_PACKET_SIZE..] == buf[pointer + TS_PACKET_SIZE..];
    var packets := Framing.Demux(b).0;
    assert packets[0] == b[..TS_PACKET_SIZE] && packets[1..] == Framing.Demux(b[TS_PACKET_SIZE..]).0;
    Proxy.AllTurn(cfg, now, packets, sent);
  }

  lemma ProxyEnds(cfg: Config, f: Proxy.Proxied, buf: Bytes, now: Proxy.Proxied, pointer: nat, sent: seq<Bytes>)
    requires pointer <= |buf| && ProxyAt(cfg, f, buf, now, pointer, sent)
    requires pointer + TS_PACKET_SIZE > |buf| || buf[pointer] != TS_SYNC_BYTE
    ensures f.m.framer.buf == buf ==>
              Proxy.ProxyBuffer(cfg, f)
              == (Proxy.WithFramer(now, Framing.Framer(buf[pointer..], pointer + TS_PACKET_SIZE > |buf|)), sent)
  {
    assert sent + [] == sent;
  }
}
