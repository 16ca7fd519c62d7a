/** What holds in every reachable state of the multiplexer: readiness means that everything needed to
  * send is there, and nothing but transport packets is ever sent. */
module MuxReady {
  import opened Common
  import opened Clock
  import opened TsPacket
  import opened Queues
  import opened Mux
  import Framing
  import Restamper
  import Schedule
  import Sections

  /** All that sending relies on. */
  predicate Complete(m: State) {
    m.cache.pat.ready && m.cache.pmt.ready && m.cache.sdt.ready && !m.dirtyPat && !m.dirtyPmt
    && m.rs.bitrate != 0 && m.rs.first.Some?
  }

  ghost predicate Synced(ps: seq<Packet>) {
    forall k :: 0 <= k < |ps| ==> ps[k][0] == TS_SYNC_BYTE
  }

  ghost predicate QueueSynced(q: Queue) {
    forall k :: 0 <= k < |q| ==> q[k].data[0] == TS_SYNC_BYTE
  }

  predicate CachedSynced(x: Schedule.Cached) {
    x.ready ==> x.packet[0] == TS_SYNC_BYTE
  }

  predicate CacheSynced(c: Schedule.Cache) {
    CachedSynced(c.pat) && CachedSynced(c.pmt) && CachedSynced(c.sdt)
  }

  ghost predicate Inv(m: State) {
    (m.isReady ==> Complete(m)) && CacheSynced(m.cache) && QueueSynced(m.v) && QueueSynced(m.a)
  }

  lemma PackOneSynced(section: Bytes, pid: Pid, cc: nat)
    ensures Sections.PackOne(section, pid, cc)[0] == TS_SYNC_BYTE
  {
    Sections.FirstOfPack(section, pid, cc);
    Sections.PacketFields(section[..Min(Sections.FIRST_CAPACITY, |section|)], pid, cc, true);
  }

  lemma {:induction false} DemuxSynced(b: Bytes)
    ensures Synced(Framing.Demux(b).0)
    decreases |b|
  {
    if |b| >= TS_PACKET_SIZE && b[0] == TS_SYNC_BYTE {
      DemuxSynced(b[TS_PACKET_SIZE..]);
    }
  }

  // ----- receiving keeps the invariant -----

  lemma ProcessPatKeeps(cfg: Config, m: State, p: Packet)
    requires Inv(m) && !m.isReady
    ensures Inv(ProcessPat(cfg, m, p)) && !ProcessPat(cfg, m, p).isReady
  {
    var got := Sections.PushTable(m.reasm, p).1;
    if got.Some? {
      PackOneSynced(cfg.tables.patSection(got.value), PktPid(p), CachedCc(m.cache.pat.packet));
    }
  }

  lemma ProcessPmtKeeps(cfg: Config, m: State, p: Packet)
    requires Inv(m) && !m.isReady
    ensures Inv(ProcessPmt(cfg, m, p)) && !ProcessPmt(cfg, m, p).isReady
  {
    var got := Sections.PushTable(m.reasm, p).1;
    if got.Some? {
      PackOneSynced(cfg.tables.pmtSection(got.value), PktPid(p), CachedCc(m.cache.pmt.packet));
    }
  }

  lemma StoreSdtKeeps(m: State, section: Bytes)
    requires Inv(m)
    ensures Inv(StoreSdt(m, section)) && StoreSdt(m, section).isReady == m.isReady
  {
    PackOneSynced(section, SDT_PID, 0);
  }

  lemma EnqueueKeeps(cfg: Config, m: State, p: Packet)
    requires Inv(m) && p[0] == TS_SYNC_BYTE
    ensures Inv(Enqueue(cfg, m, p)) && Enqueue(cfg, m, p).isReady == m.isReady
  {
    var n := Stamped(m, PktPid(p), PtsDts(p, PktPid(p)));
    assert Inv(n);
    if Entry(cfg, m, p).Some? {
      AppendKeeps(cfg, n, Entry(cfg, m, p).value);
    }
  }

  lemma AppendKeeps(cfg: Config, m: State, pkt: TsPkt)
    requires Inv(m) && pkt.data[0] == TS_SYNC_BYTE
    ensures Inv(Append(cfg, m, pkt)) && Append(cfg, m, pkt).isReady == m.isReady
  {
  }

  lemma ProcessSdtKeeps(cfg: Config, m: State, p: Packet)
    requires Inv(m)
    ensures Inv(ProcessSdt(cfg, m, p)) && ProcessSdt(cfg, m, p).isReady == m.isReady
  {
    var (reasm, got) := Sections.PushTable(m.reasm, p);
    if got.Some? {
      var s := cfg.tables.sdtSection(m.cache.pat.packet, got.value);
      if s.Some? {
        StoreSdtKeeps(m.(reasm := reasm), s.value);
      }
    }
  }

  lemma HandleClearKeeps(cfg: Config, m: State, p: Packet)
    requires Inv(m) && p[0] == TS_SYNC_BYTE
    ensures Inv(HandleClear(cfg, m, p)) && HandleClear(cfg, m, p).isReady == m.isReady
  {
    var pid := PktPid(p);
    if pid == PAT_PID {
      if !m.isReady {
        ProcessPatKeeps(cfg, m, p);
      }
    } else if pid == cfg.pmtPid && !m.isReady {
      ProcessPmtKeeps(cfg, m, p);
    } else if pid == SDT_PID {
      ProcessSdtKeeps(cfg, m, p);
    } else {
      EnqueueKeeps(cfg, m, p);
    }
  }

  lemma HandleKeeps(cfg: Config, m: State, p: Packet)
    requires Inv(m) && p[0] == TS_SYNC_BYTE
    ensures Inv(Handle(cfg, m, p)) && Handle(cfg, m, p).isReady == m.isReady
  {
    var n := m.(dirtyCa := false);
    assert Inv(n);
    HandleClearKeeps(cfg, n, p);
  }

  lemma {:induction false} HandleAllKeeps(cfg: Config, m: State, ps: seq<Packet>)
    requires Inv(m) && Synced(ps)
    ensures Inv(HandleAll(cfg, m, ps)) && HandleAll(cfg, m, ps).isReady == m.isReady
    decreases |ps|
  {
    if ps != [] {
      HandleKeeps(cfg, m, ps[0]);
      HandleAllKeeps(cfg, Handle(cfg, m, ps[0]), ps[1..]);
    }
  }

  lemma {:induction false} AdjustSynced(cfg: Config, m: State)
    requires QueueSynced(m.v) && QueueSynced(m.a)
    ensures QueueSynced(BufferAdjust(cfg, m).v) && QueueSynced(BufferAdjust(cfg, m).a)
    decreases |m.a| + |m.v|
  {
    if Duration(m.v) > cfg.bufferDurationMs {
      AdjustSynced(cfg, GetAOrV(m).0);
    }
  }

  lemma StartKeeps(cfg: Config, m: State)
    requires Inv(m) && !m.isReady && !Dirty(m)
    requires m.cache.pat.ready && m.cache.pmt.ready && m.cache.sdt.ready
    ensures Inv(Start(cfg, m))
    ensures var r := Start(cfg, m);
            r.isReady ==> r.v != [] && Duration(r.v) <= cfg.bufferDurationMs
                          && Restamper.GetPcr(r.rs) == Some(ResyncDts(r.v[0].dts) * 300)
  {
    AdjustKeeps(cfg, m);
    AdjustSynced(cfg, m);
    var b := BufferAdjust(cfg, m);
    if b.v != [] {
      ResyncReads(m.rs, ResyncDts(b.v[0].dts));
    }
  }

  /** The one place where a handler becomes ready: the tables are there and unchanged, the bit rate is
    * known, the video queue is not empty and within its duration after adjusting, and the clock is
    * set 300 ms behind its first packet. */
  lemma ReadyCheckKeeps(cfg: Config, m: State)
    requires Inv(m)
    ensures Inv(ReadyCheck(cfg, m))
    ensures var r := ReadyCheck(cfg, m);
            !m.isReady && r.isReady ==>
              && r.v != [] && Duration(r.v) <= cfg.bufferDurationMs
              && Restamper.GetPcr(r.rs) == Some(ResyncDts(r.v[0].dts) * 300)
  {
    if !(Dirty(m) || m.isReady || !m.cache.pat.ready || !m.cache.pmt.ready) {
      StoreSdtKeeps(m, cfg.tables.sdtDefault(m.cache.pat.packet));
      var n := WithSdt(cfg, m);
      ClearKeeps(n);
      if n.v != [] && !DtsAfter(n.v[0].dts, n.v[|n.v| - 1].dts) {
        var q := Probe(cfg, n);
        assert q == n.(rs := q.rs);
        StartKeeps(cfg, q);
      }
    }
  }

  lemma ClearKeeps(m: State)
    requires Inv(m)
    ensures Inv(BuffersClear(m)) && !BuffersClear(m).isReady
  {
  }

  lemma ResyncReads(r: Restamper.Stamper, dts: nat)
    requires dts < DTS_CYCLE
    ensures Restamper.GetPcr(Restamper.Resync(r, dts)) == Some(dts * 300)
  {
    var s := Restamper.Resync(r, dts);
    assert dts * 300 % PCR_CYCLE == dts * 300;
    if s.bitrate != 0 {
      Restamper.ZeroElapsed(s.bitrate);
    }
  }

  lemma WriteKeeps(cfg: Config, m: State, chunk: Bytes)
    requires Inv(m)
    ensures Inv(Write(cfg, m, chunk))
  {
    ProcessKeeps(cfg, Fed(m, chunk));
  }

  lemma ProcessKeeps(cfg: Config, m: State)
    requires Inv(m)
    ensures Inv(Process(cfg, m))
  {
    var m0 := Located(m);
    assert Inv(m0);
    ClearKeeps(m0);
    DemultiplexKeeps(cfg, Relieved(m0));
  }

  lemma DemultiplexKeeps(cfg: Config, m: State)
    requires Inv(m)
    ensures Inv(Demultiplex(cfg, m))
  {
    var (packets, f) := Framing.Demux(m.framer.buf);
    DemuxSynced(m.framer.buf);
    HandleAllKeeps(cfg, m, packets);
    var n := HandleAll(cfg, m, packets).(framer := f);
    assert Inv(n);
    ClearKeeps(n);
    ReadyCheckKeeps(cfg, n);
  }

  // ----- sending keeps it too -----

  lemma FlushSynced(c: Schedule.Cache, pcr: Option<nat>)
    requires CacheSynced(c)
    ensures CacheSynced(Schedule.Flush(c, pcr).0) && Synced(Schedule.Flush(c, pcr).1)
    ensures var d := Schedule.Flush(c, pcr).0;
            d.pat.ready == c.pat.ready && d.pmt.ready == c.pmt.ready && d.sdt.ready == c.sdt.ready
  {
  }

  /** Everything but the queues, the clock and the counters stays. */
  predicate SameButFlow(m: State, n: State) {
    n == m.(a := n.a, v := n.v, rs := n.rs, counts := n.counts)
  }

  /** What sending one packet keeps, apart from which packet it is. */
  ghost predicate FlowKept(m: State, n: State) {
    SameButFlow(m, n) && n.rs.bitrate == m.rs.bitrate && n.rs.first.Some?
    && QueueSynced(n.v) && QueueSynced(n.a)
  }

  lemma FlowKeepsInv(m: State, n: State)
    requires Inv(m) && m.isReady && FlowKept(m, n)
    ensures Inv(n) && n.isReady
  {
  }

  lemma ProcessAsKeeps(cfg: Config, m: State, pkt: TsPkt, disc: bool)
    requires m.rs.first.Some? && pkt.data[0] == TS_SYNC_BYTE
    ensures var (n, slot) := ProcessAs(cfg, m, pkt, disc);
            && n == m.(rs := n.rs) && n.rs.bitrate == m.rs.bitrate && n.rs.first.Some?
            && slot.data[0] == TS_SYNC_BYTE
  {
    SetDiscontinuityKeeps(pkt.data);
    var data := if disc then SetDiscontinuity(pkt.data) else pkt.data;
    var m1 := if disc then Resynced(m, pkt.dts) else m;
    Restamper.ProcessFacts(m1.rs, data);
  }

  lemma TakeKeeps(m: State, s: Source, kind: Kind)
    requires QueueSynced(m.v) && QueueSynced(m.a)
    requires s != Neither && (s == FromA ==> m.a != []) && (s == FromV ==> m.v != [])
    ensures var (n, pkt) := Take(m, s, kind);
            && n == m.(a := n.a, v := n.v, counts := n.counts)
            && QueueSynced(n.v) && QueueSynced(n.a) && pkt.data[0] == TS_SYNC_BYTE
  {
  }

  lemma EmitKeeps(cfg: Config, m: State, s: Source, kind: Kind)
    requires QueueSynced(m.v) && QueueSynced(m.a) && m.rs.first.Some?
    requires s != Neither && (s == FromA ==> m.a != []) && (s == FromV ==> m.v != [])
    ensures FlowKept(m, EmitFrom(cfg, m, s, kind).0)
    ensures EmitFrom(cfg, m, s, kind).1.slot.data[0] == TS_SYNC_BYTE
  {
    TakeKeeps(m, s, kind);
    var (m1, pkt) := Take(m, s, kind);
    ProcessAsKeeps(cfg, m1, pkt, MustResync(m1, pkt));
  }

  lemma CbrSlotKeeps(cfg: Config, m: State)
    requires QueueSynced(m.v) && QueueSynced(m.a) && m.rs.first.Some?
    ensures FlowKept(m, CbrSlot(cfg, m).0) && CbrSlot(cfg, m).1.slot.data[0] == TS_SYNC_BYTE
  {
    var t := m.(rs := Restamper.Tick(m.rs));
    match Decide(cfg, t)
    case SendNull(kind) =>
    case SendFrom(s, kind) => EmitKeeps(cfg, t, s, kind);
  }

  lemma SameJoins(m: State, n: State, o: State)
    requires SameButFlow(m, n) && SameButFlow(n, o)
    ensures SameButFlow(m, o)
  {
  }

  lemma SyncedCons(e: Emitted, es: seq<Emitted>)
    requires e.slot.data[0] == TS_SYNC_BYTE && Synced(Data(es))
    ensures Synced(Data([e] + es))
  {
    assert Data([e] + es) == [e.slot.data] + Data(es);
  }

  lemma {:induction false} CbrLoopKeeps(cfg: Config, m: State, n: nat)
    requires Inv(m) && m.isReady
    ensures Inv(CbrLoop(cfg, m, n).0) && Synced(Data(CbrLoop(cfg, m, n).1))
    ensures SameButFlow(m, CbrLoop(cfg, m, n).0)
    decreases n
  {
    if n > 0 {
      var slot := CbrSlot(cfg, m);
      assert Inv(slot.0) && SameButFlow(m, slot.0) && slot.1.slot.data[0] == TS_SYNC_BYTE by {
        CbrSlotKeeps(cfg, m);
        FlowKeepsInv(m, slot.0);
      }
      var rest := CbrLoop(cfg, slot.0, n - 1);
      assert Inv(rest.0) && SameButFlow(m, rest.0) && Synced(Data([slot.1] + rest.1)) by {
        CbrLoopKeeps(cfg, slot.0, n - 1);
        SyncedCons(slot.1, rest.1);
        SameJoins(m, slot.0, rest.0);
      }
      assert CbrLoop(cfg, m, n) == (rest.0, [slot.1] + rest.1) by {
        CbrLoopTurn(cfg, m, n);
      }
    }
  }

  lemma FlushCbrKeeps(cfg: Config, m: State)
    requires Inv(m)
    ensures Inv(FlushCbr(cfg, m).0)
    ensures FlushCbr(cfg, m).1.Some? ==> Synced(Data(FlushCbr(cfg, m).1.value))
    ensures FlushCbr(cfg, m).1.Some? <==> m.isReady && !m.dirtyCa
    ensures FlushCbr(cfg, m).0.isReady == m.isReady && FlushCbr(cfg, m).0.lastStamps == m.lastStamps
  {
    if !Dirty(m) && m.isReady {
      FlushSynced(m.cache, Restamper.GetPcr(m.rs));
      var (m1, tables) := FlushTables(m);
      var n := SaturatingSub(PktSize(cfg) / TS_PACKET_SIZE, |tables|);
      CbrLoopKeeps(cfg, m1, n);
      var es := CbrLoop(cfg, m1, n).1;
      assert Data(tables + es) == Data(tables) + Data(es);
      assert Synced(Data(tables));
    }
  }

  lemma {:induction false} VbrLoopKeeps(m: State, n: nat)
    requires Inv(m) && m.isReady
    ensures var (r, xs) := VbrLoop(m, n);
            Inv(r) && r.isReady && r.rs == m.rs && r.lastStamps == m.lastStamps && QueueSynced(xs)
    decreases n
  {
    if n > 0 {
      var (m1, pkt) := GetAOrV(m);
      if pkt.Some? {
        var m2 := m1.(counts := m1.counts.(payload := m1.counts.payload + 1));
        assert Inv(m2);
        VbrLoopKeeps(m2, n - 1);
      }
    }
  }

  lemma FlushVbrKeeps(cfg: Config, m: State)
    requires Inv(m)
    ensures Inv(FlushVbr(cfg, m).0)
    ensures FlushVbr(cfg, m).1.Some? ==> Synced(FlushVbr(cfg, m).1.value)
    ensures FlushVbr(cfg, m).0.isReady == m.isReady && FlushVbr(cfg, m).0.lastStamps == m.lastStamps
  {
    if !Dirty(m) && m.isReady {
      FlushSynced(m.cache, Restamper.GetPcr(m.rs));
      var (m1, tables) := CountTables(m);
      assert Inv(m1) && m1.isReady && Synced(tables);
      VbrLoopKeeps(m1, SaturatingSub(PktSize(cfg) / TS_PACKET_SIZE, |tables|));
    }
  }

  // ----- every reachable state -----

  lemma StepKeeps(cfg: Config, m: State, e: Event)
    requires Inv(m)
    ensures Inv(Step(cfg, m, e).0) && Synced(Step(cfg, m, e).1)
  {
    match e
    case Chunk(bytes) => WriteKeeps(cfg, m, bytes);
    case FlushAtRate => FlushCbrKeeps(cfg, m);
    case FlushFreely => FlushVbrKeeps(cfg, m);
  }

  lemma {:induction false} RunKeeps(cfg: Config, m: State, events: seq<Event>)
    requires Inv(m)
    ensures Inv(Run(cfg, m, events).0) && Synced(Run(cfg, m, events).1)
    decreases |events|
  {
    if events != [] {
      StepKeeps(cfg, m, events[0]);
      RunKeeps(cfg, Step(cfg, m, events[0]).0, events[1..]);
    }
  }

  /** In every run of a handler in multiplexing mode, over any input whatever: whoever finds it ready
    * finds all three tables set, PAT and PMT unchanged, a nonzero bit rate and a running clock; every
    * packet sent starts with the sync byte. */
  lemma ReachableStates(cfg: Config, bitrate: nat, events: seq<Event>)
    ensures var (m, sent) := Run(cfg, Initial(bitrate), events);
            && (m.isReady ==> Complete(m) && Restamper.GetPcr(m.rs).Some?)
            && Synced(sent)
  {
    RunKeeps(cfg, Initial(bitrate), events);
  }
}
