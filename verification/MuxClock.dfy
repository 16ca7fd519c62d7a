/** The clock of the multiplexer over whole runs: without a resync it only ticks and stamps, and stays
  * within one tick per stamp of the exact bit rate. */
module MuxClock {
  import opened Common
  import opened Clock
  import opened TsPacket
  import opened Queues
  import opened Mux
  import MuxReady
  import Framing
  import Restamper

  function Slots(es: seq<Emitted>): (r: seq<Restamper.Slot>)
    ensures |r| == |es| && forall k :: 0 <= k < |es| ==> r[k] == es[k].slot
  {
    seq(|es|, i requires 0 <= i < |es| => es[i].slot)
  }

  lemma SlotsAppend(a: seq<Emitted>, b: seq<Emitted>)
    ensures Slots(a + b) == Slots(a) + Slots(b)
  {
  }

  lemma ProcessClock(cfg: Config, m: State, pkt: TsPkt, disc: bool)
    ensures var (n, slot) := ProcessAs(cfg, m, pkt, disc);
            && n.rs == (var synced := if slot.resync.Some? then Restamper.Resync(m.rs, slot.resync.value) else m.rs;
                        if slot.stamp.Some? then synced.(first := slot.stamp, sent := 0) else synced)
            && (slot.resync.None? && slot.stamp.Some?
                ==> slot.stamp == Restamper.GetPcr(m.rs) && ExtractPcr(slot.data) == slot.stamp)
  {
    var data := if disc then SetDiscontinuity(pkt.data) else pkt.data;
    var m1 := if disc then Resynced(m, pkt.dts) else m;
    Restamper.ProcessFacts(m1.rs, data);
  }

  /** The clock sees one turn of the sending loop as one slot. */
  lemma SlotClock(cfg: Config, m: State)
    ensures var (n, e) := CbrSlot(cfg, m);
            n.rs == Restamper.AfterSlot(m.rs, e.slot) && Restamper.Honest(m.rs, e.slot)
  {
    var t := m.(rs := Restamper.Tick(m.rs));
    match Decide(cfg, t)
    case SendNull(kind) =>
    case SendFrom(s, kind) =>
      var (t1, pkt) := Take(t, s, kind);
      ProcessClock(cfg, t1, pkt, MustResync(t1, pkt));
  }

  ghost predicate Clocked(r: Restamper.Stamper, r': Restamper.Stamper, es: seq<Emitted>) {
    r' == Restamper.After(r, Slots(es)) && Restamper.AllHonest(r, Slots(es))
  }

  lemma ClockedAppend(r: Restamper.Stamper, r': Restamper.Stamper, r'': Restamper.Stamper,
                      a: seq<Emitted>, b: seq<Emitted>)
    requires Clocked(r, r', a) && Clocked(r', r'', b)
    ensures Clocked(r, r'', a + b)
  {
    SlotsAppend(a, b);
    Restamper.AfterAppend(r, Slots(a), Slots(b));
    Restamper.HonestAppend(r, Slots(a), Slots(b));
  }

  lemma ClockedOne(r: Restamper.Stamper, e: Emitted)
    requires Restamper.Honest(r, e.slot)
    ensures Clocked(r, Restamper.AfterSlot(r, e.slot), [e])
  {
    assert Slots([e]) == [e.slot];
    Restamper.OneHonest(r, e.slot);
  }

  lemma {:induction false} LoopClock(cfg: Config, m: State, n: nat)
    ensures Clocked(m.rs, CbrLoop(cfg, m, n).0.rs, CbrLoop(cfg, m, n).1)
    decreases n
  {
    if n > 0 {
      SlotClock(cfg, m);
      var (m1, e) := CbrSlot(cfg, m);
      ClockedOne(m.rs, e);
      LoopClock(cfg, m1, n - 1);
      ClockedAppend(m.rs, m1.rs, CbrLoop(cfg, m, n).0.rs, [e], CbrLoop(cfg, m1, n - 1).1);
    }
  }

  lemma FlushClock(cfg: Config, m: State)
    ensures var (n, out) := FlushCbr(cfg, m);
            match out
            case None => n == m
            case Some(es) => Clocked(m.rs, n.rs, es)
  {
    if !Dirty(m) && m.isReady {
      var (m1, tables) := FlushTables(m);
      if tables != [] {
        ClockedOne(m.rs, tables[0]);
        assert tables == [tables[0]];
      } else {
        assert m1.rs == m.rs && Slots(tables) == [];
      }
      var k := SaturatingSub(PktSize(cfg) / TS_PACKET_SIZE, |tables|);
      LoopClock(cfg, m1, k);
      ClockedAppend(m.rs, m1.rs, CbrLoop(cfg, m1, k).0.rs, tables, CbrLoop(cfg, m1, k).1);
    }
  }

  lemma {:induction false} HandleAllLeaves(cfg: Config, m: State, ps: seq<Packet>)
    ensures HandleAll(cfg, m, ps).rs == m.rs && HandleAll(cfg, m, ps).isReady == m.isReady
    ensures m.isReady && MuxReady.Complete(m) ==>
              HandleAll(cfg, m, ps).cache == m.cache && MuxReady.Complete(HandleAll(cfg, m, ps))
    decreases |ps|
  {
    if ps != [] {
      HandleLeaves(cfg, m, ps[0]);
      HandleAllLeaves(cfg, Handle(cfg, m, ps[0]), ps[1..]);
    }
  }

  lemma HandleClearLeaves(cfg: Config, m: State, p: Packet)
    ensures HandleClear(cfg, m, p).rs == m.rs && HandleClear(cfg, m, p).isReady == m.isReady
    ensures m.isReady && MuxReady.Complete(m) ==>
              HandleClear(cfg, m, p).cache == m.cache && MuxReady.Complete(HandleClear(cfg, m, p))
  {
    var pid := PktPid(p);
    if pid == PAT_PID {
      ProcessPatLeaves(cfg, m, p);
    } else if pid == cfg.pmtPid && (!m.cache.pmt.ready || !m.isReady) {
      ProcessPmtLeaves(cfg, m, p);
    } else if pid == SDT_PID {
      ProcessSdtLeaves(cfg, m, p);
    } else {
      EnqueueLeaves(cfg, m, p);
    }
  }

  lemma ProcessPatLeaves(cfg: Config, m: State, p: Packet)
    ensures ProcessPat(cfg, m, p).rs == m.rs && ProcessPat(cfg, m, p).isReady == m.isReady
  {
  }

  lemma ProcessPmtLeaves(cfg: Config, m: State, p: Packet)
    ensures ProcessPmt(cfg, m, p).rs == m.rs && ProcessPmt(cfg, m, p).isReady == m.isReady
  {
  }

  lemma ProcessSdtLeaves(cfg: Config, m: State, p: Packet)
    ensures ProcessSdt(cfg, m, p).rs == m.rs && ProcessSdt(cfg, m, p).isReady == m.isReady
  {
  }

  lemma EnqueueLeaves(cfg: Config, m: State, p: Packet)
    ensures Enqueue(cfg, m, p).rs == m.rs && Enqueue(cfg, m, p).isReady == m.isReady
    ensures Enqueue(cfg, m, p).cache == m.cache
    ensures MuxReady.Complete(m) ==> MuxReady.Complete(Enqueue(cfg, m, p))
  {
    var n := Stamped(m, PktPid(p), PtsDts(p, PktPid(p)));
    if Entry(cfg, m, p).Some? {
      AppendLeaves(cfg, n, Entry(cfg, m, p).value);
    }
  }

  lemma AppendLeaves(cfg: Config, m: State, pkt: TsPkt)
    ensures Append(cfg, m, pkt) == m.(a := Append(cfg, m, pkt).a, v := Append(cfg, m, pkt).v)
  {
  }

  lemma HandleLeaves(cfg: Config, m: State, p: Packet)
    ensures Handle(cfg, m, p).rs == m.rs && Handle(cfg, m, p).isReady == m.isReady
    ensures m.isReady && MuxReady.Complete(m) ==>
              Handle(cfg, m, p).cache == m.cache && MuxReady.Complete(Handle(cfg, m, p))
  {
    HandleClearLeaves(cfg, m.(dirtyCa := false), p);
  }

  /** Receiving leaves the clock, and the cached tables, of a ready handler alone, unless its queues
    * overflow (they are then emptied and the handler starts over). */
  lemma WriteLeavesClock(cfg: Config, m: State, chunk: Bytes)
    requires m.isReady && MuxReady.Complete(m) && !Overflow(m, 2)
    ensures Write(cfg, m, chunk).rs == m.rs && Write(cfg, m, chunk).cache == m.cache
  {
    ProcessLeavesClock(cfg, Fed(m, chunk));
  }

  lemma ProcessLeavesClock(cfg: Config, m: State)
    requires m.isReady && MuxReady.Complete(m) && !Overflow(m, 2)
    ensures Process(cfg, m).rs == m.rs && Process(cfg, m).cache == m.cache
  {
    var m0 := Located(m);
    assert m0 == m.(framer := m0.framer) && Relieved(m0) == m0;
    HandleAllLeaves(cfg, m0, Framing.Demux(m0.framer.buf).0);
  }

  /** Everything sent at the constant rate, in order. */
  function Log(cfg: Config, m: State, events: seq<Event>): seq<Emitted>
    decreases |events|
  {
    if events == [] then []
    else
      (if events[0].FlushAtRate? && FlushCbr(cfg, m).1.Some? then FlushCbr(cfg, m).1.value else [])
      + Log(cfg, Step(cfg, m, events[0]).0, events[1..])
  }

  ghost predicate CalmFlush(r: Restamper.Stamper, out: Option<seq<Emitted>>) {
    out.Some? ==> Restamper.NoResync(Slots(out.value)) && Restamper.Fits(r)
                  && Restamper.NeverOverflows(r, Slots(out.value))
  }

  /** A stretch of sending at the constant rate in which no packet resynchronises the clock, the queues
    * do not overflow, and the clock's 64-bit sum does not either. */
  ghost predicate Calm(cfg: Config, m: State, events: seq<Event>)
    decreases |events|
  {
    events == [] ||
    (&& (match events[0]
         case Chunk(bytes) => m.isReady && !Overflow(m, 2)
         case FlushFreely => false
         case FlushAtRate => CalmFlush(m.rs, FlushCbr(cfg, m).1))
     && Calm(cfg, Step(cfg, m, events[0]).0, events[1..]))
  }

  lemma {:induction false} CalmClock(cfg: Config, m: State, events: seq<Event>)
    requires MuxReady.Inv(m) && Calm(cfg, m, events)
    ensures var slots := Slots(Log(cfg, m, events));
            Restamper.AllHonest(m.rs, slots) && Restamper.NoResync(slots) && Restamper.NeverOverflows(m.rs, slots)
    decreases |events|
  {
    if events != [] {
      var n := Step(cfg, m, events[0]).0;
      MuxReady.StepKeeps(cfg, m, events[0]);
      CalmClock(cfg, n, events[1..]);
      var rest := Log(cfg, n, events[1..]);
      if events[0].Chunk? {
        WriteLeavesClock(cfg, m, events[0].bytes);
        assert [] + rest == rest;
      } else {
        FlushClock(cfg, m);
        var out := FlushCbr(cfg, m).1;
        if out.None? {
          assert [] + rest == rest;
        } else {
          SlotsAppend(out.value, rest);
          Restamper.HonestAppend(m.rs, Slots(out.value), Slots(rest));
          Restamper.OverflowsAppend(m.rs, Slots(out.value), Slots(rest));
        }
      }
    }
  }

  /** Clock accuracy of the multiplexer, over a whole calm stretch and across all its flushes: the PCR
    * read from the k-th packet sent is the start value plus the exact time of the packets sent up to
    * and including it, table, null and payload packets alike, less an error that stays below one tick
    * per stamp: s ticks with bitrate * s <= n * 188 * 8 * 27000000 < bitrate * (s + m). */
  lemma ClockAccuracy(cfg: Config, m: State, events: seq<Event>, log: seq<Emitted>, p0: nat, k: nat)
    returns (s: nat)
    requires MuxReady.Inv(m) && m.isReady && m.rs.first == Some(p0) && p0 < PCR_CYCLE
    requires Calm(cfg, m, events) && log == Log(cfg, m, events)
    requires k < |log| && log[k].slot.stamp.Some?
    ensures ExtractPcr(log[k].slot.data) == Some((p0 + s) % PCR_CYCLE)
    ensures var n, stamps := m.rs.sent + k + 1, Restamper.StampCount(Slots(log)[..k + 1]);
            m.rs.bitrate * s <= n * Restamper.PACKET_TICKS < m.rs.bitrate * (s + stamps)
  {
    CalmClock(cfg, m, events);
    s := AccurateLog(m.rs, p0, log, k);
  }

  lemma AccurateLog(r: Restamper.Stamper, p0: nat, log: seq<Emitted>, k: nat) returns (s: nat)
    requires r.bitrate != 0 && r.first == Some(p0) && p0 < PCR_CYCLE
    requires k < |log| && log[k].slot.stamp.Some?
    requires Restamper.AllHonest(r, Slots(log)) && Restamper.NoResync(Slots(log))
    requires Restamper.NeverOverflows(r, Slots(log))
    ensures ExtractPcr(log[k].slot.data) == Some((p0 + s) % PCR_CYCLE)
    ensures var n, stamps := r.sent + k + 1, Restamper.StampCount(Slots(log)[..k + 1]);
            r.bitrate * s <= n * Restamper.PACKET_TICKS < r.bitrate * (s + stamps)
  {
    s := Restamper.StampAccuracy(r, p0, Slots(log), k);
  }
}
