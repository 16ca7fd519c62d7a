/** The tables of the multiplexer over whole runs: when they go out. */
module MuxTables {
  import opened Common
  import opened Clock
  import opened TsPacket
  import opened Mux
  import opened MuxClock
  import MuxCbr
  import MuxReady
  import Framing
  import Restamper
  import Schedule
  import Sections

  /** The table packets of each flush that took place. */
  function TablesSent(cfg: Config, m: State, events: seq<Event>): seq<seq<Packet>>
    decreases |events|
  {
    if events == [] then []
    else
      (if events[0].FlushAtRate? && FlushCbr(cfg, m).1.Some? then [Data(FlushTables(m).1)] else [])
      + TablesSent(cfg, Step(cfg, m, events[0]).0, events[1..])
  }

  /** What the clock reads at each flush that took place. */
  function Readings(cfg: Config, m: State, events: seq<Event>): seq<Option<nat>>
    decreases |events|
  {
    if events == [] then []
    else
      (if events[0].FlushAtRate? && FlushCbr(cfg, m).1.Some? then [Restamper.GetPcr(m.rs)] else [])
      + Readings(cfg, Step(cfg, m, events[0]).0, events[1..])
  }

  /** The instants of the readings in unwrapped time: the first is `start`, none is before or more than
    * 50 ms after the one before it, and modulo the cycle they are what the clock reads. */
  ghost predicate OnClock(ts: seq<nat>, readings: seq<Option<nat>>, start: nat) {
    && |ts| == |readings| && (ts != [] ==> ts[0] == start)
    && Schedule.Ordered(ts) && Schedule.SmallSteps(ts)
    && forall i :: 0 <= i < |ts| ==> readings[i] == Some(ts[i] % PCR_CYCLE)
  }

  /** There is only one such list: the clock determines the instants. */
  lemma {:induction false} OneTimeline(ts: seq<nat>, us: seq<nat>, readings: seq<Option<nat>>, start: nat, i: nat)
    requires OnClock(ts, readings, start) && OnClock(us, readings, start) && i < |readings|
    ensures ts[i] == us[i]
    decreases i
  {
    if i > 0 {
      OneTimeline(ts, us, readings, start, i - 1);
      var t, u, base := ts[i], us[i], ts[i - 1];
      assert base == ts[i - 1] <= t <= ts[i - 1] + Schedule.MAX_STEP by {
        assert ts[i - 1 + 1] <= ts[i - 1] + Schedule.MAX_STEP;
      }
      assert base == us[i - 1] <= u <= us[i - 1] + Schedule.MAX_STEP by {
        assert us[i - 1 + 1] <= us[i - 1] + Schedule.MAX_STEP;
      }
      NearAndCongruent(t, u);
    }
  }

  lemma NearAndCongruent(t: nat, u: nat)
    requires t % PCR_CYCLE == u % PCR_CYCLE && -PCR_CYCLE < t - u < PCR_CYCLE
    ensures t == u
  {
  }

  /** A datagram takes at most 50 ms at the configured rate. */
  predicate FastEnough(cfg: Config, bitrate: nat) {
    PktSize(cfg) >= TS_PACKET_SIZE
    && PktSize(cfg) / TS_PACKET_SIZE * Restamper.PACKET_TICKS <= bitrate * Schedule.MAX_STEP
  }

  lemma TablesAreScheduled(m: State)
    ensures var (cache, out) := Schedule.Flush(m.cache, Restamper.GetPcr(m.rs));
            Data(FlushTables(m).1) == out && FlushTables(m).0.cache == cache
  {
  }

  lemma {:induction false} LoopKeepsCache(cfg: Config, m: State, n: nat)
    requires MuxReady.Inv(m) && m.isReady
    ensures CbrLoop(cfg, m, n).0.cache == m.cache
    decreases n
  {
    if n > 0 {
      MuxReady.CbrSlotKeeps(cfg, m);
      var m1 := CbrSlot(cfg, m).0;
      MuxReady.FlowKeepsInv(m, m1);
      LoopKeepsCache(cfg, m1, n - 1);
    }
  }

  lemma FlushCache(cfg: Config, m: State)
    requires MuxReady.Inv(m) && FlushCbr(cfg, m).1.Some?
    ensures FlushCbr(cfg, m).0.cache == Schedule.Flush(m.cache, Restamper.GetPcr(m.rs)).0
  {
    MuxReady.FlushSynced(m.cache, Restamper.GetPcr(m.rs));
    var (m1, tables) := FlushTables(m);
    TablesAreScheduled(m);
    LoopKeepsCache(cfg, m1, SaturatingSub(PktSize(cfg) / TS_PACKET_SIZE, |tables|));
  }

  lemma StepIsSmall(b: nat, d: int, x: nat, step: nat)
    requires b > 0 && b * d < x + b && x <= b * step
    ensures d <= step
  {
    if d > step {
      Restamper.MulGrows(b, step + 1, d);
      Restamper.Distribute(b, step, 1);
    }
  }

  /** Calm slots, at most a datagram of them, move the clock forward by at most 50 ms. */
  lemma SlotsAdvance(r: Restamper.Stamper, slots: seq<Restamper.Slot>, p0: nat, n: nat, c: nat, s: nat)
    returns (c': nat, s': nat)
    requires Restamper.Tracks(r, p0, n, c, s) && |slots| * Restamper.PACKET_TICKS <= r.bitrate * Schedule.MAX_STEP
    requires Restamper.AllHonest(r, slots) && Restamper.NoResync(slots) && Restamper.NeverOverflows(r, slots)
    ensures var r' := Restamper.After(r, slots);
            && Restamper.Tracks(r', p0, n + |slots|, c', s') && r'.bitrate == r.bitrate
            && Restamper.Now(r, p0, s) <= Restamper.Now(r', p0, s')
               <= Restamper.Now(r, p0, s) + Schedule.MAX_STEP
  {
    var r' := Restamper.After(r, slots);
    s' := Restamper.TracksAfter(r, p0, n, c, s, slots, |slots|);
    assert slots[..|slots|] == slots;
    c' := c + Restamper.StampCount(slots);
    Restamper.AdvanceBound(r, n, s, r', |slots|, s', p0);
    StepIsSmall(r.bitrate, Restamper.Now(r', p0, s') - Restamper.Now(r, p0, s),
                |slots| * Restamper.PACKET_TICKS, Schedule.MAX_STEP);
  }

  /** One calm flush: the scheduler acts on the unwrapped clock, which then moves on a little. */
  lemma FlushAdvances(cfg: Config, m: State, p0: nat, n: nat, c: nat, s: nat)
    returns (m': State, n': nat, c': nat, s': nat)
    requires MuxReady.Inv(m) && Restamper.Tracks(m.rs, p0, n, c, s) && FastEnough(cfg, m.rs.bitrate)
    requires FlushCbr(cfg, m).1.Some? && CalmFlush(m.rs, FlushCbr(cfg, m).1)
    ensures m' == FlushCbr(cfg, m).0
    ensures Restamper.Tracks(m'.rs, p0, n', c', s') && m'.rs.bitrate == m.rs.bitrate
    ensures Restamper.Now(m.rs, p0, s) <= Restamper.Now(m'.rs, p0, s')
            <= Restamper.Now(m.rs, p0, s) + Schedule.MAX_STEP
    ensures m'.cache == Schedule.Flush(m.cache, Some(Restamper.Now(m.rs, p0, s) % PCR_CYCLE)).0
    ensures Data(FlushTables(m).1) == Schedule.Flush(m.cache, Some(Restamper.Now(m.rs, p0, s) % PCR_CYCLE)).1
    ensures Restamper.GetPcr(m.rs) == Some(Restamper.Now(m.rs, p0, s) % PCR_CYCLE)
  {
    var slots := FlushAsSlots(cfg, m);
    m' := FlushCbr(cfg, m).0;
    c', s' := SlotsAdvance(m.rs, slots, p0, n, c, s);
    n' := n + |slots|;
    assert Restamper.GetPcr(m.rs) == Some(Restamper.Now(m.rs, p0, s) % PCR_CYCLE) by {
      Restamper.Reading(m.rs, p0, n, c, s);
    }
    FlushCache(cfg, m);
    TablesAreScheduled(m);
  }

  lemma FlushAsSlots(cfg: Config, m: State) returns (slots: seq<Restamper.Slot>)
    requires FlushCbr(cfg, m).1.Some? && FastEnough(cfg, m.rs.bitrate)
    ensures slots == Slots(FlushCbr(cfg, m).1.value)
    ensures FlushCbr(cfg, m).0.rs == Restamper.After(m.rs, slots) && Restamper.AllHonest(m.rs, slots)
    ensures |slots| * Restamper.PACKET_TICKS <= m.rs.bitrate * Schedule.MAX_STEP
  {
    FlushClock(cfg, m);
    MuxCbr.FlushConserves(cfg, m);
    slots := Slots(FlushCbr(cfg, m).1.value);
  }

  /** What was sent at each instant is what the scheduler decides there. */
  ghost predicate Scheduled(cache: Schedule.Cache, ts: seq<nat>, sent: seq<seq<Packet>>) {
    |sent| == |ts| && forall i :: 0 <= i < |ts| ==> sent[i] == Schedule.PacketsAt(cache, ts, i)
  }

  lemma ScheduledCons(cache: Schedule.Cache, t: nat, ts: seq<nat>, first: seq<Packet>, rest: seq<seq<Packet>>)
    requires first == Schedule.Flush(cache, Some(t % PCR_CYCLE)).1
    requires Scheduled(Schedule.Flush(cache, Some(t % PCR_CYCLE)).0, ts, rest)
    ensures Scheduled(cache, [t] + ts, [first] + rest)
  {
    var us, sent := [t] + ts, [first] + rest;
    forall i | 0 <= i < |us| ensures sent[i] == Schedule.PacketsAt(cache, us, i) {
      if i > 0 {
        Schedule.CacheShift(cache, t, ts, i - 1);
        assert us[i] == ts[i - 1];
      }
    }
  }

  lemma OnClockCons(t: nat, ts: seq<nat>, rest: seq<Option<nat>>, next: nat)
    requires OnClock(ts, rest, next) && t <= next <= t + Schedule.MAX_STEP
    ensures OnClock([t] + ts, [Some(t % PCR_CYCLE)] + rest, t)
  {
    var us := [t] + ts;
    forall i, j | 0 <= i <= j < |us| ensures us[i] <= us[j] {
      if i == 0 && j > 0 {
        assert ts[0] <= ts[j - 1];
      }
    }
    forall i | 0 <= i < |us| - 1 ensures us[i + 1] <= us[i] + Schedule.MAX_STEP {
      if i > 0 {
        assert ts[i - 1 + 1] <= ts[i - 1] + Schedule.MAX_STEP;
      }
    }
  }

  lemma {:induction false} CalmIsScheduled(cfg: Config, m: State, events: seq<Event>,
                                           p0: nat, n: nat, c: nat, s: nat) returns (ts: seq<nat>)
    requires MuxReady.Inv(m) && Restamper.Tracks(m.rs, p0, n, c, s) && FastEnough(cfg, m.rs.bitrate)
    requires Calm(cfg, m, events)
    ensures Scheduled(m.cache, ts, TablesSent(cfg, m, events))
    ensures OnClock(ts, Readings(cfg, m, events), Restamper.Now(m.rs, p0, s))
    decreases |events|
  {
    ts := [];
    if events != [] {
      var next := Step(cfg, m, events[0]).0;
      MuxReady.StepKeeps(cfg, m, events[0]);
      var rest, readings := TablesSent(cfg, next, events[1..]), Readings(cfg, next, events[1..]);
      if events[0].FlushAtRate? && FlushCbr(cfg, m).1.Some? {
        var t := Restamper.Now(m.rs, p0, s);
        var m', n', c', s' := FlushAdvances(cfg, m, p0, n, c, s);
        var us := CalmIsScheduled(cfg, m', events[1..], p0, n', c', s');
        ScheduledCons(m.cache, t, us, Data(FlushTables(m).1), rest);
        OnClockCons(t, us, readings, Restamper.Now(m'.rs, p0, s'));
        ts := [t] + us;
      } else {
        if events[0].Chunk? {
          WriteLeavesClock(cfg, m, events[0].bytes);
        } else {
          FlushClock(cfg, m);
        }
        ts := CalmIsScheduled(cfg, next, events[1..], p0, n, c, s);
        assert [] + rest == rest && [] + readings == readings;
      }
    }
  }

  // ----- from the start -----

  /** No table has gone out yet, and nothing has been sent since the clock was set. */
  predicate Unsent(m: State) {
    m.cache.pat.inserted.None? && m.cache.pmt.inserted.None? && m.cache.sdt.inserted.None?
    && m.rs.sent == 0 && (m.rs.first.Some? ==> m.rs.first.value < PCR_CYCLE)
  }

  lemma AcceptPatUnsent(cfg: Config, m: State, section: Bytes, pid: Pid)
    requires Unsent(m)
    ensures Unsent(AcceptPat(cfg, m, section, pid))
  {
  }

  lemma AcceptPmtUnsent(cfg: Config, m: State, section: Bytes, pid: Pid)
    requires Unsent(m)
    ensures Unsent(AcceptPmt(cfg, m, section, pid))
  {
  }

  lemma ProcessTablesUnsent(cfg: Config, m: State, p: Packet)
    requires Unsent(m)
    ensures Unsent(ProcessPat(cfg, m, p)) && Unsent(ProcessPmt(cfg, m, p)) && Unsent(ProcessSdt(cfg, m, p))
  {
    var (reasm, got) := Sections.PushTable(m.reasm, p);
    if got.Some? {
      AcceptPatUnsent(cfg, m.(reasm := reasm), got.value, PktPid(p));
      AcceptPmtUnsent(cfg, m.(reasm := reasm), got.value, PktPid(p));
    }
  }

  lemma EnqueueUnsent(cfg: Config, m: State, p: Packet)
    requires Unsent(m)
    ensures Unsent(Enqueue(cfg, m, p))
  {
    EnqueueLeaves(cfg, m, p);
  }

  lemma HandleClearUnsent(cfg: Config, m: State, p: Packet)
    requires Unsent(m)
    ensures Unsent(HandleClear(cfg, m, p))
  {
    var pid := PktPid(p);
    if pid == PAT_PID || pid == cfg.pmtPid || pid == SDT_PID {
      ProcessTablesUnsent(cfg, m, p);
    }
    if pid != PAT_PID {
      EnqueueUnsent(cfg, m, p);
    }
  }

  lemma HandleUnsent(cfg: Config, m: State, p: Packet)
    requires Unsent(m)
    ensures Unsent(Handle(cfg, m, p))
  {
    HandleClearUnsent(cfg, m.(dirtyCa := false), p);
  }

  lemma {:induction false} HandleAllUnsent(cfg: Config, m: State, ps: seq<Packet>)
    requires Unsent(m)
    ensures Unsent(HandleAll(cfg, m, ps))
    decreases |ps|
  {
    if ps != [] {
      HandleUnsent(cfg, m, ps[0]);
      HandleAllUnsent(cfg, Handle(cfg, m, ps[0]), ps[1..]);
    }
  }

  lemma ReadyCheckUnsent(cfg: Config, m: State)
    requires Unsent(m)
    ensures Unsent(ReadyCheck(cfg, m))
  {
    if !(Dirty(m) || m.isReady || !m.cache.pat.ready || !m.cache.pmt.ready) {
      var n := WithSdt(cfg, m);
      assert Unsent(n);
      if n.v != [] && !DtsAfter(n.v[0].dts, n.v[|n.v| - 1].dts) {
        var q := Probe(cfg, n);
        assert Unsent(q);
        StartUnsent(cfg, q);
      }
    }
  }

  lemma StartUnsent(cfg: Config, m: State)
    requires Unsent(m)
    ensures Unsent(Start(cfg, m))
  {
    AdjustKeeps(cfg, m);
    var b := BufferAdjust(cfg, m);
    assert Unsent(b);
  }

  lemma LocatedUnsent(m: State, chunk: Bytes)
    requires Unsent(m)
    ensures Unsent(Located(Fed(m, chunk)))
  {
  }

  lemma RelievedUnsent(m: State)
    requires Unsent(m)
    ensures Unsent(Relieved(m))
  {
  }

  lemma WriteUnsent(cfg: Config, m: State, chunk: Bytes)
    requires Unsent(m)
    ensures Unsent(Write(cfg, m, chunk))
  {
    var m0 := Located(Fed(m, chunk));
    LocatedUnsent(m, chunk);
    RelievedUnsent(m0);
    DemultiplexUnsent(cfg, Relieved(m0));
  }

  lemma DemultiplexUnsent(cfg: Config, m: State)
    requires Unsent(m)
    ensures Unsent(Demultiplex(cfg, m))
  {
    var (packets, g) := Framing.Demux(m.framer.buf);
    HandleAllUnsent(cfg, m, packets);
    ReadyCheckUnsent(cfg, HandleAll(cfg, m, packets).(framer := g));
  }

  /** A handler that has only received so far. */
  function Receive(cfg: Config, m: State, chunks: seq<Bytes>): State
    decreases |chunks|
  {
    if chunks == [] then m else Receive(cfg, Write(cfg, m, chunks[0]), chunks[1..])
  }

  lemma {:induction false} ReceiveKeeps(cfg: Config, m: State, chunks: seq<Bytes>)
    requires MuxReady.Inv(m) && Unsent(m)
    ensures MuxReady.Inv(Receive(cfg, m, chunks)) && Unsent(Receive(cfg, m, chunks))
    decreases |chunks|
  {
    if chunks != [] {
      MuxReady.WriteKeeps(cfg, m, chunks[0]);
      WriteUnsent(cfg, m, chunks[0]);
      ReceiveKeeps(cfg, Write(cfg, m, chunks[0]), chunks[1..]);
    }
  }

  /** Which table the i-th flush sends, on the clock `ts`. */
  function SentAt(m: State, ts: seq<nat>, i: nat): Option<Schedule.Which>
    requires i < |ts|
  {
    Schedule.SentAt(m.cache, ts, i)
  }

  /** After `i` flushes the last copy of a table is not older than its period and `steps` steps of
    * 50 ms. */
  predicate Recent(m: State, ts: seq<nat>, w: Schedule.Which, i: nat, steps: nat)
    requires 0 < i <= |ts|
  {
    Schedule.Recent(Schedule.LastBefore(m.cache, ts, w, i), ts[i - 1],
                    Schedule.PeriodMs(w) * 27_000 + steps * Schedule.MAX_STEP)
  }

  /** From the first flush on for the PAT, the second for the PMT and the third for the SDT. */
  predicate AllRecent(m: State, ts: seq<nat>, i: nat)
    requires 0 < i <= |ts|
  {
    && Recent(m, ts, Schedule.Pat, i, 0)
    && (i >= 2 ==> Recent(m, ts, Schedule.Pmt, i, 1))
    && (i >= 3 ==> Recent(m, ts, Schedule.Sdt, i, 2))
  }

  /** No two copies of a table are closer than its period; after every flush each table has gone out,
    * and not longer ago than its period and the steps it may have had to give way. */
  ghost predicate OnSchedule(m: State, ts: seq<nat>) {
    && (forall w, i, j :: 0 <= i < j < |ts| && SentAt(m, ts, i) == Some(w) == SentAt(m, ts, j)
          ==> ts[j] - ts[i] > Schedule.PeriodMs(w) * 27_000)
    && (forall i :: 0 < i <= |ts| ==> AllRecent(m, ts, i))
  }

  lemma FreshOnSchedule(m: State, ts: seq<nat>)
    requires Schedule.Fresh(m.cache) && Schedule.Ordered(ts) && Schedule.SmallSteps(ts)
    ensures OnSchedule(m, ts)
  {
    forall w, i, j | 0 <= i < j < |ts| && SentAt(m, ts, i) == Some(w) == SentAt(m, ts, j)
      ensures ts[j] - ts[i] > Schedule.PeriodMs(w) * 27_000
    {
      Schedule.NeverTooSoon(m.cache, ts, w, i, j);
    }
    forall i | 0 < i <= |ts| ensures AllRecent(m, ts, i) {
      FreshRecent(m, ts, i);
    }
  }

  lemma FreshRecent(m: State, ts: seq<nat>, i: nat)
    requires 0 < i <= |ts| && Schedule.Fresh(m.cache) && Schedule.Ordered(ts) && Schedule.SmallSteps(ts)
    ensures AllRecent(m, ts, i)
  {
    Schedule.AgeBound(m.cache, ts, i);
  }

  /** Let a new handler receive anything until it is ready, then run it calmly at a rate at which a
    * datagram takes at most 50 ms.  Its clock, read at each flush, runs from the value it was started
    * at through the instants `ts`, which it determines (`OneTimeline`); what each flush sends of the
    * tables is what the scheduler decides there, and that is on schedule. */
  lemma TablesOnSchedule(cfg: Config, bitrate: nat, chunks: seq<Bytes>, m: State, events: seq<Event>)
    returns (ts: seq<nat>)
    requires m == Receive(cfg, Initial(bitrate), chunks) && m.isReady
    requires FastEnough(cfg, m.rs.bitrate) && Calm(cfg, m, events)
    ensures m.rs.first.Some? && OnClock(ts, Readings(cfg, m, events), m.rs.first.value)
    ensures Scheduled(m.cache, ts, TablesSent(cfg, m, events))
    ensures OnSchedule(m, ts)
  {
    ReceiveKeeps(cfg, Initial(bitrate), chunks);
    ts := CalmFromFresh(cfg, m, events);
  }

  lemma CalmFromFresh(cfg: Config, m: State, events: seq<Event>) returns (ts: seq<nat>)
    requires MuxReady.Inv(m) && m.isReady && Unsent(m) && FastEnough(cfg, m.rs.bitrate) && Calm(cfg, m, events)
    ensures OnClock(ts, Readings(cfg, m, events), m.rs.first.value)
    ensures Scheduled(m.cache, ts, TablesSent(cfg, m, events)) && OnSchedule(m, ts)
  {
    var p0 := m.rs.first.value;
    assert Restamper.Tracks(m.rs, p0, 0, 0, 0);
    Restamper.ZeroElapsed(m.rs.bitrate);
    assert Restamper.Now(m.rs, p0, 0) == p0;
    ts := CalmIsScheduled(cfg, m, events, p0, 0, 0, 0);
    FreshOnSchedule(m, ts);
  }
}
