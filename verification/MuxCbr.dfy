/** One flush at a constant bit rate: what it conserves, what the packets it sends carry, and how far
  * ahead of the clock they leave. */
module MuxCbr {
  import opened Common
  import opened Clock
  import opened TsPacket
  import opened Queues
  import opened Mux
  import MuxReady
  import Restamper
  import Schedule

  // ----- conservation -----

  function CountKind(es: seq<Emitted>, k: Kind): nat {
    if es == [] then 0 else (if es[0].kind == k then 1 else 0) + CountKind(es[1..], k)
  }

  /** The queue packets among the emitted ones that came from one queue, in the order sent. */
  function TakenFrom(es: seq<Emitted>, s: Source): Queue {
    if es == [] then []
    else (if es[0].taken.Some? && es[0].source == s then [es[0].taken.value] else []) + TakenFrom(es[1..], s)
  }

  function Total(c: Counts): nat {
    c.psi + c.nulls + c.payload + c.adjustNulls + c.adjustPayload
  }

  /** The part of the state that packets flow through. */
  datatype Flow = Flow(a: Queue, v: Queue, counts: Counts)

  function FlowOf(m: State): Flow {
    Flow(m.a, m.v, m.counts)
  }

  function Counted(c: Counts, es: seq<Emitted>): Counts {
    Counts(c.psi + CountKind(es, Table), c.nulls + CountKind(es, Null), c.payload + CountKind(es, Payload),
           c.adjustNulls + CountKind(es, AdjustNull), c.adjustPayload + CountKind(es, AdjustPayload))
  }

  /** Each counter grew by its kind of packet; the queues lost from the front exactly what was taken. */
  ghost predicate Conserved(m: Flow, n: Flow, es: seq<Emitted>) {
    && n.counts == Counted(m.counts, es)
    && m.a == TakenFrom(es, FromA) + n.a && m.v == TakenFrom(es, FromV) + n.v
    && |TakenFrom(es, FromA)| + |TakenFrom(es, FromV)| == CountKind(es, Payload) + CountKind(es, AdjustPayload)
  }

  function AddOne(c: Counts, k: Kind): Counts {
    match k
    case Table => c.(psi := c.psi + 1)
    case Null => c.(nulls := c.nulls + 1)
    case Payload => c.(payload := c.payload + 1)
    case AdjustNull => c.(adjustNulls := c.adjustNulls + 1)
    case AdjustPayload => c.(adjustPayload := c.adjustPayload + 1)
  }

  lemma CountOne(e: Emitted, k: Kind)
    ensures CountKind([e], k) == if e.kind == k then 1 else 0
  {
    assert [e][1..] == [];
  }

  lemma CountedOne(c: Counts, e: Emitted)
    ensures Counted(c, [e]) == AddOne(c, e.kind)
    ensures CountKind([e], Payload) + CountKind([e], AdjustPayload)
            == if e.kind in {Payload, AdjustPayload} then 1 else 0
  {
    CountOne(e, Table);
    CountOne(e, Null);
    CountOne(e, Payload);
    CountOne(e, AdjustNull);
    CountOne(e, AdjustPayload);
  }

  lemma TakenOne(e: Emitted, s: Source)
    ensures TakenFrom([e], s) == if e.taken.Some? && e.source == s then [e.taken.value] else []
  {
    assert [e][1..] == [];
  }

  lemma {:induction false} TakenAppend(xs: seq<Emitted>, ys: seq<Emitted>, s: Source)
    ensures TakenFrom(xs + ys, s) == TakenFrom(xs, s) + TakenFrom(ys, s)
    decreases |xs|
  {
    if xs == [] {
      assert xs + ys == ys;
    } else {
      assert (xs + ys)[1..] == xs[1..] + ys;
      TakenAppend(xs[1..], ys, s);
    }
  }

  lemma {:induction false} CountAppend(xs: seq<Emitted>, ys: seq<Emitted>, k: Kind)
    ensures CountKind(xs + ys, k) == CountKind(xs, k) + CountKind(ys, k)
    decreases |xs|
  {
    if xs == [] {
      assert xs + ys == ys;
    } else {
      assert (xs + ys)[1..] == xs[1..] + ys;
      CountAppend(xs[1..], ys, k);
    }
  }

  lemma ConservedAppend(m: Flow, n: Flow, o: Flow, xs: seq<Emitted>, ys: seq<Emitted>)
    requires Conserved(m, n, xs) && Conserved(n, o, ys)
    ensures Conserved(m, o, xs + ys)
  {
    TakenAppend(xs, ys, FromA);
    TakenAppend(xs, ys, FromV);
    CountAppend(xs, ys, Table);
    CountAppend(xs, ys, Null);
    CountAppend(xs, ys, Payload);
    CountAppend(xs, ys, AdjustNull);
    CountAppend(xs, ys, AdjustPayload);
    Regroup(TakenFrom(xs, FromA), TakenFrom(ys, FromA), o.a);
    Regroup(TakenFrom(xs, FromV), TakenFrom(ys, FromV), o.v);
  }

  lemma NothingConserved(m: Flow)
    ensures Conserved(m, m, [])
  {
  }

  lemma Regroup(x: Queue, y: Queue, z: Queue)
    ensures x + (y + z) == x + y + z
  {
  }

  lemma ProcessKeepsFlow(cfg: Config, m: State, pkt: TsPkt, disc: bool)
    ensures FlowOf(ProcessAs(cfg, m, pkt, disc).0) == FlowOf(m)
  {
  }

  lemma TakeConserves(m: State, s: Source, kind: Kind, e: Emitted)
    requires s != Neither && (s == FromA ==> m.a != []) && (s == FromV ==> m.v != [])
    requires kind in {Payload, AdjustPayload}
    requires e.kind == kind && e.source == s && e.taken == Some(Take(m, s, kind).1)
    ensures Conserved(FlowOf(m), FlowOf(Take(m, s, kind).0), [e])
  {
    CountedOne(m.counts, e);
    TakenOne(e, FromA);
    TakenOne(e, FromV);
    if s == FromA {
      HeadTaken(m.a);
      NoneTaken(m.v);
    } else {
      HeadTaken(m.v);
      NoneTaken(m.a);
    }
  }

  lemma HeadTaken(q: Queue)
    requires q != []
    ensures q == [q[0]] + q[1..]
  {
  }

  lemma NoneTaken(q: Queue)
    ensures q == [] + q
  {
  }

  lemma EmitConserves(cfg: Config, m: State, s: Source, kind: Kind)
    requires s != Neither && (s == FromA ==> m.a != []) && (s == FromV ==> m.v != [])
    requires kind in {Payload, AdjustPayload}
    ensures var (n, e) := EmitFrom(cfg, m, s, kind); Conserved(FlowOf(m), FlowOf(n), [e])
  {
    var (m1, pkt) := Take(m, s, kind);
    TakeConserves(m, s, kind, EmitFrom(cfg, m, s, kind).1);
    ProcessKeepsFlow(cfg, m1, pkt, MustResync(m1, pkt));
  }

  lemma NullConserves(m: State, kind: Kind)
    requires kind in {Null, AdjustNull}
    ensures var (n, e) := EmitNull(m, kind); Conserved(FlowOf(m), FlowOf(n), [e])
  {
    CountedOne(m.counts, EmitNull(m, kind).1);
    TakenOne(EmitNull(m, kind).1, FromA);
    TakenOne(EmitNull(m, kind).1, FromV);
  }

  ghost predicate SlotConserved(m: State, r: (State, Emitted)) {
    Conserved(FlowOf(m), FlowOf(r.0), [r.1])
  }

  lemma SlotConserves(cfg: Config, m: State)
    ensures SlotConserved(m, CbrSlot(cfg, m))
  {
    var t := m.(rs := Restamper.Tick(m.rs));
    match Decide(cfg, t)
    case SendNull(kind) => NullConserves(t, kind);
    case SendFrom(s, kind) => EmitConserves(cfg, t, s, kind);
  }

  /** Two flows joined by some packets, as the loop leaves them. */
  ghost predicate LoopConserved(m: State, r: (State, seq<Emitted>)) {
    Conserved(FlowOf(m), FlowOf(r.0), r.1)
  }

  lemma LoopConservedStep(m: State, slot: (State, Emitted), rest: (State, seq<Emitted>), r: (State, seq<Emitted>))
    requires SlotConserved(m, slot) && LoopConserved(slot.0, rest)
    requires r.0 == rest.0 && r.1 == [slot.1] + rest.1
    ensures LoopConserved(m, r)
  {
    ConservedAppend(FlowOf(m), FlowOf(slot.0), FlowOf(rest.0), [slot.1], rest.1);
  }

  lemma {:induction false} LoopConserves(cfg: Config, m: State, n: nat)
    ensures LoopConserved(m, CbrLoop(cfg, m, n))
    decreases n
  {
    if n == 0 {
      NothingConserved(FlowOf(m));
    } else {
      var slot := CbrSlot(cfg, m);
      var rest := CbrLoop(cfg, slot.0, n - 1);
      assert SlotConserved(m, slot) by {
        SlotConserves(cfg, m);
      }
      assert LoopConserved(slot.0, rest) by {
        LoopConserves(cfg, slot.0, n - 1);
      }
      assert CbrLoop(cfg, m, n) == (rest.0, [slot.1] + rest.1) by {
        CbrLoopTurn(cfg, m, n);
      }
      LoopConservedStep(m, slot, rest, (rest.0, [slot.1] + rest.1));
    }
  }

  lemma TablesConserve(m: State)
    ensures Conserved(FlowOf(m), FlowOf(FlushTables(m).0), FlushTables(m).1) && |FlushTables(m).1| <= 1
  {
    var out := Schedule.Flush(m.cache, Restamper.GetPcr(m.rs)).1;
    if out == [] {
      NothingConserved(FlowOf(m));
    } else {
      CountedOne(m.counts, TableEmitted(out[0]));
      TakenOne(TableEmitted(out[0]), FromA);
      TakenOne(TableEmitted(out[0]), FromV);
    }
  }

  lemma {:induction false} SumOfKinds(es: seq<Emitted>)
    ensures CountKind(es, Table) + CountKind(es, Null) + CountKind(es, Payload)
            + CountKind(es, AdjustNull) + CountKind(es, AdjustPayload) == |es|
    decreases |es|
  {
    if es != [] {
      SumOfKinds(es[1..]);
    }
  }

  // ----- what the packets sent carry -----

  /** A packet from a queue is sent as it was received, but for the discontinuity mark that goes with a
    * resync and the six clock bytes of a stamp; the packets with PCR on the PCR PID, and no others,
    * are stamped.  Anything else but a table is a null packet. */
  ghost predicate Carries(cfg: Config, e: Emitted) {
    match e.taken
    case None => e.kind == Table || (e.kind in {Null, AdjustNull} && e.slot.data == NULL_PACKET)
    case Some(pkt) =>
      var p, x := pkt.data, e.slot.data;
      && e.kind in {Payload, AdjustPayload}
      && (forall k :: 0 <= k < 5 || 12 <= k < TS_PACKET_SIZE ==> x[k] == p[k])
      && x[5] % 128 == p[5] % 128 && (e.slot.resync.None? ==> x[5] == p[5])
      && (e.slot.resync.Some? ==> (GetDiscontinuity(x) <==> AfControl(p) >= 2 && p[4] >= 1))
      && (e.slot.stamp.Some? <==> pkt.pid == cfg.pcrPid && IsPcrPresent(p) && e.clock.Some?)
      && (if e.slot.stamp.Some? then ExtractPcr(x) == e.slot.stamp else x[6..12] == p[6..12])
  }

  ghost predicate AllCarry(cfg: Config, es: seq<Emitted>) {
    forall k :: 0 <= k < |es| ==> Carries(cfg, es[k])
  }

  /** `process_packet` on a packet, its queue and kind aside. */
  lemma ProcessCarries(cfg: Config, m: State, pkt: TsPkt, disc: bool, e: Emitted)
    requires var (n, slot) := ProcessAs(cfg, m, pkt, disc);
             e.slot == slot && e.clock == Restamper.GetPcr(n.rs)
    requires e.taken == Some(pkt) && e.kind in {Payload, AdjustPayload}
    ensures Carries(cfg, e)
  {
    var data := if disc then SetDiscontinuity(pkt.data) else pkt.data;
    var m1 := if disc then Resynced(m, pkt.dts) else m;
    SetDiscontinuityKeeps(pkt.data);
    Restamper.ProcessFacts(m1.rs, data);
    ProcessKeepsReading(m1.rs, data);
    assert data[6..12] == pkt.data[6..12];
  }

  lemma SlotCarries(cfg: Config, m: State)
    ensures Carries(cfg, CbrSlot(cfg, m).1)
  {
    var t := Ticked(m);
    match Decide(cfg, t)
    case SendNull(kind) =>
    case SendFrom(s, kind) =>
      var (t1, pkt) := Take(t, s, kind);
      ProcessCarries(cfg, t1, pkt, MustResync(t1, pkt), EmitFrom(cfg, t, s, kind).1);
  }

  lemma {:induction false} LoopCarries(cfg: Config, m: State, n: nat)
    ensures AllCarry(cfg, CbrLoop(cfg, m, n).1)
    ensures CountKind(CbrLoop(cfg, m, n).1, Table) == 0
    decreases n
  {
    if n > 0 {
      var slot := CbrSlot(cfg, m);
      var rest := CbrLoop(cfg, slot.0, n - 1).1;
      SlotCarries(cfg, m);
      LoopCarries(cfg, slot.0, n - 1);
      CbrLoopTurn(cfg, m, n);
      CarriesCons(cfg, slot.1, rest);
      SlotIsNoTable(cfg, m);
    }
  }

  lemma SlotIsNoTable(cfg: Config, m: State)
    ensures CbrSlot(cfg, m).1.kind != Table
  {
  }

  lemma CarriesCons(cfg: Config, e: Emitted, es: seq<Emitted>)
    requires Carries(cfg, e) && AllCarry(cfg, es)
    ensures AllCarry(cfg, [e] + es)
    ensures CountKind([e] + es, Table) == (if e.kind == Table then 1 else 0) + CountKind(es, Table)
  {
    assert ([e] + es)[1..] == es;
  }

  /** How many packets a flush sends: a datagram's worth, except that a datagram too small for any
    * packet may still carry a table. */
  function FlushSize(cfg: Config, tables: nat): nat {
    if PktSize(cfg) < TS_PACKET_SIZE then tables else PktSize(cfg) / TS_PACKET_SIZE
  }

  /** A flush of a ready handler conserves: packets, counters and queues add up, and both queues leave
    * in arrival order.  It sends exactly the configured number of packets whenever the configured
    * size holds one: first the table the scheduler picks, if any, then queue packets as they were
    * received and null packets. */
  lemma FlushConserves(cfg: Config, m: State)
    requires FlushCbr(cfg, m).1.Some?
    ensures var (n, out) := FlushCbr(cfg, m);
            var es := out.value;
            && Conserved(FlowOf(m), FlowOf(n), es)
            && Total(n.counts) == Total(m.counts) + |es|
            && |es| == FlushSize(cfg, |FlushTables(m).1|)
            && |Concat(Data(es))| == TS_PACKET_SIZE * |es|
            && AllCarry(cfg, es)
            && (var tables := Schedule.Flush(m.cache, Restamper.GetPcr(m.rs)).1;
                |tables| <= |es| && Data(es[..|tables|]) == tables && CountKind(es, Table) == |tables|)
  {
    var (m1, tables) := FlushTables(m);
    var k := SaturatingSub(PktSize(cfg) / TS_PACKET_SIZE, |tables|);
    TablesConserve(m);
    LoopConserves(cfg, m1, k);
    var (n, es) := CbrLoop(cfg, m1, k);
    ConservedAppend(FlowOf(m), FlowOf(m1), FlowOf(n), tables, es);
    SumOfKinds(tables + es);
    LoopCarries(cfg, m1, k);
    FlushCarries(cfg, m, tables, es);
  }

  lemma FlushCarries(cfg: Config, m: State, tables: seq<Emitted>, es: seq<Emitted>)
    requires tables == FlushTables(m).1 && AllCarry(cfg, es) && CountKind(es, Table) == 0
    ensures AllCarry(cfg, tables + es)
    ensures var out := Schedule.Flush(m.cache, Restamper.GetPcr(m.rs)).1;
            && |out| == |tables| && Data((tables + es)[..|out|]) == out
            && CountKind(tables + es, Table) == |out|
  {
    assert (tables + es)[..|tables|] == tables;
    CountAppend(tables, es, Table);
    if tables != [] {
      CountOne(tables[0], Table);
      assert tables == [tables[0]];
    }
  }

  // ----- lead time -----

  /** Signed distance, in 90 kHz ticks, of a stamp ahead of the clock. */
  function LeadTicks(dts: nat, pcr: nat): int {
    DtsSignedDelta(dts, pcr / 300)
  }

  /** `[0, 800]` in truncated milliseconds is `[-89, 72089]` in ticks. */
  lemma WindowInTicks(ticks: int)
    ensures 0 <= TruncDiv(ticks, 90) <= 800 <==> -89 <= ticks <= 72089
  {
  }

  lemma ResyncLead(dts: nat)
    ensures LeadTicks(dts, ResyncDts(dts) * 300) == 27000
  {
    var r := ResyncDts(dts);
    var k := (dts - 27000) / DTS_CYCLE;
    assert dts - 27000 == k * DTS_CYCLE + r;
    assert r * 300 / 300 == r;
    DtsModStep(27000, k);
    assert (dts - r) % DTS_CYCLE == (27000 + k * DTS_CYCLE) % DTS_CYCLE;
  }

  /** Stamping does not move the clock. */
  lemma ProcessKeepsReading(r: Restamper.Stamper, p: Packet)
    ensures Restamper.GetPcr(Restamper.Process(r, p).0) == Restamper.GetPcr(r)
  {
    Restamper.ProcessFacts(r, p);
    if Restamper.GetPcr(r).Some? {
      FreshReading(r, Restamper.GetPcr(r).value);
    }
  }

  lemma FreshReading(r: Restamper.Stamper, pcr: nat)
    requires pcr < PCR_CYCLE
    ensures Restamper.GetPcr(r.(first := Some(pcr), sent := 0)) == Some(pcr)
  {
    if r.bitrate != 0 {
      Restamper.ZeroElapsed(r.bitrate);
    }
  }

  /** The lead of a packet in flight: what the clock reads once it has gone. */
  predicate LeadOk(e: Emitted) {
    e.taken.Some? ==>
      e.clock.Some? &&
      var lead := LeadTicks(e.taken.value.dts, e.clock.value);
      -89 <= lead <= 72089 && (e.slot.resync.Some? ==> lead == 27000)
  }

  lemma ProcessLead(cfg: Config, m: State, pkt: TsPkt)
    requires m.rs.first.Some?
    ensures var (n, slot) := ProcessPacket(cfg, m, pkt);
            && Restamper.GetPcr(n.rs).Some?
            && (var lead := LeadTicks(pkt.dts, Restamper.GetPcr(n.rs).value);
                -89 <= lead <= 72089 && (slot.resync.Some? ==> lead == 27000))
  {
    var disc := MustResync(m, pkt);
    var data := if disc then SetDiscontinuity(pkt.data) else pkt.data;
    var m1 := if disc then Resynced(m, pkt.dts) else m;
    ProcessKeepsReading(m1.rs, data);
    if disc {
      MuxReady.ResyncReads(m.rs, ResyncDts(pkt.dts));
      ResyncLead(pkt.dts);
    } else {
      WindowInTicks(LeadTicks(pkt.dts, Restamper.GetPcr(m.rs).value));
    }
  }

  lemma SlotLead(cfg: Config, m: State)
    requires m.rs.first.Some?
    ensures LeadOk(CbrSlot(cfg, m).1)
  {
    var t := m.(rs := Restamper.Tick(m.rs));
    match Decide(cfg, t)
    case SendNull(kind) =>
    case SendFrom(s, kind) =>
      var (t1, pkt) := Take(t, s, kind);
      ProcessLead(cfg, t1, pkt);
  }

  ghost predicate AllLeadsOk(es: seq<Emitted>) {
    forall k :: 0 <= k < |es| ==> LeadOk(es[k])
  }

  lemma {:induction false} LoopLead(cfg: Config, m: State, n: nat)
    requires MuxReady.Inv(m) && m.isReady
    ensures AllLeadsOk(CbrLoop(cfg, m, n).1)
    decreases n
  {
    if n > 0 {
      SlotLead(cfg, m);
      MuxReady.CbrSlotKeeps(cfg, m);
      MuxReady.FlowKeepsInv(m, CbrSlot(cfg, m).0);
      LoopLead(cfg, CbrSlot(cfg, m).0, n - 1);
    }
  }

  /** In every reachable state, whatever the two clocks' wrapped values: each payload packet a flush
    * sends leaves with its DTS between 89 ticks behind and 72089 ticks ahead of the clock, and exactly
    * 300 ms ahead if it resynchronised the clock. */
  lemma LeadTimeWindow(cfg: Config, bitrate: nat, events: seq<Event>)
    ensures var m := Run(cfg, Initial(bitrate), events).0;
            FlushCbr(cfg, m).1.Some? ==> AllLeadsOk(FlushCbr(cfg, m).1.value)
  {
    var m := Run(cfg, Initial(bitrate), events).0;
    MuxReady.RunKeeps(cfg, Initial(bitrate), events);
    if FlushCbr(cfg, m).1.Some? {
      var (m1, tables) := FlushTables(m);
      MuxReady.FlushSynced(m.cache, Restamper.GetPcr(m.rs));
      var k := SaturatingSub(PktSize(cfg) / TS_PACKET_SIZE, |tables|);
      LoopLead(cfg, m1, k);
      var es := CbrLoop(cfg, m1, k).1;
      assert forall i :: 0 <= i < |tables| ==> LeadOk(tables[i]);
    }
  }
}
