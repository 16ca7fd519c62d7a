/** What goes through the multiplexer over whole runs: on each queue, the packets that were put there are
  * the packets taken from it, followed by those that are still there. */
module MuxFlow {
  import opened Common
  import opened TsPacket
  import opened Queues
  import opened Mux
  import MuxCbr
  import MuxClock
  import MuxReady

  // ----- what is put on the queues -----

  /** The packets that get as far as the queues: clear ones on the audio and video PIDs, while neither PAT
    * nor PMT has changed. */
  predicate ForQueue(cfg: Config, m: State, p: Packet) {
    var pid := PktPid(p);
    && ScramblingControl(p) == 0 && !m.dirtyPat && !m.dirtyPmt
    && pid != NULL_PID && pid != PAT_PID && pid != SDT_PID
    && !(pid == cfg.pmtPid && (!m.cache.pmt.ready || !m.isReady))
    && (IsAudio(cfg, pid) || IsVideo(cfg, pid))
  }

  function Admitted(cfg: Config, m: State, p: Packet, s: Source): Queue {
    if ForQueue(cfg, m, p) && Entry(cfg, m, p).Some? && s == (if IsVideo(cfg, PktPid(p)) then FromV else FromA)
    then [Entry(cfg, m, p).value]
    else []
  }

  lemma EnqueueAdmits(cfg: Config, m: State, p: Packet)
    ensures var n, e := Enqueue(cfg, m, p), Entry(cfg, m, p);
            && n.a == m.a + (if e.Some? && !IsVideo(cfg, PktPid(p)) then [e.value] else [])
            && n.v == m.v + (if e.Some? && IsVideo(cfg, PktPid(p)) then [e.value] else [])
  {
    assert m.a + [] == m.a && m.v + [] == m.v;
  }

  lemma HandleAdmits(cfg: Config, m: State, p: Packet)
    ensures Handle(cfg, m, p).a == m.a + Admitted(cfg, m, p, FromA)
    ensures Handle(cfg, m, p).v == m.v + Admitted(cfg, m, p, FromV)
  {
    assert m.a + [] == m.a && m.v + [] == m.v;
    var n := m.(dirtyCa := false);
    if ScramblingControl(p) == 0 {
      if ForQueue(cfg, m, p) {
        EnqueueAdmits(cfg, n, p);
      } else {
        OthersLeaveQueues(cfg, n, p);
      }
    }
  }

  lemma OthersLeaveQueues(cfg: Config, m: State, p: Packet)
    requires !ForQueue(cfg, m, p) && ScramblingControl(p) == 0 && !m.dirtyCa
    ensures HandleClear(cfg, m, p).a == m.a && HandleClear(cfg, m, p).v == m.v
  {
    PatLeavesQueues(cfg, m, p);
    PmtLeavesQueues(cfg, m, p);
    SdtLeavesQueues(cfg, m, p);
  }

  lemma PatLeavesQueues(cfg: Config, m: State, p: Packet)
    ensures ProcessPat(cfg, m, p).a == m.a && ProcessPat(cfg, m, p).v == m.v
  {
  }

  lemma PmtLeavesQueues(cfg: Config, m: State, p: Packet)
    ensures ProcessPmt(cfg, m, p).a == m.a && ProcessPmt(cfg, m, p).v == m.v
  {
  }

  lemma SdtLeavesQueues(cfg: Config, m: State, p: Packet)
    ensures ProcessSdt(cfg, m, p).a == m.a && ProcessSdt(cfg, m, p).v == m.v
  {
  }

  function AdmittedAll(cfg: Config, m: State, ps: seq<Packet>, s: Source): Queue
    decreases |ps|
  {
    if ps == [] then []
    else Admitted(cfg, m, ps[0], s) + AdmittedAll(cfg, Handle(cfg, m, ps[0]), ps[1..], s)
  }

  lemma {:induction false} HandleAllAdmits(cfg: Config, m: State, ps: seq<Packet>)
    ensures HandleAll(cfg, m, ps).a == m.a + AdmittedAll(cfg, m, ps, FromA)
    ensures HandleAll(cfg, m, ps).v == m.v + AdmittedAll(cfg, m, ps, FromV)
    decreases |ps|
  {
    if ps == [] {
      assert m.a + [] == m.a && m.v + [] == m.v;
    } else {
      var n := Handle(cfg, m, ps[0]);
      HandleAdmits(cfg, m, ps[0]);
      HandleAllAdmits(cfg, n, ps[1..]);
      MuxCbr.Regroup(m.a, Admitted(cfg, m, ps[0], FromA), AdmittedAll(cfg, n, ps[1..], FromA));
      MuxCbr.Regroup(m.v, Admitted(cfg, m, ps[0], FromV), AdmittedAll(cfg, n, ps[1..], FromV));
    }
  }

  // ----- nothing received is left out -----

  /** The queue a packet belongs on, by its header alone. */
  function Destination(cfg: Config, p: Packet): Source {
    var pid := PktPid(p);
    if ScramblingControl(p) != 0 || pid in {NULL_PID, PAT_PID, SDT_PID} then Neither
    else if IsVideo(cfg, pid) then FromV
    else if IsAudio(cfg, pid) then FromA
    else Neither
  }

  /** The PIDs with known stamps once the packet has been received. */
  function Known(cfg: Config, known: set<Pid>, p: Packet): set<Pid> {
    if Destination(cfg, p) != Neither && PtsDts(p, PktPid(p)).Some? then known + {PktPid(p)} else known
  }

  /** The packets that belong on a queue, from the first with stamps on each PID on. */
  function Expected(cfg: Config, known: set<Pid>, ps: seq<Packet>, s: Source): seq<Packet>
    decreases |ps|
  {
    if ps == [] then []
    else
      var known' := Known(cfg, known, ps[0]);
      (if s != Neither && Destination(cfg, ps[0]) == s && PktPid(ps[0]) in known' then [ps[0]] else [])
      + Expected(cfg, known', ps[1..], s)
  }

  /** The PIDs with known stamps once all have been received. */
  function KnownAfter(cfg: Config, known: set<Pid>, ps: seq<Packet>): set<Pid>
    decreases |ps|
  {
    if ps == [] then known else KnownAfter(cfg, Known(cfg, known, ps[0]), ps[1..])
  }

  /** All that belong on a queue. */
  function OnQueue(cfg: Config, ps: seq<Packet>, s: Source): seq<Packet> {
    if ps == [] then [] else (if Destination(cfg, ps[0]) == s then [ps[0]] else []) + OnQueue(cfg, ps[1..], s)
  }

  /** With stamps known on every PID of a queue, none of its packets is left out. */
  lemma {:induction false} AllExpected(cfg: Config, known: set<Pid>, ps: seq<Packet>, s: Source)
    requires s != Neither
    requires forall p :: p in ps && Destination(cfg, p) == s ==> PktPid(p) in known
    ensures Expected(cfg, known, ps, s) == OnQueue(cfg, ps, s)
    decreases |ps|
  {
    if ps != [] {
      assert ps[0] in ps;
      AllExpected(cfg, Known(cfg, known, ps[0]), ps[1..], s);
    }
  }

  lemma {:induction false} ExpectedAppend(cfg: Config, known: set<Pid>, ps: seq<Packet>, qs: seq<Packet>, s: Source)
    ensures Expected(cfg, known, ps + qs, s)
            == Expected(cfg, known, ps, s) + Expected(cfg, KnownAfter(cfg, known, ps), qs, s)
    decreases |ps|
  {
    if ps == [] {
      assert ps + qs == qs;
    } else {
      assert (ps + qs)[1..] == ps[1..] + qs;
      ExpectedAppend(cfg, Known(cfg, known, ps[0]), ps[1..], qs, s);
    }
  }

  predicate Flowing(m: State) {
    m.isReady && MuxReady.Complete(m)
  }

  lemma AdmitsExpected(cfg: Config, m: State, p: Packet, s: Source)
    requires Flowing(m) && s != Neither
    ensures var d := Destination(cfg, p);
            var known := Known(cfg, m.lastStamps.Keys, p);
            && Admitted(cfg, m, p, s) == (if ForQueue(cfg, m, p) && d == s && PktPid(p) in known
                                          then [Entry(cfg, m, p).value] else [])
            && (ForQueue(cfg, m, p) <==> d != Neither)
            && (Entry(cfg, m, p).Some? ==> Entry(cfg, m, p).value.data == p)
  {
  }

  lemma StampsKnown(cfg: Config, m: State, p: Packet)
    requires Flowing(m)
    ensures Handle(cfg, m, p).lastStamps.Keys == Known(cfg, m.lastStamps.Keys, p)
  {
    var n := m.(dirtyCa := false);
    if ScramblingControl(p) == 0 && ForQueue(cfg, n, p) {
      EnqueueStamps(cfg, n, p);
    } else if ScramblingControl(p) == 0 {
      SdtLeavesStamps(cfg, n, p);
    }
  }

  lemma EnqueueStamps(cfg: Config, m: State, p: Packet)
    ensures Enqueue(cfg, m, p).lastStamps.Keys
            == m.lastStamps.Keys + if PtsDts(p, PktPid(p)).Some? then {PktPid(p)} else {}
  {
    var n := Stamped(m, PktPid(p), PtsDts(p, PktPid(p)));
    if Entry(cfg, m, p).Some? {
      MuxClock.AppendLeaves(cfg, n, Entry(cfg, m, p).value);
    }
  }

  lemma SdtLeavesStamps(cfg: Config, m: State, p: Packet)
    ensures ProcessSdt(cfg, m, p).lastStamps == m.lastStamps
  {
  }

  /** What a ready handler puts on a queue are exactly the clear packets received on its PIDs, as they
    * were received and in that order, each PID from its first stamp on. */
  lemma {:induction false} AllAdmitted(cfg: Config, m: State, ps: seq<Packet>, s: Source)
    requires Flowing(m) && s != Neither
    ensures PacketsOf(AdmittedAll(cfg, m, ps, s)) == Expected(cfg, m.lastStamps.Keys, ps, s)
    ensures HandleAll(cfg, m, ps).lastStamps.Keys == KnownAfter(cfg, m.lastStamps.Keys, ps)
    decreases |ps|
  {
    if ps != [] {
      var n := Handle(cfg, m, ps[0]);
      MuxClock.HandleLeaves(cfg, m, ps[0]);
      StampsKnown(cfg, m, ps[0]);
      AllAdmitted(cfg, n, ps[1..], s);
      AdmitsExpected(cfg, m, ps[0], s);
      PacketsJoin(Admitted(cfg, m, ps[0], s), AdmittedAll(cfg, n, ps[1..], s));
    }
  }

  lemma PacketsJoin(xs: seq<TsPkt>, ys: seq<TsPkt>)
    ensures PacketsOf(xs + ys) == PacketsOf(xs) + PacketsOf(ys)
  {
  }

  // ----- what is taken from them -----

  /** The packets a drain takes from one queue. */
  function DrainedFrom(a: Queue, v: Queue, n: nat, s: Source): Queue
    decreases n
  {
    if n == 0 then []
    else match Choose(a, v)
      case Neither => []
      case FromA => (if s == FromA then [a[0]] else []) + DrainedFrom(a[1..], v, n - 1, s)
      case FromV => (if s == FromV then [v[0]] else []) + DrainedFrom(a, v[1..], n - 1, s)
  }

  lemma {:induction false} DrainSplits(a: Queue, v: Queue, n: nat)
    ensures a == DrainedFrom(a, v, n, FromA) + Drain(a, v, n).1
    ensures v == DrainedFrom(a, v, n, FromV) + Drain(a, v, n).2
    decreases n
  {
    if n == 0 || Choose(a, v) == Neither {
      assert [] + a == a && [] + v == v;
    } else if Choose(a, v) == FromA {
      DrainSplits(a[1..], v, n - 1);
      HeadInFront(a, DrainedFrom(a[1..], v, n - 1, FromA), Drain(a, v, n).1);
      assert [] + DrainedFrom(a[1..], v, n - 1, FromV) == DrainedFrom(a[1..], v, n - 1, FromV);
    } else {
      DrainSplits(a, v[1..], n - 1);
      HeadInFront(v, DrainedFrom(a, v[1..], n - 1, FromV), Drain(a, v, n).2);
      assert [] + DrainedFrom(a, v[1..], n - 1, FromA) == DrainedFrom(a, v[1..], n - 1, FromA);
    }
  }

  lemma HeadInFront(q: Queue, drained: Queue, left: Queue)
    requires q != [] && q[1..] == drained + left
    ensures q == [q[0]] + drained + left
  {
    assert q == [q[0]] + q[1..];
  }

  /** Without a bit rate the multiplexer sends what a drain of its queues yields. */
  lemma {:induction false} VbrIsDrain(m: State, n: nat)
    ensures var (r, xs) := VbrLoop(m, n);
            xs == Drain(m.a, m.v, n).0 && r.a == Drain(m.a, m.v, n).1 && r.v == Drain(m.a, m.v, n).2
    decreases n
  {
    if n > 0 && Choose(m.a, m.v) != Neither {
      VbrIsDrain(Counted(GetAOrV(m).0), n - 1);
    }
  }

  /** How many packets `flush_packet_for_vbr` asks for behind the tables. */
  function FreeRoom(cfg: Config, m: State): nat {
    SaturatingSub(PktSize(cfg) / TS_PACKET_SIZE, |CountTables(m).1|)
  }

  /** So what it sends is the tables and then, while the stamps allow it, the merged queues in order. */
  lemma FreeFlushMerges(cfg: Config, m: State, w: nat)
    requires m.isReady && !Dirty(m)
    requires Live(w, m.a) && Live(w, m.v) && Nondecreasing(w, m.a) && Nondecreasing(w, m.v)
    ensures var (r, out) := FlushVbr(cfg, m);
            var drained := Drain(m.a, m.v, FreeRoom(cfg, m));
            && (out.Some? ==> out.value == CountTables(m).1 + PacketsOf(drained.0))
            && r.a == drained.1 && r.v == drained.2 && Nondecreasing(w, drained.0)
  {
    var (m1, tables) := CountTables(m);
    VbrIsDrain(m1, FreeRoom(cfg, m));
    MergeOrder(w, m.a, m.v, FreeRoom(cfg, m));
  }

  // ----- runs -----

  /** What one event puts on a queue. */
  function Put(cfg: Config, m: State, e: Event, s: Source): Queue {
    match e
    case Chunk(bytes) => AdmittedAll(cfg, Located(Fed(m, bytes)), Handled(m, bytes), s)
    case FlushAtRate => []
    case FlushFreely => []
  }

  /** What one event takes from a queue. */
  function Taken(cfg: Config, m: State, e: Event, s: Source): Queue {
    match e
    case Chunk(bytes) => []
    case FlushAtRate => if FlushCbr(cfg, m).1.Some? then MuxCbr.TakenFrom(FlushCbr(cfg, m).1.value, s) else []
    case FlushFreely => if Dirty(m) || !m.isReady then [] else DrainedFrom(m.a, m.v, FreeRoom(cfg, m), s)
  }

  function AllPut(cfg: Config, m: State, events: seq<Event>, s: Source): Queue
    decreases |events|
  {
    if events == [] then []
    else Put(cfg, m, events[0], s) + AllPut(cfg, Step(cfg, m, events[0]).0, events[1..], s)
  }

  function AllTaken(cfg: Config, m: State, events: seq<Event>, s: Source): Queue
    decreases |events|
  {
    if events == [] then []
    else Taken(cfg, m, events[0], s) + AllTaken(cfg, Step(cfg, m, events[0]).0, events[1..], s)
  }

  /** The handler is and stays ready while it receives, and its queues do not overflow: so they are never
    * cleared. */
  ghost predicate Steady(cfg: Config, m: State, events: seq<Event>)
    decreases |events|
  {
    events == [] ||
    (var n := Step(cfg, m, events[0]).0;
     (events[0].Chunk? ==> m.isReady && n.isReady && !Overflow(m, 2)) && Steady(cfg, n, events[1..]))
  }

  lemma WritePuts(cfg: Config, m: State, chunk: Bytes)
    requires m.isReady && Write(cfg, m, chunk).isReady && !Overflow(m, 2)
    ensures var n := Write(cfg, m, chunk);
            n.a == m.a + Put(cfg, m, Chunk(chunk), FromA) && n.v == m.v + Put(cfg, m, Chunk(chunk), FromV)
  {
    var m0 := Located(Fed(m, chunk));
    assert m0.a == m.a && m0.v == m.v && m0.isReady && Relieved(m0) == m0;
    assert m.a + [] == m.a && m.v + [] == m.v;
    if m0.framer.synced && |m0.framer.buf| >= TS_PACKET_SIZE {
      HandleAllAdmits(cfg, m0, Handled(m, chunk));
      MuxClock.HandleAllLeaves(cfg, m0, Handled(m, chunk));
    }
  }

  lemma FlushTakes(cfg: Config, m: State, e: Event)
    requires !e.Chunk?
    ensures var n := Step(cfg, m, e).0;
            m.a == Taken(cfg, m, e, FromA) + n.a && m.v == Taken(cfg, m, e, FromV) + n.v
  {
    assert [] + m.a == m.a && [] + m.v == m.v;
    if e.FlushAtRate? {
      if FlushCbr(cfg, m).1.Some? {
        MuxCbr.FlushConserves(cfg, m);
      }
    } else if !Dirty(m) && m.isReady {
      VbrIsDrain(CountTables(m).0, FreeRoom(cfg, m));
      DrainSplits(m.a, m.v, FreeRoom(cfg, m));
    }
  }

  lemma StepFlows(cfg: Config, m: State, e: Event)
    requires e.Chunk? ==> m.isReady && Step(cfg, m, e).0.isReady && !Overflow(m, 2)
    ensures var n := Step(cfg, m, e).0;
            && m.a + Put(cfg, m, e, FromA) == Taken(cfg, m, e, FromA) + n.a
            && m.v + Put(cfg, m, e, FromV) == Taken(cfg, m, e, FromV) + n.v
  {
    if e.Chunk? {
      WritePuts(cfg, m, e.bytes);
      assert forall q: Queue :: [] + q == q;
    } else {
      FlushTakes(cfg, m, e);
      assert m.a + [] == m.a && m.v + [] == m.v;
    }
  }

  /** Two stretches of flow on one queue. */
  lemma FlowsOn(q0: Queue, put: Queue, taken: Queue, q1: Queue, put': Queue, taken': Queue, q2: Queue)
    requires q0 + put == taken + q1 && q1 + put' == taken' + q2
    ensures q0 + (put + put') == (taken + taken') + q2
  {
    assert q0 + (put + put') == (q0 + put) + put' == taken + (q1 + put');
    assert taken + (taken' + q2) == (taken + taken') + q2;
  }

  /** Over any steady run of receiving and sending, at a bit rate or without, on each queue: what was
    * there and what was put there is, in order, what was taken and what is still there. */
  lemma {:induction false} FlowConserved(cfg: Config, m: State, events: seq<Event>)
    requires Steady(cfg, m, events)
    ensures var n := Run(cfg, m, events).0;
            && m.a + AllPut(cfg, m, events, FromA) == AllTaken(cfg, m, events, FromA) + n.a
            && m.v + AllPut(cfg, m, events, FromV) == AllTaken(cfg, m, events, FromV) + n.v
    decreases |events|
  {
    if events == [] {
      assert m.a + [] == m.a == [] + m.a && m.v + [] == m.v == [] + m.v;
    } else {
      var e, more := events[0], events[1..];
      var n := Step(cfg, m, e).0;
      var r := Run(cfg, n, more).0;
      StepFlows(cfg, m, e);
      FlowConserved(cfg, n, more);
      FlowsOn(m.a, Put(cfg, m, e, FromA), Taken(cfg, m, e, FromA), n.a,
              AllPut(cfg, n, more, FromA), AllTaken(cfg, n, more, FromA), r.a);
      FlowsOn(m.v, Put(cfg, m, e, FromV), Taken(cfg, m, e, FromV), n.v,
              AllPut(cfg, n, more, FromV), AllTaken(cfg, n, more, FromV), r.v);
    }
  }

  // ----- nothing is lost -----

  function HandledIn(m: State, e: Event): seq<Packet> {
    match e
    case Chunk(bytes) => Handled(m, bytes)
    case _ => []
  }

  /** The packets handled over a run of events. */
  function AllHandled(cfg: Config, m: State, events: seq<Event>): seq<Packet>
    decreases |events|
  {
    if events == [] then [] else HandledIn(m, events[0]) + AllHandled(cfg, Step(cfg, m, events[0]).0, events[1..])
  }

  lemma WritePutsExpected(cfg: Config, m: State, chunk: Bytes, s: Source)
    requires Flowing(m) && Write(cfg, m, chunk).isReady && !Overflow(m, 2) && s != Neither
    ensures PacketsOf(Put(cfg, m, Chunk(chunk), s)) == Expected(cfg, m.lastStamps.Keys, Handled(m, chunk), s)
    ensures Write(cfg, m, chunk).lastStamps.Keys == KnownAfter(cfg, m.lastStamps.Keys, Handled(m, chunk))
  {
    var m0 := Located(Fed(m, chunk));
    assert m0.lastStamps == m.lastStamps && Flowing(m0) && Relieved(m0) == m0;
    AllAdmitted(cfg, m0, Handled(m, chunk), s);
    MuxClock.HandleAllLeaves(cfg, m0, Handled(m, chunk));
  }

  lemma StepPutsExpected(cfg: Config, m: State, e: Event, s: Source)
    requires m.isReady && MuxReady.Inv(m) && s != Neither
    requires e.Chunk? ==> Step(cfg, m, e).0.isReady && !Overflow(m, 2)
    ensures var n := Step(cfg, m, e).0;
            && PacketsOf(Put(cfg, m, e, s)) == Expected(cfg, m.lastStamps.Keys, HandledIn(m, e), s)
            && n.lastStamps.Keys == KnownAfter(cfg, m.lastStamps.Keys, HandledIn(m, e))
            && n.isReady && MuxReady.Inv(n)
  {
    MuxReady.StepKeeps(cfg, m, e);
    if e.Chunk? {
      WritePutsExpected(cfg, m, e.bytes, s);
    } else {
      MuxReady.FlushCbrKeeps(cfg, m);
      MuxReady.FlushVbrKeeps(cfg, m);
    }
  }

  lemma {:induction false} AllPutExpected(cfg: Config, m: State, events: seq<Event>, s: Source)
    requires m.isReady && MuxReady.Inv(m) && Steady(cfg, m, events) && s != Neither
    ensures PacketsOf(AllPut(cfg, m, events, s))
            == Expected(cfg, m.lastStamps.Keys, AllHandled(cfg, m, events), s)
    decreases |events|
  {
    if events != [] {
      var n := Step(cfg, m, events[0]).0;
      StepPutsExpected(cfg, m, events[0], s);
      AllPutExpected(cfg, n, events[1..], s);
      ExpectedAppend(cfg, m.lastStamps.Keys, HandledIn(m, events[0]), AllHandled(cfg, n, events[1..]), s);
      PacketsJoin(Put(cfg, m, events[0], s), AllPut(cfg, n, events[1..], s));
    }
  }

  /** From input to output nothing is lost, repeated or reordered: over any steady run, the packets that
    * were on a queue and then all clear packets received on its PIDs are the packets taken from it and
    * then those still there. */
  lemma NothingIsLost(cfg: Config, m: State, events: seq<Event>)
    requires m.isReady && MuxReady.Inv(m) && Steady(cfg, m, events)
    requires forall p :: p in AllHandled(cfg, m, events) && Destination(cfg, p) != Neither ==> PktPid(p) in m.lastStamps
    ensures var n, ps := Run(cfg, m, events).0, AllHandled(cfg, m, events);
            && PacketsOf(m.a) + OnQueue(cfg, ps, FromA) == PacketsOf(AllTaken(cfg, m, events, FromA)) + PacketsOf(n.a)
            && PacketsOf(m.v) + OnQueue(cfg, ps, FromV) == PacketsOf(AllTaken(cfg, m, events, FromV)) + PacketsOf(n.v)
  {
    var n, ps := Run(cfg, m, events).0, AllHandled(cfg, m, events);
    FlowConserved(cfg, m, events);
    AllPutExpected(cfg, m, events, FromA);
    AllPutExpected(cfg, m, events, FromV);
    AllExpected(cfg, m.lastStamps.Keys, ps, FromA);
    AllExpected(cfg, m.lastStamps.Keys, ps, FromV);
    PacketsFlow(m.a, AllPut(cfg, m, events, FromA), AllTaken(cfg, m, events, FromA), n.a);
    PacketsFlow(m.v, AllPut(cfg, m, events, FromV), AllTaken(cfg, m, events, FromV), n.v);
  }

  lemma PacketsFlow(q0: Queue, put: Queue, taken: Queue, q1: Queue)
    requires q0 + put == taken + q1
    ensures PacketsOf(q0) + PacketsOf(put) == PacketsOf(taken) + PacketsOf(q1)
  {
    PacketsJoin(q0, put);
    PacketsJoin(taken, q1);
  }
}
