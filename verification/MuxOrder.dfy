/** The order in which a flush at a constant bit rate takes packets from the two queues
  * (src/mux.rs:1201-1386): by their stamps across both, and exactly when not. */
module MuxOrder {
  import opened Common
  import opened Clock
  import opened Queues
  import opened Mux
  import MuxCbr
  import Restamper

  /** Everything taken from either queue, in the order sent. */
  function Taken(es: seq<Emitted>): Queue {
    if es == [] then [] else (if es[0].taken.Some? then [es[0].taken.value] else []) + Taken(es[1..])
  }

  ghost predicate Unmarked(q: Queue) {
    forall k :: 0 <= k < |q| ==> !q[k].disc
  }

  // ----- one choice -----

  /** The video packet comes first, but the clock is so far past it that it seems to lie ahead, and the
    * audio packet behind it does not. */
  predicate OutOfTurn(a: Queue, v: Queue, pcr: Option<nat>, marginMs: nat) {
    && a != [] && v != [] && DtsAfter(a[0].dts, v[0].dts)
    && !NotLaterThan(v[0].dts, pcr, marginMs) && NotLaterThan(a[0].dts, pcr, marginMs)
  }

  lemma ReadyInTurnIff(a: Queue, v: Queue, pcr: Option<nat>, jitterMs: nat)
    requires Unmarked(a) && Unmarked(v)
    ensures ChooseReady(a, v, pcr, jitterMs) in {Neither, Choose(a, v)} <==> !OutOfTurn(a, v, pcr, jitterMs)
  {
  }

  lemma DrainInTurnIff(a: Queue, v: Queue, pcr: Option<nat>)
    ensures ChooseDrain(a, v, pcr) in {Neither, Choose(a, v)} <==> !OutOfTurn(a, v, pcr, MAX_DTS_PCR_DIFF_MS)
  {
  }

  /** It takes a clock, with its margin, more than half a cycle (over thirteen hours) past the packet. */
  lemma OutOfTurnIsFar(a: Queue, v: Queue, pcr: nat, marginMs: nat)
    requires OutOfTurn(a, v, Some(pcr), marginMs)
    ensures PcrSub(PcrAdd(pcr, marginMs * 27_000), v[0].dts * 300 % PCR_CYCLE) > PCR_HALF
  {
    var limit, x := PcrAdd(pcr, marginMs * 27_000), v[0].dts * 300 % PCR_CYCLE;
    assert 0 < PcrSub(x, limit) < PCR_HALF;
    assert PcrSub(limit, x) == PCR_CYCLE - PcrSub(x, limit);
  }

  /** And it happens: the later packet is then taken first. */
  lemma OutOfTurnHappens(x: TsPkt)
    ensures var a, v := [x.(dts := 0x8000_0000, disc := false)], [x.(dts := 0, disc := false)];
            && Live(0, a) && Live(0, v)
            && ChooseReady(a, v, Some(PCR_HALF + 1000), 0) == FromA && Choose(a, v) == FromV
  {
  }

  // ----- one slot -----

  /** Where the next packet comes from. */
  function SlotSource(cfg: Config, t: State): Source {
    match Decide(cfg, t)
    case SendNull(_) => Neither
    case SendFrom(s, _) => s
  }

  /** The guards under which a slot takes a packet out of turn. */
  predicate LateClock(cfg: Config, t: State) {
    var pcr := Restamper.GetPcr(t.rs);
    !MustFill(cfg, t) &&
    if ChooseReady(t.a, t.v, pcr, cfg.jitterMs) != Neither then OutOfTurn(t.a, t.v, pcr, cfg.jitterMs)
    else
      && cfg.adjustBuf != 0 && !(Dirty(t) || IsDirty(t.v) || Overflow(t, 1)) && Duration(t.v) > cfg.maxLimitMs
      && OutOfTurn(t.a, t.v, pcr, MAX_DTS_PCR_DIFF_MS)
  }

  /** A slot sends a packet from neither queue or the one both queues' stamps put first, exactly unless the
    * clock is that late. */
  lemma InTurnIff(cfg: Config, t: State)
    requires Unmarked(t.a) && Unmarked(t.v)
    ensures SlotSource(cfg, t) in {Neither, Choose(t.a, t.v)} <==> !LateClock(cfg, t)
  {
    ReadyInTurnIff(t.a, t.v, Restamper.GetPcr(t.rs), cfg.jitterMs);
    DrainInTurnIff(t.a, t.v, Restamper.GetPcr(t.rs));
  }

  predicate HasHead(m: State, s: Source) {
    (s == FromA ==> m.a != []) && (s == FromV ==> m.v != [])
  }

  function HeadOf(m: State, s: Source): TsPkt
    requires s != Neither && HasHead(m, s)
  {
    if s == FromA then m.a[0] else m.v[0]
  }

  function Without(q: Queue, taken: bool): Queue
    requires taken ==> q != []
  {
    if taken then q[1..] else q
  }

  /** What a slot took from the source `s`, and what it left. */
  predicate Took(m: State, s: Source, n: State, e: Emitted) {
    && HasHead(m, s)
    && n.a == Without(m.a, s == FromA) && n.v == Without(m.v, s == FromV)
    && e.taken == if s == Neither then None else Some(HeadOf(m, s))
  }

  lemma ProcessLeavesQueues(cfg: Config, m: State, pkt: TsPkt, disc: bool)
    ensures var n := ProcessAs(cfg, m, pkt, disc).0; n.a == m.a && n.v == m.v
  {
  }

  lemma EmitTakes(cfg: Config, m: State, s: Source, kind: Kind)
    requires s != Neither && HasHead(m, s)
    ensures var (n, e) := EmitFrom(cfg, m, s, kind); Took(m, s, n, e)
  {
    var (m1, pkt) := Take(m, s, kind);
    ProcessLeavesQueues(cfg, m1, pkt, MustResync(m1, pkt));
  }

  lemma SlotTakes(cfg: Config, m: State)
    ensures var (n, e) := CbrSlot(cfg, m); Took(m, SlotSource(cfg, Ticked(m)), n, e)
  {
    var t := Ticked(m);
    match Decide(cfg, t)
    case SendNull(kind) =>
    case SendFrom(s, kind) => EmitTakes(cfg, t, s, kind);
  }

  /** A late clock does break the order: the packet taken is later than one it leaves behind. */
  lemma LateClockReorders(cfg: Config, m: State)
    requires Unmarked(m.a) && Unmarked(m.v) && LateClock(cfg, Ticked(m))
    ensures var (n, e) := CbrSlot(cfg, m);
            && m.a != [] && e.taken == Some(m.a[0])
            && n.v == m.v != [] && DtsAfter(m.a[0].dts, n.v[0].dts)
  {
    var t := Ticked(m);
    SlotTakes(cfg, m);
    ReadyInTurnIff(t.a, t.v, Restamper.GetPcr(t.rs), cfg.jitterMs);
    DrainInTurnIff(t.a, t.v, Restamper.GetPcr(t.rs));
    assert SlotSource(cfg, t) == FromA;
  }

  // ----- a flush -----

  /** No slot of the loop finds the clock that late. */
  ghost predicate InTurn(cfg: Config, m: State, n: nat)
    decreases n
  {
    n == 0 || (!LateClock(cfg, Ticked(m)) && InTurn(cfg, CbrSlot(cfg, m).0, n - 1))
  }

  /** The queues are in order, unmarked, and nothing in them is before `bound`. */
  ghost predicate Orderly(w: nat, bound: nat, a: Queue, v: Queue) {
    && Live(w, a) && Live(w, v) && Nondecreasing(w, a) && Nondecreasing(w, v) && Unmarked(a) && Unmarked(v)
    && AtLeast(w, bound, a) && AtLeast(w, bound, v)
  }

  /** A slot that takes the least head, or none. */
  lemma SlotKeepsOrder(w: nat, bound: nat, m: State, s: Source, n: State, e: Emitted)
    requires Orderly(w, bound, m.a, m.v) && Took(m, s, n, e) && s in {Neither, Choose(m.a, m.v)}
    ensures s == Neither ==> e.taken == None && Orderly(w, bound, n.a, n.v)
    ensures s != Neither ==>
              e.taken.Some? && bound <= Offset(w, e.taken.value.dts)
              && Orderly(w, Offset(w, e.taken.value.dts), n.a, n.v)
  {
    HeadIsLeast(w, m.a, m.v);
    if s == FromA {
      TailOf(w, m.a);
    } else if s == FromV {
      TailOf(w, m.v);
    }
  }

  /** What is taken is in order, not before `bound`, and not after anything left. */
  ghost predicate SortedBefore(w: nat, bound: nat, taken: Queue, n: State) {
    && Nondecreasing(w, taken) && AtLeast(w, bound, taken)
    && forall k :: 0 <= k < |taken| ==> AtLeast(w, Offset(w, taken[k].dts), n.a) && AtLeast(w, Offset(w, taken[k].dts), n.v)
  }

  lemma OneMore(w: nat, bound: nat, x: TsPkt, taken: Queue, n: State)
    requires bound <= Offset(w, x.dts) && SortedBefore(w, Offset(w, x.dts), taken, n)
    requires AtLeast(w, Offset(w, x.dts), n.a) && AtLeast(w, Offset(w, x.dts), n.v)
    ensures SortedBefore(w, bound, [x] + taken, n)
  {
    ConsSorted(w, bound, x, taken);
    var all := [x] + taken;
    forall k | 0 <= k < |all|
      ensures AtLeast(w, Offset(w, all[k].dts), n.a) && AtLeast(w, Offset(w, all[k].dts), n.v)
    {
      assert k > 0 ==> all[k] == taken[k - 1];
    }
  }

  lemma TakenTurn(e: Emitted, es: seq<Emitted>)
    ensures Taken([e] + es) == if e.taken.Some? then [e.taken.value] + Taken(es) else Taken(es)
  {
    assert ([e] + es)[1..] == es;
  }

  function BoundAfter(w: nat, bound: nat, e: Emitted): nat {
    if e.taken.Some? then Offset(w, e.taken.value.dts) else bound
  }

  lemma SlotInOrder(cfg: Config, m: State, w: nat, bound: nat)
    requires Orderly(w, bound, m.a, m.v) && !LateClock(cfg, Ticked(m))
    ensures var (m1, e) := CbrSlot(cfg, m);
            && bound <= BoundAfter(w, bound, e) && Orderly(w, BoundAfter(w, bound, e), m1.a, m1.v)
  {
    var (m1, e) := CbrSlot(cfg, m);
    InTurnIff(cfg, Ticked(m));
    SlotTakes(cfg, m);
    SlotKeepsOrder(w, bound, m, SlotSource(cfg, Ticked(m)), m1, e);
  }

  ghost predicate LoopSorted(w: nat, bound: nat, r: (State, seq<Emitted>)) {
    SortedBefore(w, bound, Taken(r.1), r.0) && Orderly(w, bound, r.0.a, r.0.v)
  }

  lemma {:induction false} LoopInOrder(cfg: Config, m: State, w: nat, bound: nat, n: nat)
    requires Orderly(w, bound, m.a, m.v) && InTurn(cfg, m, n)
    ensures LoopSorted(w, bound, CbrLoop(cfg, m, n))
    decreases n, 1
  {
    if n == 0 {
      NoneTaken(w, bound, m);
    } else {
      NextInOrder(cfg, m, w, bound, n);
      CbrLoopTurn(cfg, m, n);
    }
  }

  lemma {:induction false} NextInOrder(cfg: Config, m: State, w: nat, bound: nat, n: nat)
    requires n > 0 && Orderly(w, bound, m.a, m.v) && InTurn(cfg, m, n)
    ensures var slot := CbrSlot(cfg, m);
            var rest := CbrLoop(cfg, slot.0, n - 1);
            LoopSorted(w, bound, (rest.0, [slot.1] + rest.1))
    decreases n, 0
  {
    var slot := CbrSlot(cfg, m);
    SlotInOrder(cfg, m, w, bound);
    LoopInOrder(cfg, slot.0, w, BoundAfter(w, bound, slot.1), n - 1);
    LoopStep(w, bound, slot.1, CbrLoop(cfg, slot.0, n - 1));
  }

  lemma NoneTaken(w: nat, bound: nat, m: State)
    requires Orderly(w, bound, m.a, m.v)
    ensures LoopSorted(w, bound, (m, []))
  {
  }

  lemma LoopStep(w: nat, bound: nat, e: Emitted, rest: (State, seq<Emitted>))
    requires bound <= BoundAfter(w, bound, e) && LoopSorted(w, BoundAfter(w, bound, e), rest)
    ensures LoopSorted(w, bound, (rest.0, [e] + rest.1))
  {
    TakenTurn(e, rest.1);
    if e.taken.Some? {
      OneMore(w, bound, e.taken.value, Taken(rest.1), rest.0);
    }
  }

  // ----- and only if -----

  lemma {:induction false} TakenHasAll(es: seq<Emitted>, s: Source)
    ensures forall x :: x in MuxCbr.TakenFrom(es, s) ==> x in Taken(es)
    decreases |es|
  {
    if es != [] {
      TakenHasAll(es[1..], s);
    }
  }

  /** The head of the video queue is taken sooner or later, or still there. */
  lemma HeadGoesOrStays(cfg: Config, m: State, n: nat)
    requires m.v != []
    ensures m.v[0] in Taken(CbrLoop(cfg, m, n).1) || (CbrLoop(cfg, m, n).0.v != [] && CbrLoop(cfg, m, n).0.v[0] == m.v[0])
  {
    var (r, es) := CbrLoop(cfg, m, n);
    MuxCbr.LoopConserves(cfg, m, n);
    TakenHasAll(es, FromV);
    if MuxCbr.TakenFrom(es, FromV) != [] {
      assert MuxCbr.TakenFrom(es, FromV)[0] == m.v[0];
    }
  }

  lemma RestSorted(w: nat, x: TsPkt, taken: Queue, n: State)
    requires SortedBefore(w, 0, [x] + taken, n)
    ensures SortedBefore(w, 0, taken, n)
    ensures AtLeast(w, Offset(w, x.dts), taken) && AtLeast(w, Offset(w, x.dts), n.v)
  {
    var all := [x] + taken;
    assert all[0] == x;
    forall k | 0 <= k < |taken| ensures taken[k] == all[k + 1] {
    }
  }

  lemma {:induction false} LoopInOrderOnly(cfg: Config, m: State, w: nat, n: nat)
    requires Orderly(w, 0, m.a, m.v) && SortedBefore(w, 0, Taken(CbrLoop(cfg, m, n).1), CbrLoop(cfg, m, n).0)
    ensures InTurn(cfg, m, n)
    decreases n
  {
    if n > 0 {
      var (m1, e) := CbrSlot(cfg, m);
      FirstInTurn(cfg, m, w, n);
      LaterSorted(cfg, m, w, n);
      SlotInOrder(cfg, m, w, 0);
      OrderlyFrom(w, BoundAfter(w, 0, e), m1.a, m1.v);
      LoopInOrderOnly(cfg, m1, w, n - 1);
    }
  }

  lemma OrderlyFrom(w: nat, bound: nat, a: Queue, v: Queue)
    requires Orderly(w, bound, a, v)
    ensures Orderly(w, 0, a, v)
  {
  }

  lemma LaterSorted(cfg: Config, m: State, w: nat, n: nat)
    requires n > 0 && SortedBefore(w, 0, Taken(CbrLoop(cfg, m, n).1), CbrLoop(cfg, m, n).0)
    ensures var (m1, e) := CbrSlot(cfg, m);
            var (m2, es) := CbrLoop(cfg, m1, n - 1);
            && SortedBefore(w, 0, Taken(es), m2)
            && (e.taken.Some? ==> AtLeast(w, Offset(w, e.taken.value.dts), Taken(es))
                                  && AtLeast(w, Offset(w, e.taken.value.dts), m2.v))
  {
    var (m1, e) := CbrSlot(cfg, m);
    var (m2, es) := CbrLoop(cfg, m1, n - 1);
    CbrLoopTurn(cfg, m, n);
    SortedTail(w, e, es, m2);
  }

  lemma SortedTail(w: nat, e: Emitted, es: seq<Emitted>, n: State)
    requires SortedBefore(w, 0, Taken([e] + es), n)
    ensures SortedBefore(w, 0, Taken(es), n)
    ensures e.taken.Some? ==> AtLeast(w, Offset(w, e.taken.value.dts), Taken(es))
                              && AtLeast(w, Offset(w, e.taken.value.dts), n.v)
  {
    TakenTurn(e, es);
    if e.taken.Some? {
      RestSorted(w, e.taken.value, Taken(es), n);
    }
  }

  lemma FirstInTurn(cfg: Config, m: State, w: nat, n: nat)
    requires n > 0 && Orderly(w, 0, m.a, m.v)
    requires SortedBefore(w, 0, Taken(CbrLoop(cfg, m, n).1), CbrLoop(cfg, m, n).0)
    ensures !LateClock(cfg, Ticked(m))
  {
    if LateClock(cfg, Ticked(m)) {
      var m1 := CbrSlot(cfg, m).0;
      var (m2, es) := CbrLoop(cfg, m1, n - 1);
      LaterSorted(cfg, m, w, n);
      LateClockReorders(cfg, m);
      OvertakenLater(w, m.a[0], m1.v[0], Taken(es), m2);
      HeadGoesOrStays(cfg, m1, n - 1);
      assert false;
    }
  }

  /** What was overtaken comes after what overtook it, so the order is lost. */
  lemma OvertakenLater(w: nat, x: TsPkt, y: TsPkt, taken: Queue, n: State)
    requires DtsAfter(x.dts, y.dts) && InWindow(w, x.dts) && InWindow(w, y.dts)
    requires AtLeast(w, Offset(w, x.dts), taken) && AtLeast(w, Offset(w, x.dts), n.v)
    ensures y !in taken && (n.v != [] ==> n.v[0] != y)
  {
    OrderInWindow(w, x.dts, y.dts);
  }

  /** A flush at a bit rate sends the packets of both queues merged in the order of their stamps, across
    * the wrap of the clock, and leaves none behind that is before one it sent: while all stamps lie in
    * half a cycle, each queue is in order and nothing is marked, exactly if no slot finds the clock that
    * late. */
  lemma FlushInOrder(cfg: Config, m: State, w: nat)
    requires m.isReady && !Dirty(m)
    requires Live(w, m.a) && Live(w, m.v) && Nondecreasing(w, m.a) && Nondecreasing(w, m.v)
    requires Unmarked(m.a) && Unmarked(m.v)
    ensures var (n, out) := FlushCbr(cfg, m);
            var (m1, tables) := FlushTables(m);
            out.Some? && (SortedBefore(w, 0, Taken(out.value), n)
                          <==> InTurn(cfg, m1, SaturatingSub(PktSize(cfg) / TS_PACKET_SIZE, |tables|)))
  {
    var (m1, tables) := FlushTables(m);
    var k := SaturatingSub(PktSize(cfg) / TS_PACKET_SIZE, |tables|);
    if InTurn(cfg, m1, k) {
      LoopInOrder(cfg, m1, w, 0, k);
    }
    if SortedBefore(w, 0, Taken(CbrLoop(cfg, m1, k).1), CbrLoop(cfg, m1, k).0) {
      LoopInOrderOnly(cfg, m1, w, k);
    }
    if tables != [] {
      assert tables == [tables[0]] && tables[0].taken == None;
      TakenTurn(tables[0], CbrLoop(cfg, m1, k).1);
    } else {
      assert tables + CbrLoop(cfg, m1, k).1 == CbrLoop(cfg, m1, k).1;
    }
  }
}
