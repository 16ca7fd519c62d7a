/** The two output queues and the order in which packets leave them
  * (src/mux.rs:143-254 and src/mux.rs:1318-1386). */
module Queues {
  import opened Common
  import opened Clock

  datatype TsPkt = TsPkt(data: Packet, pid: Pid, pts: nat, dts: nat, pusi: bool, disc: bool, pcr: Option<nat>)

  type Queue = seq<TsPkt>

  function CountPusi(q: Queue): nat {
    if q == [] then 0 else CountPusi(q[..|q| - 1]) + if q[|q| - 1].pusi then 1 else 0
  }

  function CountPcr(q: Queue): nat {
    if q == [] then 0 else CountPcr(q[..|q| - 1]) + if q[|q| - 1].pcr.Some? then 1 else 0
  }

  /** `duration_ms`: zero as well when the newest DTS is not after the oldest. */
  function Duration(q: Queue): nat {
    if q == [] then 0
    else
      var d := DtsForwardDeltaMs(q[|q| - 1].dts, q[0].dts);
      if d < 0 then 0 else d
  }

  predicate IsDirty(q: Queue) {
    Duration(q) == 0 && CountPusi(q) > 1
  }

  lemma {:induction false} CountFront(q: Queue)
    requires q != []
    ensures CountPusi(q) == CountPusi(q[1..]) + if q[0].pusi then 1 else 0
    ensures CountPcr(q) == CountPcr(q[1..]) + if q[0].pcr.Some? then 1 else 0
    decreases |q|
  {
    var n := |q| - 1;
    if n > 0 {
      CountFront(q[..n]);
      assert q[1..][..n - 1] == q[..n][1..];
    }
  }

  class OutBuffer {
    var inner: Queue
    var uniqueFramesCount: nat
    var pcrCount: nat

    /** The two counters are true counts. */
    ghost predicate Valid()
      reads this
    {
      uniqueFramesCount == CountPusi(inner) && pcrCount == CountPcr(inner)
    }

    constructor ()
      ensures Valid() && inner == []
    {
      inner := [];
      uniqueFramesCount := 0;
      pcrCount := 0;
    }

    method Clear()
      modifies this
      ensures Valid() && inner == []
    {
      inner := [];
      uniqueFramesCount := 0;
      pcrCount := 0;
    }

    method PushBack(pkt: TsPkt)
      requires Valid()
      modifies this
      ensures Valid() && inner == old(inner) + [pkt]
    {
      if pkt.pusi {
        uniqueFramesCount := uniqueFramesCount + 1;
      }
      if pkt.pcr.Some? {
        pcrCount := pcrCount + 1;
      }
      inner := inner + [pkt];
      assert inner[..|inner| - 1] == old(inner);
    }

    /** The subtractions saturate in the source; the assertions show that they never have to. */
    method PopFront() returns (pkt: Option<TsPkt>)
      requires Valid()
      modifies this
      ensures Valid()
      ensures if old(inner) == [] then pkt == None && inner == []
              else pkt == Some(old(inner)[0]) && inner == old(inner)[1..]
    {
      if inner == [] {
        return None;
      }
      CountFront(inner);
      var current := inner[0];
      inner := inner[1..];
      if current.pusi {
        assert uniqueFramesCount >= 1;
        uniqueFramesCount := SaturatingSub(uniqueFramesCount, 1);
      }
      if current.pcr.Some? {
        assert pcrCount >= 1;
        pcrCount := SaturatingSub(pcrCount, 1);
      }
      pkt := Some(current);
    }

    method DurationMs() returns (ms: nat)
      ensures ms == Duration(inner)
    {
      if inner == [] {
        return 0;
      }
      var d := DtsForwardDeltaMs(inner[|inner| - 1].dts, inner[0].dts);
      ms := if d < 0 then 0 else d;
    }

    method IsDirtyNow() returns (dirty: bool)
      requires Valid()
      ensures dirty == IsDirty(inner)
    {
      var ms := DurationMs();
      dirty := ms == 0 && uniqueFramesCount > 1;
    }
  }

  // ----- which queue is next -----

  datatype Source = FromA | FromV | Neither

  /** `get_a_or_v`: audio first on equal stamps. */
  function Choose(a: Queue, v: Queue): Source {
    if a != [] && v != [] then if DtsAfter(a[0].dts, v[0].dts) then FromV else FromA
    else if a != [] then FromA
    else if v != [] then FromV
    else Neither
  }

  /** `!pcr_after(dts * 300, pcr + margin)`. */
  predicate NotLaterThan(dts: nat, pcr: Option<nat>, marginMs: nat) {
    pcr.Some? && !PcrAfter(dts * 300 % PCR_CYCLE, PcrAdd(pcr.value, marginMs * 27_000))
  }

  /** `get_a_or_v_ready`. */
  function ChooseReady(a: Queue, v: Queue, pcr: Option<nat>, jitterMs: nat): Source {
    if a != [] && v != [] && DtsAfter(a[0].dts, v[0].dts)
       && (NotLaterThan(v[0].dts, pcr, jitterMs) || v[0].disc) then FromV
    else if a != [] && (NotLaterThan(a[0].dts, pcr, jitterMs) || a[0].disc) then FromA
    else if a == [] && v != [] && (NotLaterThan(v[0].dts, pcr, jitterMs) || v[0].disc) then FromV
    else Neither
  }

  const MAX_DTS_PCR_DIFF_MS: nat := 800

  /** `get_a_or_v_drain`. */
  function ChooseDrain(a: Queue, v: Queue, pcr: Option<nat>): Source {
    if a != [] && v != [] && DtsAfter(a[0].dts, v[0].dts)
       && NotLaterThan(v[0].dts, pcr, MAX_DTS_PCR_DIFF_MS) then FromV
    else if a != [] && NotLaterThan(a[0].dts, pcr, MAX_DTS_PCR_DIFF_MS) then FromA
    else if a == [] && v != [] && NotLaterThan(v[0].dts, pcr, MAX_DTS_PCR_DIFF_MS) then FromV
    else Neither
  }

  // ----- merging -----

  /** How far a DTS lies behind the start `w` of a window. */
  function Offset(w: nat, dts: nat): nat {
    (dts - w) % DTS_CYCLE
  }

  /** Half a cycle from `w` on, where wrapped comparison is a total order. */
  predicate InWindow(w: nat, dts: nat) {
    Offset(w, dts) < DTS_HALF
  }

  ghost predicate Live(w: nat, q: Queue) {
    forall k :: 0 <= k < |q| ==> InWindow(w, q[k].dts)
  }

  ghost predicate Nondecreasing(w: nat, q: Queue) {
    forall i, j :: 0 <= i < j < |q| ==> Offset(w, q[i].dts) <= Offset(w, q[j].dts)
  }

  lemma OrderInWindow(w: nat, x: nat, y: nat)
    requires InWindow(w, x) && InWindow(w, y)
    ensures DtsAfter(x, y) <==> Offset(w, x) > Offset(w, y)
  {
    var ox, oy := Offset(w, x), Offset(w, y);
    OffsetDifference(w, x, y);
    if ox >= oy {
      assert (ox - oy) % DTS_CYCLE == ox - oy;
    } else {
      CycleLater(ox - oy);
    }
  }

  lemma CycleLater(d: int)
    requires -DTS_CYCLE < d < 0
    ensures d % DTS_CYCLE == d + DTS_CYCLE
  {
  }

  lemma OffsetDifference(w: nat, x: nat, y: nat)
    ensures (x - y) % DTS_CYCLE == (Offset(w, x) - Offset(w, y)) % DTS_CYCLE
  {
    var kx, ky := (x - w) / DTS_CYCLE, (y - w) / DTS_CYCLE;
    assert x - y == Offset(w, x) - Offset(w, y) + (kx - ky) * DTS_CYCLE;
    DtsModStep(Offset(w, x) - Offset(w, y), kx - ky);
  }

  /** `n` calls of `get_a_or_v`: what they return, and the queues they leave. */
  function Drain(a: Queue, v: Queue, n: nat): (Queue, Queue, Queue) {
    if n == 0 then ([], a, v)
    else match Choose(a, v)
      case Neither => ([], a, v)
      case FromA => var (out, a', v') := Drain(a[1..], v, n - 1); ([a[0]] + out, a', v')
      case FromV => var (out, a', v') := Drain(a, v[1..], n - 1); ([v[0]] + out, a', v')
  }

  /** `out` takes all of `a` and all of `v`, each in its own order. */
  ghost predicate Interleaves(out: Queue, a: Queue, v: Queue)
    decreases |out|
  {
    if out == [] then a == [] && v == []
    else
      || (a != [] && out[0] == a[0] && Interleaves(out[1..], a[1..], v))
      || (v != [] && out[0] == v[0] && Interleaves(out[1..], a, v[1..]))
  }

  ghost predicate AtLeast(w: nat, bound: nat, q: Queue) {
    forall k :: 0 <= k < |q| ==> bound <= Offset(w, q[k].dts)
  }

  lemma TailOf(w: nat, q: Queue)
    requires q != [] && Live(w, q) && Nondecreasing(w, q)
    ensures Live(w, q[1..]) && Nondecreasing(w, q[1..]) && AtLeast(w, Offset(w, q[0].dts), q)
    ensures AtLeast(w, Offset(w, q[0].dts), q[1..])
  {
    forall k | 0 <= k < |q| ensures Offset(w, q[0].dts) <= Offset(w, q[k].dts) {
    }
  }

  /** The queues a drain leaves are suffixes; what it returns interleaves the prefixes it took. */
  lemma {:induction false} DrainInterleaves(a: Queue, v: Queue, n: nat) returns (i: nat, j: nat)
    ensures i <= |a| && j <= |v|
    ensures var (out, a', v') := Drain(a, v, n);
            a' == a[i..] && v' == v[j..] && Interleaves(out, a[..i], v[..j])
            && |out| == i + j == Min(n, |a| + |v|)
    decreases n
  {
    i, j := 0, 0;
    var (out, a', v') := Drain(a, v, n);
    if n > 0 {
      match Choose(a, v)
      case Neither =>
      case FromA =>
        var x := DrainInterleavesA(a, v, n);
        i, j := x.0, x.1;
      case FromV =>
        var x := DrainInterleavesV(a, v, n);
        i, j := x.0, x.1;
    }
  }

  lemma {:induction false} DrainInterleavesA(a: Queue, v: Queue, n: nat) returns (x: (nat, nat))
    requires n > 0 && Choose(a, v) == FromA
    ensures x.0 <= |a| && x.1 <= |v|
    ensures var (out, a', v') := Drain(a, v, n);
            a' == a[x.0..] && v' == v[x.1..] && Interleaves(out, a[..x.0], v[..x.1])
            && |out| == x.0 + x.1 == Min(n, |a| + |v|)
    decreases n, 0
  {
    var i, j := DrainInterleaves(a[1..], v, n - 1);
    x := (i + 1, j);
    assert a[1..][i..] == a[i + 1..] && a[..i + 1][1..] == a[1..][..i];
    var rest := Drain(a[1..], v, n - 1).0;
    assert ([a[0]] + rest)[1..] == rest;
  }

  lemma {:induction false} DrainInterleavesV(a: Queue, v: Queue, n: nat) returns (x: (nat, nat))
    requires n > 0 && Choose(a, v) == FromV
    ensures x.0 <= |a| && x.1 <= |v|
    ensures var (out, a', v') := Drain(a, v, n);
            a' == a[x.0..] && v' == v[x.1..] && Interleaves(out, a[..x.0], v[..x.1])
            && |out| == x.0 + x.1 == Min(n, |a| + |v|)
    decreases n, 0
  {
    var i, j := DrainInterleaves(a, v[1..], n - 1);
    x := (i, j + 1);
    assert v[1..][j..] == v[j + 1..] && v[..j + 1][1..] == v[1..][..j];
    var rest := Drain(a, v[1..], n - 1).0;
    assert ([v[0]] + rest)[1..] == rest;
  }

  /** While all live stamps lie in half a cycle and each queue is in order, a drain returns packets
    * in order, across both queues and across the wrap of the clock. */
  lemma {:induction false} DrainSorted(w: nat, bound: nat, a: Queue, v: Queue, n: nat)
    requires Live(w, a) && Live(w, v) && Nondecreasing(w, a) && Nondecreasing(w, v)
    requires AtLeast(w, bound, a) && AtLeast(w, bound, v)
    ensures Nondecreasing(w, Drain(a, v, n).0) && AtLeast(w, bound, Drain(a, v, n).0)
    decreases n
  {
    if n > 0 {
      match Choose(a, v)
      case Neither =>
      case FromA =>
        HeadIsLeast(w, a, v);
        TailOf(w, a);
        DrainSorted(w, Offset(w, a[0].dts), a[1..], v, n - 1);
        ConsSorted(w, bound, a[0], Drain(a[1..], v, n - 1).0);
      case FromV =>
        HeadIsLeast(w, a, v);
        TailOf(w, v);
        DrainSorted(w, Offset(w, v[0].dts), a, v[1..], n - 1);
        ConsSorted(w, bound, v[0], Drain(a, v[1..], n - 1).0);
    }
  }

  lemma ConsSorted(w: nat, bound: nat, x: TsPkt, q: Queue)
    requires Nondecreasing(w, q) && AtLeast(w, Offset(w, x.dts), q) && bound <= Offset(w, x.dts)
    ensures Nondecreasing(w, [x] + q) && AtLeast(w, bound, [x] + q)
  {
    var r := [x] + q;
    forall i, j | 0 <= i < j < |r| ensures Offset(w, r[i].dts) <= Offset(w, r[j].dts) {
      assert r[j] == q[j - 1];
      if i > 0 {
        assert r[i] == q[i - 1];
      }
    }
  }

  /** The chosen head is no later than anything in either queue. */
  lemma HeadIsLeast(w: nat, a: Queue, v: Queue)
    requires Live(w, a) && Live(w, v) && Nondecreasing(w, a) && Nondecreasing(w, v)
    ensures Choose(a, v) == FromA ==> AtLeast(w, Offset(w, a[0].dts), a) && AtLeast(w, Offset(w, a[0].dts), v)
    ensures Choose(a, v) == FromV ==> AtLeast(w, Offset(w, v[0].dts), a) && AtLeast(w, Offset(w, v[0].dts), v)
  {
    if a != [] {
      TailOf(w, a);
    }
    if v != [] {
      TailOf(w, v);
    }
    if a != [] && v != [] {
      OrderInWindow(w, a[0].dts, v[0].dts);
    }
  }

  /** Merge order, all together. */
  lemma MergeOrder(w: nat, a: Queue, v: Queue, n: nat)
    requires Live(w, a) && Live(w, v) && Nondecreasing(w, a) && Nondecreasing(w, v)
    ensures Nondecreasing(w, Drain(a, v, n).0)
    ensures exists i, j :: 0 <= i <= |a| && 0 <= j <= |v| && i + j == Min(n, |a| + |v|)
              && Drain(a, v, n).1 == a[i..] && Drain(a, v, n).2 == v[j..]
              && Interleaves(Drain(a, v, n).0, a[..i], v[..j])
  {
    DrainSorted(w, 0, a, v, n);
    var i, j := DrainInterleaves(a, v, n);
  }

  // ----- readiness against the clock -----

  /** In unwrapped time, with clock and stamp less than half a PCR cycle apart. */
  lemma NotLaterUnwrapped(dts: nat, pcr: nat, marginMs: nat)
    requires -PCR_HALF < dts * 300 - (pcr + marginMs * 27_000) < PCR_HALF
    ensures NotLaterThan(dts % DTS_CYCLE, Some(pcr % PCR_CYCLE), marginMs)
            <==> dts * 300 <= pcr + marginMs * 27_000
  {
    var limit := pcr + marginMs * 27_000;
    PcrAddUnwrapped(pcr, marginMs * 27_000);
    DtsTimes300(dts);
    PcrAfterUnwrapped(dts * 300, limit);
  }

  lemma DtsTimes300(dts: nat)
    ensures dts % DTS_CYCLE * 300 % PCR_CYCLE == dts * 300 % PCR_CYCLE
  {
    var k, d := dts / DTS_CYCLE, dts % DTS_CYCLE;
    assert dts * 300 == d * 300 + k * PCR_CYCLE;
    PcrModStep(d * 300, k);
  }

  /** A packet taken by `get_a_or_v_ready` that is not marked discontinuous is the earlier of the two
    * heads and at most the jitter ahead of the clock.  Stamps and clock are given in unwrapped time,
    * close enough together to be comparable. */
  lemma ReadyIsDueMinimum(a: Queue, v: Queue, ta: nat, tv: nat, pcr: nat, jitterMs: nat)
    requires a != [] ==> a[0].dts == ta % DTS_CYCLE
                         && -PCR_HALF < ta * 300 - (pcr + jitterMs * 27_000) < PCR_HALF
    requires v != [] ==> v[0].dts == tv % DTS_CYCLE
                         && -PCR_HALF < tv * 300 - (pcr + jitterMs * 27_000) < PCR_HALF
    requires a != [] && v != [] ==> -DTS_HALF < ta - tv < DTS_HALF
    ensures var s := ChooseReady(a, v, Some(pcr % PCR_CYCLE), jitterMs);
            && (s == FromA && !a[0].disc ==> ta * 300 <= pcr + jitterMs * 27_000 && (v != [] ==> ta <= tv))
            && (s == FromV && !v[0].disc ==> tv * 300 <= pcr + jitterMs * 27_000 && (a != [] ==> tv < ta))
  {
    if a != [] {
      NotLaterUnwrapped(ta, pcr, jitterMs);
    }
    if v != [] {
      NotLaterUnwrapped(tv, pcr, jitterMs);
    }
    if a != [] && v != [] {
      DtsAfterUnwrapped(ta, tv);
    }
  }
}
