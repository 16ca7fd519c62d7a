/** When the cached tables go out (src/mux.rs:1058-1133): at most one per flush, PAT before PMT before
  * SDT, each after its period on the PCR clock. */
module Schedule {
  import opened Common
  import opened Clock
  import opened TsPacket
  import Sections

  const PERIOD_PAT_MS: nat := 100
  const PERIOD_PMT_MS: nat := 100
  const PERIOD_SDT_MS: nat := 1_000

  datatype Which = Pat | Pmt | Sdt

  /** A table as the multiplexer keeps it: one packet, whether it is set, when it last went out. */
  datatype Cached = Cached(packet: Packet, ready: bool, inserted: Option<nat>)

  datatype Cache = Cache(pat: Cached, pmt: Cached, sdt: Cached)

  function PeriodMs(w: Which): nat {
    match w
    case Pat => PERIOD_PAT_MS
    case Pmt => PERIOD_PMT_MS
    case Sdt => PERIOD_SDT_MS
  }

  function Get(c: Cache, w: Which): Cached {
    match w
    case Pat => c.pat
    case Pmt => c.pmt
    case Sdt => c.sdt
  }

  function Set(c: Cache, w: Which, x: Cached): Cache {
    match w
    case Pat => c.(pat := x)
    case Pmt => c.(pmt := x)
    case Sdt => c.(sdt := x)
  }

  /** The test each block of `flush_psi_packets` makes. */
  predicate Due(x: Cached, pcr: nat, periodMs: nat) {
    x.ready && (x.inserted.None? || PcrAfter(pcr, PcrAdd(x.inserted.value, periodMs * 27_000)))
  }

  function Pick(c: Cache, pcr: nat): Option<Which> {
    if Due(c.pat, pcr, PERIOD_PAT_MS) then Some(Pat)
    else if Due(c.pmt, pcr, PERIOD_PMT_MS) then Some(Pmt)
    else if Due(c.sdt, pcr, PERIOD_SDT_MS) then Some(Sdt)
    else None
  }

  /** The cached packet with its counter stepped is both sent and kept. */
  function Send(x: Cached, pcr: nat): Cached {
    x.(packet := NextCc(x.packet), inserted := Some(pcr))
  }

  function Flush(c: Cache, pcr: Option<nat>): (Cache, seq<Packet>) {
    if pcr.None? || Pick(c, pcr.value).None? then (c, [])
    else
      var w := Pick(c, pcr.value).value;
      var x := Send(Get(c, w), pcr.value);
      (Set(c, w, x), [x.packet])
  }

  // ----- runs: one flush at each instant of a nondecreasing, unwrapped PCR -----

  function CacheAt(c: Cache, ts: seq<nat>, i: nat): Cache
    requires i <= |ts|
  {
    if i == 0 then c else Flush(CacheAt(c, ts, i - 1), Some(ts[i - 1] % PCR_CYCLE)).0
  }

  /** What flush `i` sends. */
  function SentAt(c: Cache, ts: seq<nat>, i: nat): Option<Which>
    requires i < |ts|
  {
    Pick(CacheAt(c, ts, i), ts[i] % PCR_CYCLE)
  }

  function PacketsAt(c: Cache, ts: seq<nat>, i: nat): seq<Packet>
    requires i < |ts|
  {
    Flush(CacheAt(c, ts, i), Some(ts[i] % PCR_CYCLE)).1
  }

  /** The instant of the last time `w` went out before flush `i`. */
  function LastBefore(c: Cache, ts: seq<nat>, w: Which, i: nat): Option<nat>
    requires i <= |ts|
  {
    if i == 0 then None
    else if SentAt(c, ts, i - 1) == Some(w) then Some(ts[i - 1])
    else LastBefore(c, ts, w, i - 1)
  }

  function TimesSent(c: Cache, ts: seq<nat>, w: Which, i: nat): nat
    requires i <= |ts|
  {
    if i == 0 then 0 else TimesSent(c, ts, w, i - 1) + if SentAt(c, ts, i - 1) == Some(w) then 1 else 0
  }

  ghost predicate Ordered(ts: seq<nat>) {
    forall i, j :: 0 <= i <= j < |ts| ==> ts[i] <= ts[j]
  }

  /** A multiplexer that has just become ready: all tables set, none sent yet. */
  predicate Fresh(c: Cache) {
    c.pat.ready && c.pmt.ready && c.sdt.ready
    && c.pat.inserted.None? && c.pmt.inserted.None? && c.sdt.inserted.None?
  }

  function Wrapped(t: Option<nat>): Option<nat> {
    match t
    case None => None
    case Some(x) => Some(x % PCR_CYCLE)
  }

  lemma {:induction false} TimersAreLast(c: Cache, ts: seq<nat>, w: Which, i: nat)
    requires i <= |ts| && Fresh(c)
    ensures Get(CacheAt(c, ts, i), w).ready
    ensures Get(CacheAt(c, ts, i), w).inserted == Wrapped(LastBefore(c, ts, w, i))
  {
    if i > 0 {
      TimersAreLast(c, ts, w, i - 1);
    }
  }

  lemma {:induction false} LastIsPast(c: Cache, ts: seq<nat>, w: Which, i: nat)
    requires i <= |ts| && Ordered(ts) && LastBefore(c, ts, w, i).Some?
    ensures i > 0 && LastBefore(c, ts, w, i).value <= ts[i - 1]
  {
    if SentAt(c, ts, i - 1) != Some(w) {
      LastIsPast(c, ts, w, i - 1);
    }
  }

  lemma {:induction false} LastNotBefore(c: Cache, ts: seq<nat>, w: Which, i: nat, j: nat)
    requires i < j <= |ts| && Ordered(ts) && SentAt(c, ts, i) == Some(w)
    ensures LastBefore(c, ts, w, j).Some? && LastBefore(c, ts, w, j).value >= ts[i]
    decreases j
  {
    if j - 1 > i {
      LastNotBefore(c, ts, w, i, j - 1);
    }
  }

  /** However far the clock jumps forward between flushes, two copies of a table are always strictly
    * more than its period apart. */
  lemma NeverTooSoon(c: Cache, ts: seq<nat>, w: Which, i: nat, j: nat)
    requires Fresh(c) && Ordered(ts) && i < j < |ts|
    requires SentAt(c, ts, i) == Some(w) && SentAt(c, ts, j) == Some(w)
    ensures ts[j] - ts[i] > PeriodMs(w) * 27_000
  {
    TimersAreLast(c, ts, w, j);
    LastNotBefore(c, ts, w, i, j);
    LastIsPast(c, ts, w, j);
    var last := LastBefore(c, ts, w, j).value;
    PcrAddUnwrapped(last, PeriodMs(w) * 27_000);
    if ts[j] <= last + PeriodMs(w) * 27_000 {
      PcrAfterUnwrapped(ts[j], last + PeriodMs(w) * 27_000);
    }
  }

  // ----- no table starves -----

  /** 50 ms. */
  const MAX_STEP: nat := 1_350_000

  ghost predicate SmallSteps(ts: seq<nat>) {
    forall i :: 0 <= i < |ts| - 1 ==> ts[i + 1] <= ts[i] + MAX_STEP
  }

  /** Never sent, or longer ago than the period, in unwrapped time. */
  predicate Stale(last: Option<nat>, t: nat, periodMs: nat) {
    last.None? || t - last.value > periodMs * 27_000
  }

  predicate Within(last: Option<nat>, t: nat, bound: nat) {
    last.Some? ==> last.value <= t <= last.value + bound
  }

  function PickStale(pat: Option<nat>, pmt: Option<nat>, sdt: Option<nat>, t: nat): Option<Which> {
    if Stale(pat, t, PERIOD_PAT_MS) then Some(Pat)
    else if Stale(pmt, t, PERIOD_PMT_MS) then Some(Pmt)
    else if Stale(sdt, t, PERIOD_SDT_MS) then Some(Sdt)
    else None
  }

  /** After a flush at `t`: the PAT is within its period; a stale PMT was passed over for a PAT just
    * now; a stale SDT was passed over just now, or just now and one step before. */
  predicate Served(pat: Option<nat>, pmt: Option<nat>, sdt: Option<nat>, t: nat) {
    && pat.Some? && Within(pat, t, 2_700_000)
    && Within(pmt, t, 2_700_000 + MAX_STEP)
    && (Stale(pmt, t, PERIOD_PMT_MS) ==> pat == Some(t))
    && Within(sdt, t, 27_000_000 + 2 * MAX_STEP)
    && (Stale(sdt, t, PERIOD_SDT_MS) ==>
          || ((pat == Some(t) || pmt == Some(t)) && Within(sdt, t, 27_000_000 + MAX_STEP))
          || (pmt.Some? && pat.value + MAX_STEP >= t && pmt.value + MAX_STEP >= t))
  }

  lemma ServedStep(pat: Option<nat>, pmt: Option<nat>, sdt: Option<nat>, t: nat, t': nat)
    requires Served(pat, pmt, sdt, t) && t <= t' <= t + MAX_STEP
    ensures match PickStale(pat, pmt, sdt, t')
            case Some(Pat) => Served(Some(t'), pmt, sdt, t')
            case Some(Pmt) => Served(pat, Some(t'), sdt, t')
            case Some(Sdt) => Served(pat, pmt, Some(t'), t')
            case None => Served(pat, pmt, sdt, t')
  {
  }

  ghost predicate ServedAfter(c: Cache, ts: seq<nat>, i: nat)
    requires 0 < i <= |ts|
  {
    Served(LastBefore(c, ts, Pat, i), LastBefore(c, ts, Pmt, i), LastBefore(c, ts, Sdt, i), ts[i - 1])
  }

  lemma DueIsStale(x: Cached, last: Option<nat>, t: nat, periodMs: nat)
    requires x.ready && x.inserted == Wrapped(last) && periodMs <= 1000
    requires Within(last, t, 27_000_000 + 3 * MAX_STEP)
    ensures Due(x, t % PCR_CYCLE, periodMs) <==> Stale(last, t, periodMs)
  {
    if last.Some? {
      PcrAddUnwrapped(last.value, periodMs * 27_000);
      PcrAfterUnwrapped(t, last.value + periodMs * 27_000);
    }
  }

  lemma DueAt(c: Cache, ts: seq<nat>, i: nat, w: Which)
    requires i < |ts| && Fresh(c) && Ordered(ts) && SmallSteps(ts) && (i > 0 ==> ServedAfter(c, ts, i))
    ensures Due(Get(CacheAt(c, ts, i), w), ts[i] % PCR_CYCLE, PeriodMs(w))
            <==> Stale(LastBefore(c, ts, w, i), ts[i], PeriodMs(w))
  {
    TimersAreLast(c, ts, w, i);
    var last := LastBefore(c, ts, w, i);
    if i > 0 {
      assert ts[i - 1 + 1] <= ts[i - 1] + MAX_STEP;
      assert Within(last, ts[i - 1], 27_000_000 + 2 * MAX_STEP);
      assert ts[i - 1] <= ts[i];
    }
    DueIsStale(Get(CacheAt(c, ts, i), w), last, ts[i], PeriodMs(w));
  }

  /** While nothing has starved, the wrapped tests of the code are the unwrapped ones. */
  lemma PicksStale(c: Cache, ts: seq<nat>, i: nat)
    requires i < |ts| && Fresh(c) && Ordered(ts) && SmallSteps(ts) && (i > 0 ==> ServedAfter(c, ts, i))
    ensures SentAt(c, ts, i) == PickStale(LastBefore(c, ts, Pat, i), LastBefore(c, ts, Pmt, i),
                                          LastBefore(c, ts, Sdt, i), ts[i])
  {
    DueAt(c, ts, i, Pat);
    DueAt(c, ts, i, Pmt);
    DueAt(c, ts, i, Sdt);
  }

  lemma {:induction false} AlwaysServed(c: Cache, ts: seq<nat>, i: nat)
    requires 0 < i <= |ts| && Fresh(c) && Ordered(ts) && SmallSteps(ts)
    ensures ServedAfter(c, ts, i)
    decreases i
  {
    if i > 1 {
      AlwaysServed(c, ts, i - 1);
    }
    PicksStale(c, ts, i - 1);
    if i > 1 {
      assert ts[i - 2 + 1] <= ts[i - 2] + MAX_STEP;
      ServedStep(LastBefore(c, ts, Pat, i - 1), LastBefore(c, ts, Pmt, i - 1),
                 LastBefore(c, ts, Sdt, i - 1), ts[i - 2], ts[i - 1]);
    }
  }

  lemma PickRule(c: Cache, ts: seq<nat>, i: nat)
    requires i < |ts| && Fresh(c) && Ordered(ts) && SmallSteps(ts)
    ensures SentAt(c, ts, i) == PickStale(LastBefore(c, ts, Pat, i), LastBefore(c, ts, Pmt, i),
                                          LastBefore(c, ts, Sdt, i), ts[i])
  {
    if i > 0 {
      AlwaysServed(c, ts, i);
    }
    PicksStale(c, ts, i);
  }

  /** If the clock advances at most 50 ms from flush to flush, a due PAT goes out at once, a due PMT
    * within one further flush, a due SDT within two. */
  lemma NoStarvation(c: Cache, ts: seq<nat>, i: nat)
    requires i < |ts| && Fresh(c) && Ordered(ts) && SmallSteps(ts)
    ensures Stale(LastBefore(c, ts, Pat, i), ts[i], PERIOD_PAT_MS) ==> SentAt(c, ts, i) == Some(Pat)
    ensures Stale(LastBefore(c, ts, Pmt, i), ts[i], PERIOD_PMT_MS) && i + 1 < |ts|
            ==> SentAt(c, ts, i) == Some(Pmt) || SentAt(c, ts, i + 1) == Some(Pmt)
    ensures Stale(LastBefore(c, ts, Sdt, i), ts[i], PERIOD_SDT_MS) && i + 2 < |ts|
            ==> SentAt(c, ts, i) == Some(Sdt) || SentAt(c, ts, i + 1) == Some(Sdt)
                || SentAt(c, ts, i + 2) == Some(Sdt)
  {
    PickRule(c, ts, i);
    if i + 1 < |ts| {
      PmtServed(c, ts, i);
    }
    if i + 2 < |ts| {
      SdtServed(c, ts, i);
    }
  }

  lemma PmtServed(c: Cache, ts: seq<nat>, i: nat)
    requires i + 1 < |ts| && Fresh(c) && Ordered(ts) && SmallSteps(ts)
    ensures Stale(LastBefore(c, ts, Pmt, i), ts[i], PERIOD_PMT_MS)
            ==> SentAt(c, ts, i) == Some(Pmt) || SentAt(c, ts, i + 1) == Some(Pmt)
  {
    PickRule(c, ts, i);
    PickRule(c, ts, i + 1);
  }

  lemma SdtServed(c: Cache, ts: seq<nat>, i: nat)
    requires i + 2 < |ts| && Fresh(c) && Ordered(ts) && SmallSteps(ts)
    ensures Stale(LastBefore(c, ts, Sdt, i), ts[i], PERIOD_SDT_MS)
            ==> SentAt(c, ts, i) == Some(Sdt) || SentAt(c, ts, i + 1) == Some(Sdt)
                || SentAt(c, ts, i + 2) == Some(Sdt)
  {
    PickRule(c, ts, i);
    PickRule(c, ts, i + 1);
    PickRule(c, ts, i + 2);
  }

  lemma {:induction false} OnceSent(c: Cache, ts: seq<nat>, w: Which, i: nat, j: nat)
    requires i <= j <= |ts| && LastBefore(c, ts, w, i).Some?
    ensures LastBefore(c, ts, w, j).Some?
    decreases j
  {
    if i < j {
      OnceSent(c, ts, w, i, j - 1);
    }
  }

  /** All three tables go out with the first three flushes. */
  lemma FirstCopies(c: Cache, ts: seq<nat>, i: nat)
    requires i <= |ts| && Fresh(c) && Ordered(ts) && SmallSteps(ts)
    ensures i >= 1 ==> LastBefore(c, ts, Pat, i).Some?
    ensures i >= 2 ==> LastBefore(c, ts, Pmt, i).Some?
    ensures i >= 3 ==> LastBefore(c, ts, Sdt, i).Some?
  {
    if i >= 1 {
      NoStarvation(c, ts, 0);
      OnceSent(c, ts, Pat, 1, i);
    }
    if i >= 2 {
      FirstPmt(c, ts);
      OnceSent(c, ts, Pmt, 2, i);
    }
    if i >= 3 {
      FirstSdt(c, ts);
      OnceSent(c, ts, Sdt, 3, i);
    }
  }

  lemma SentBefore(c: Cache, ts: seq<nat>, w: Which, k: nat, i: nat)
    requires k < i <= |ts| && SentAt(c, ts, k) == Some(w)
    ensures LastBefore(c, ts, w, i).Some?
  {
    assert LastBefore(c, ts, w, k + 1) == Some(ts[k]);
    OnceSent(c, ts, w, k + 1, i);
  }

  lemma FirstPmt(c: Cache, ts: seq<nat>)
    requires |ts| >= 2 && Fresh(c) && Ordered(ts) && SmallSteps(ts)
    ensures LastBefore(c, ts, Pmt, 2).Some?
  {
    NoStarvation(c, ts, 0);
    var k := if SentAt(c, ts, 0) == Some(Pmt) then 0 else 1;
    SentBefore(c, ts, Pmt, k, 2);
  }

  lemma FirstSdt(c: Cache, ts: seq<nat>)
    requires |ts| >= 3 && Fresh(c) && Ordered(ts) && SmallSteps(ts)
    ensures LastBefore(c, ts, Sdt, 3).Some?
  {
    NoStarvation(c, ts, 0);
    var k := if SentAt(c, ts, 0) == Some(Sdt) then 0 else if SentAt(c, ts, 1) == Some(Sdt) then 1 else 2;
    SentBefore(c, ts, Sdt, k, 3);
  }

  /** Sent, and not longer ago than `bound`. */
  predicate Recent(last: Option<nat>, t: nat, bound: nat) {
    last.Some? && last.value <= t <= last.value + bound
  }

  /** After any flush each table has gone out, and not longer ago than its period and the steps it may
    * have had to give way: none for the PAT, one for the PMT, two for the SDT; except that the first
    * copies of the PMT and the SDT go out with the second and the third flush. */
  lemma AgeBound(c: Cache, ts: seq<nat>, i: nat)
    requires 0 < i <= |ts| && Fresh(c) && Ordered(ts) && SmallSteps(ts)
    ensures Recent(LastBefore(c, ts, Pat, i), ts[i - 1], 2_700_000)
    ensures i >= 2 ==> Recent(LastBefore(c, ts, Pmt, i), ts[i - 1], 2_700_000 + MAX_STEP)
    ensures i >= 3 ==> Recent(LastBefore(c, ts, Sdt, i), ts[i - 1], 27_000_000 + 2 * MAX_STEP)
  {
    AlwaysServed(c, ts, i);
    FirstCopies(c, ts, i);
  }

  // ----- what goes out -----

  /** A packet with its continuity counter advanced by `n`. */
  function Bump(p: Packet, n: nat): Packet {
    p[3 := p[3] / 16 * 16 + (p[3] % 16 + n) % 16]
  }

  lemma BumpStep(p: Packet, n: nat)
    ensures NextCc(Bump(p, n)) == Bump(p, n + 1)
    ensures SameButCc(Bump(p, n), p) && ContinuityCounter(Bump(p, n)) == (ContinuityCounter(p) + n) % 16
  {
    var x := (p[3] % 16 + n) % 16;
    assert (x + 1) % 16 == (p[3] % 16 + n + 1) % 16;
  }

  lemma FlushBumps(c: Cache, pcr: nat, w: Which)
    ensures Get(Flush(c, Some(pcr)).0, w).packet
            == if Pick(c, pcr) == Some(w) then NextCc(Get(c, w).packet) else Get(c, w).packet
  {
  }

  lemma {:induction false} CachedIsBumped(c: Cache, ts: seq<nat>, w: Which, i: nat)
    requires i <= |ts|
    ensures Get(CacheAt(c, ts, i), w).packet == Bump(Get(c, w).packet, TimesSent(c, ts, w, i))
  {
    if i == 0 {
      assert Bump(Get(c, w).packet, 0) == Get(c, w).packet;
    } else {
      CachedIsBumped(c, ts, w, i - 1);
      FlushBumps(CacheAt(c, ts, i - 1), ts[i - 1] % PCR_CYCLE, w);
      BumpStep(Get(c, w).packet, TimesSent(c, ts, w, i - 1));
    }
  }

  /** Each flush sends at most one packet; the n-th copy of a table is the cached packet with its
    * continuity counter n steps on, modulo 16, and nothing else changed. */
  lemma CopiesDifferInCounter(c: Cache, ts: seq<nat>, i: nat)
    requires i < |ts|
    ensures match SentAt(c, ts, i)
            case None => PacketsAt(c, ts, i) == []
            case Some(w) =>
              |PacketsAt(c, ts, i)| == 1 &&
              var p := PacketsAt(c, ts, i)[0];
              SameButCc(p, Get(c, w).packet)
              && ContinuityCounter(p)
                 == (ContinuityCounter(Get(c, w).packet) + TimesSent(c, ts, w, i) + 1) % 16
  {
    match SentAt(c, ts, i)
    case None =>
    case Some(w) =>
      CachedIsBumped(c, ts, w, i);
      BumpStep(Get(c, w).packet, TimesSent(c, ts, w, i));
      BumpStep(Get(c, w).packet, TimesSent(c, ts, w, i) + 1);
  }

  /** Every copy of a table that goes out, whatever its counter, gives a receiver in any state the
    * section that was packed, exactly if the section fits one packet. */
  lemma EveryCopyArrives(c: Cache, ts: seq<nat>, i: nat, s: seq<Byte>, pid: Pid, cc: nat, r: Sections.Reasm)
    requires i < |ts| && SentAt(c, ts, i).Some? && Sections.WellSized(s)
    requires Get(c, SentAt(c, ts, i).value).packet == Sections.PackOne(s, pid, cc)
    ensures Sections.Accept(r, PacketsAt(c, ts, i)[0]).1 == Some(s) <==> |s| <= Sections.FIRST_CAPACITY
  {
    var p := Sections.PackOne(s, pid, cc);
    CopiesDifferInCounter(c, ts, i);
    Sections.AcceptIgnoresCc(r, PacketsAt(c, ts, i)[0], p);
    Sections.OnePacketIff(r, s, pid, cc);
  }

  /** A run seen from its second flush on. */
  lemma {:induction false} CacheShift(c: Cache, t: nat, ts: seq<nat>, i: nat)
    requires i <= |ts|
    ensures CacheAt(c, [t] + ts, i + 1) == CacheAt(Flush(c, Some(t % PCR_CYCLE)).0, ts, i)
    decreases i
  {
    if i > 0 {
      CacheShift(c, t, ts, i - 1);
    }
  }
}
