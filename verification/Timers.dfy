/** What becomes of the insertion timers when the clock is set anew: the source keeps them
  * (src/mux.rs:1311-1316 sets the clock alone, src/mux.rs:1058-1133 compares with what it kept), so a table
  * may stay silent.  For any cache and any clock value, this is for how long. */
module Timers {
  import opened Common
  import opened Clock
  import opened Schedule

  /** A period in ticks of the PCR clock. */
  function Period(w: Which): nat {
    PeriodMs(w) * 27_000
  }

  /** How far the clock seems to be past the last copy, and how long it then takes, in ticks, until the
    * table is due: nothing if the clock is past the period, but less than half a cycle; otherwise the
    * clock has to run through the rest of the period, or of the cycle and the period. */
  function Wait(since: nat, period: nat): nat
    requires since < PCR_CYCLE && period < PCR_HALF
  {
    if since <= period then period - since + 1
    else if since < period + PCR_HALF then 0
    else PCR_CYCLE - since + period + 1
  }

  /** The ticks for which a table that is set stays silent from the clock value `pcr` on. */
  function Silence(x: Cached, w: Which, pcr: nat): nat {
    match x.inserted
    case None => 0
    case Some(last) => Wait((pcr - last) % PCR_CYCLE, Period(w))
  }

  lemma SinceRuns(last: nat, t: nat, d: nat)
    ensures ((t + d) % PCR_CYCLE - last) % PCR_CYCLE == ((t % PCR_CYCLE - last) % PCR_CYCLE + d) % PCR_CYCLE
  {
    var a, b, e := (t + d) / PCR_CYCLE, t / PCR_CYCLE, (t % PCR_CYCLE - last) / PCR_CYCLE;
    var since := (t % PCR_CYCLE - last) % PCR_CYCLE;
    assert (t + d) % PCR_CYCLE - last == since + d + (b + e - a) * PCR_CYCLE;
    PcrModStep(since + d, b + e - a);
  }

  lemma DueBySince(x: Cached, w: Which, pcr: nat)
    requires x.ready && x.inserted.Some?
    ensures Due(x, pcr, PeriodMs(w)) <==> Period(w) < (pcr - x.inserted.value) % PCR_CYCLE < Period(w) + PCR_HALF
  {
    var last, period := x.inserted.value, Period(w);
    var since, limit := (pcr - last) % PCR_CYCLE, PcrAdd(last, period);
    PcrSubUnwrapped(pcr, limit);
    AddIsSum(last, period);
    var k := (pcr - last) / PCR_CYCLE + (last + period) / PCR_CYCLE;
    assert pcr - limit == since - period + k * PCR_CYCLE;
    PcrModStep(since - period, k);
    Around(since - period);
  }

  lemma AddIsSum(x: nat, d: nat)
    requires d < PCR_CYCLE
    ensures PcrAdd(x, d) == (x + d) % PCR_CYCLE
  {
    var k, r := x / PCR_CYCLE, x % PCR_CYCLE;
    assert d % PCR_CYCLE == d && r % PCR_CYCLE == r;
    PcrModStep(r + d, k);
    assert r + d + k * PCR_CYCLE == x + d;
  }

  lemma Around(g: int)
    requires -PCR_HALF < g < PCR_CYCLE
    ensures 0 < g % PCR_CYCLE < PCR_HALF <==> 0 < g < PCR_HALF
  {
    if g < 0 {
      PcrModStep(g, 1);
      assert (g + PCR_CYCLE) % PCR_CYCLE == g + PCR_CYCLE;
    }
  }

  /** The readings, as far past the last copy as this, at which the table is due. */
  predicate InSpan(since: int, period: nat) {
    period < since < period + PCR_HALF
  }

  lemma Wraps(x: int)
    requires 0 <= x < 2 * PCR_CYCLE
    ensures x % PCR_CYCLE == if x < PCR_CYCLE then x else x - PCR_CYCLE
  {
    PcrModStep(x - PCR_CYCLE, 1);
  }

  lemma WaitIsRight(since: nat, period: nat, d: nat)
    requires since < PCR_CYCLE && period < PCR_HALF
    ensures d < Wait(since, period) ==> !InSpan((since + d) % PCR_CYCLE, period)
    ensures InSpan((since + Wait(since, period)) % PCR_CYCLE, period)
    ensures Wait(since, period) > 0 && d < PCR_HALF - 1
            ==> InSpan((since + Wait(since, period) + d) % PCR_CYCLE, period)
  {
    var wait := Wait(since, period);
    Wraps(since + wait);
    if d < wait {
      Wraps(since + d);
    }
    if wait > 0 && d < PCR_HALF - 1 {
      Wraps(since + wait + d);
    }
  }

  /** `Silence` is right, to the tick: a clock that runs on from `t` finds the table not due before, due
    * then, and, if it had to wait, due for half a cycle. */
  lemma DueAfterSilence(x: Cached, w: Which, t: nat, d: nat)
    requires x.ready && x.inserted.Some?
    ensures var silence := Silence(x, w, t % PCR_CYCLE);
            && (d < silence ==> !Due(x, (t + d) % PCR_CYCLE, PeriodMs(w)))
            && Due(x, (t + silence) % PCR_CYCLE, PeriodMs(w))
            && (silence > 0 && d < PCR_HALF - 1 ==> Due(x, (t + silence + d) % PCR_CYCLE, PeriodMs(w)))
  {
    var last, silence := x.inserted.value, Silence(x, w, t % PCR_CYCLE);
    WaitIsRight((t % PCR_CYCLE - last) % PCR_CYCLE, Period(w), d);
    DueAt(x, w, t, d);
    DueAt(x, w, t, silence);
    DueAt(x, w, t, silence + d);
  }

  lemma DueAt(x: Cached, w: Which, t: nat, d: nat)
    requires x.ready && x.inserted.Some?
    ensures var since := (t % PCR_CYCLE - x.inserted.value) % PCR_CYCLE;
            Due(x, (t + d) % PCR_CYCLE, PeriodMs(w)) <==> InSpan((since + d) % PCR_CYCLE, Period(w))
  {
    SinceRuns(x.inserted.value, t, d);
    DueBySince(x, w, (t + d) % PCR_CYCLE);
  }

  /** A table waits no longer than its period and a tick exactly if the clock is set to less than half a
    * cycle and a period after its last copy; and never longer than half a cycle and a tick. */
  lemma SilenceWithinPeriodIff(x: Cached, w: Which, pcr: nat)
    requires x.inserted.Some?
    ensures Silence(x, w, pcr) <= Period(w) + 1 <==> (pcr - x.inserted.value) % PCR_CYCLE < Period(w) + PCR_HALF
    ensures Silence(x, w, pcr) <= PCR_HALF + 1
  {
  }

  /** A clock set back makes a table wait for all the time it was set back, and for its period too. */
  lemma SetBack(x: Cached, w: Which, last: nat, back: nat)
    requires x.inserted == Some(last % PCR_CYCLE) && 0 < back <= last && back <= PCR_HALF - Period(w)
    ensures Silence(x, w, (last - back) % PCR_CYCLE) == back + Period(w) + 1
  {
    var d: int := last - back - last;
    SameDifference(last - back, last);
    PcrModStep(d, 1);
    assert (d + PCR_CYCLE) % PCR_CYCLE == PCR_CYCLE - back;
  }

  lemma SameDifference(x: nat, y: nat)
    ensures (x % PCR_CYCLE - y % PCR_CYCLE) % PCR_CYCLE == (x - y) % PCR_CYCLE
  {
    PcrModStep(x % PCR_CYCLE - y % PCR_CYCLE, x / PCR_CYCLE - y / PCR_CYCLE);
  }

  /** A PAT sent at four hours, the clock then set to three: no PAT for an hour and 100 ms. */
  lemma HourOfSilence(x: Cached)
    requires x.ready && x.inserted == Some(4 * 97_200_000_000)
    ensures Silence(x, Pat, 3 * 97_200_000_000) == 97_200_000_000 + 2_700_000 + 1
  {
    SetBack(x, Pat, 4 * 97_200_000_000, 97_200_000_000);
  }

  // ----- flushes -----

  /** The timer of a table that has not gone out is as it was. */
  lemma {:induction false} TimerStays(c: Cache, ts: seq<nat>, w: Which, i: nat)
    requires i <= |ts| && forall k :: 0 <= k < i ==> SentAt(c, ts, k) != Some(w)
    ensures Get(CacheAt(c, ts, i), w) == Get(c, w)
  {
    if i > 0 {
      TimerStays(c, ts, w, i - 1);
      assert SentAt(c, ts, i - 1) != Some(w);
      FlushLeaves(CacheAt(c, ts, i - 1), ts[i - 1] % PCR_CYCLE, w);
    }
  }

  lemma FlushLeaves(c: Cache, pcr: nat, w: Which)
    ensures Pick(c, pcr) != Some(w) ==> Get(Flush(c, Some(pcr)).0, w) == Get(c, w)
    ensures Pick(c, pcr) == Some(w) ==> Get(c, w).ready && Get(Flush(c, Some(pcr)).0, w) == Send(Get(c, w), pcr)
  {
  }

  lemma {:induction false} StaysReady(c: Cache, ts: seq<nat>, w: Which, i: nat)
    requires i <= |ts| && Get(c, w).ready
    ensures Get(CacheAt(c, ts, i), w).ready
  {
    if i > 0 {
      StaysReady(c, ts, w, i - 1);
    }
  }

  /** At flush `i` the silence of a table, counted from the first flush, is not over. */
  predicate Waits(c: Cache, ts: seq<nat>, w: Which, i: nat)
    requires i < |ts|
  {
    ts[i] < ts[0] + Silence(Get(c, w), w, ts[0] % PCR_CYCLE)
  }

  /** No flush sends the table before its silence is over, whatever the timers are. */
  lemma {:induction false} SilentUntil(c: Cache, ts: seq<nat>, w: Which, i: nat)
    requires i < |ts| && Ordered(ts) && Get(c, w).ready
    requires Waits(c, ts, w, i)
    ensures SentAt(c, ts, i) != Some(w)
    decreases i
  {
    forall k | 0 <= k < i ensures SentAt(c, ts, k) != Some(w) {
      SilentUntil(c, ts, w, k);
    }
    TimerStays(c, ts, w, i);
    DueAfterSilence(Get(c, w), w, ts[0], ts[i] - ts[0]);
  }

  /** A table that has just gone out is not sent again with the next two flushes. */
  lemma NotAgain(c: Cache, ts: seq<nat>, w: Which, i: nat)
    requires i < |ts| && Ordered(ts) && SmallSteps(ts) && SentAt(c, ts, i) == Some(w)
    ensures i + 1 < |ts| ==> SentAt(c, ts, i + 1) != Some(w)
    ensures i + 2 < |ts| ==> SentAt(c, ts, i + 2) != Some(w)
  {
    FlushLeaves(CacheAt(c, ts, i), ts[i] % PCR_CYCLE, w);
    if i + 1 < |ts| {
      var x := Get(CacheAt(c, ts, i + 1), w);
      assert ts[i] <= ts[i + 1] <= ts[i] + MAX_STEP;
      NotSoon(x, w, ts[i], ts[i + 1] - ts[i]);
      FlushLeaves(CacheAt(c, ts, i + 1), ts[i + 1] % PCR_CYCLE, w);
      if i + 2 < |ts| {
        assert ts[i + 1] <= ts[i + 1 + 1] <= ts[i + 1] + MAX_STEP;
        NotSoon(x, w, ts[i], ts[i + 2] - ts[i]);
      }
    }
  }

  lemma NotSoon(x: Cached, w: Which, t: nat, d: nat)
    requires x.ready && x.inserted == Some(t % PCR_CYCLE) && d <= 2 * MAX_STEP
    ensures !Due(x, (t + d) % PCR_CYCLE, PeriodMs(w))
  {
    DueAt(x, w, t, d);
  }

  /** Sent with this flush; a PMT at the latest with the next, an SDT with the one after. */
  predicate SentSoon(c: Cache, ts: seq<nat>, w: Which, i: nat)
    requires i + 2 < |ts|
  {
    SentAt(c, ts, i) == Some(w) || (w != Pat && SentAt(c, ts, i + 1) == Some(w))
    || (w == Sdt && SentAt(c, ts, i + 2) == Some(w))
  }

  /** A table that is due and stays due goes out: the PAT at once, the PMT within one further flush, the
    * SDT within two, whatever the other timers are. */
  lemma GoesOut(c: Cache, ts: seq<nat>, w: Which, i: nat)
    requires i + 2 < |ts| && Ordered(ts) && SmallSteps(ts)
    requires forall k :: i <= k <= i + 2 ==> Due(Get(CacheAt(c, ts, i), w), ts[k] % PCR_CYCLE, PeriodMs(w))
    ensures SentSoon(c, ts, w, i)
  {
    var x := Get(CacheAt(c, ts, i), w);
    assert Due(x, ts[i] % PCR_CYCLE, PeriodMs(w)) && Due(x, ts[i + 1] % PCR_CYCLE, PeriodMs(w))
        && Due(x, ts[i + 2] % PCR_CYCLE, PeriodMs(w));
    FlushLeaves(CacheAt(c, ts, i), ts[i] % PCR_CYCLE, w);
    FlushLeaves(CacheAt(c, ts, i + 1), ts[i + 1] % PCR_CYCLE, w);
    var first, second := SentAt(c, ts, i), SentAt(c, ts, i + 1);
    if first != Some(w) {
      NotAgain(c, ts, first.value, i);
      if second != Some(w) {
        NotAgain(c, ts, second.value, i + 1);
      }
    }
  }

  /** Silent to the tick, then sent: from any cache on, a table that has to wait goes out with none of the
    * flushes before its silence is over, and soon after. */
  lemma SilentThenSent(c: Cache, ts: seq<nat>, w: Which, i: nat)
    requires 0 < i < |ts| - 2 && Ordered(ts) && SmallSteps(ts) && Get(c, w).ready
    requires Waits(c, ts, w, i - 1) && !Waits(c, ts, w, i)
    ensures forall k :: 0 <= k < i ==> SentAt(c, ts, k) != Some(w)
    ensures SentSoon(c, ts, w, i)
  {
    var silence := Silence(Get(c, w), w, ts[0] % PCR_CYCLE);
    forall k | 0 <= k < i ensures SentAt(c, ts, k) != Some(w) {
      assert ts[k] <= ts[i - 1];
      SilentUntil(c, ts, w, k);
    }
    TimerStays(c, ts, w, i);
    forall k | i <= k <= i + 2 ensures Due(Get(CacheAt(c, ts, i), w), ts[k] % PCR_CYCLE, PeriodMs(w)) {
      assert ts[i] <= ts[i - 1] + MAX_STEP by {
        assert ts[i - 1 + 1] <= ts[i - 1] + MAX_STEP;
      }
      assert ts[i + 1] <= ts[i] + MAX_STEP && ts[i + 1 + 1] <= ts[i + 1] + MAX_STEP;
      assert ts[i] <= ts[k] <= ts[i + 2];
      DueAfterSilence(Get(c, w), w, ts[0], ts[k] - ts[0] - silence);
    }
    GoesOut(c, ts, w, i);
  }
}
