/** The tables of the multiplexer after anything has happened to its clock: whatever was received and sent
  * before, and however often the clock was set anew, the timers then say how long each stays silent. */
module MuxTimers {
  import opened Common
  import opened Clock
  import opened Queues
  import opened Mux
  import opened MuxTables
  import Framing
  import MuxClock
  import MuxReady
  import Restamper
  import Schedule
  import Timers

  /** The base of the clock is a PCR. */
  predicate Based(r: Restamper.Stamper) {
    r.first.Some? ==> r.first.value < PCR_CYCLE
  }

  lemma ProcessBased(cfg: Config, m: State, pkt: TsPkt, disc: bool)
    requires Based(m.rs)
    ensures Based(ProcessAs(cfg, m, pkt, disc).0.rs)
  {
    var m1 := if disc then Resynced(m, pkt.dts) else m;
    assert Based(m1.rs);
  }

  lemma SlotBased(cfg: Config, m: State)
    requires Based(m.rs)
    ensures Based(CbrSlot(cfg, m).0.rs)
  {
    var t := Ticked(m);
    match Decide(cfg, t)
    case SendNull(kind) =>
    case SendFrom(s, kind) =>
      var (t1, pkt) := Take(t, s, kind);
      ProcessBased(cfg, t1, pkt, MustResync(t1, pkt));
  }

  lemma {:induction false} LoopBased(cfg: Config, m: State, n: nat)
    requires Based(m.rs)
    ensures Based(CbrLoop(cfg, m, n).0.rs)
    decreases n
  {
    if n > 0 {
      SlotBased(cfg, m);
      LoopBased(cfg, CbrSlot(cfg, m).0, n - 1);
      CbrLoopTurn(cfg, m, n);
    }
  }

  lemma FlushBased(cfg: Config, m: State)
    requires Based(m.rs)
    ensures Based(FlushCbr(cfg, m).0.rs)
  {
    var (m1, tables) := FlushTables(m);
    assert Based(m1.rs);
    LoopBased(cfg, m1, SaturatingSub(PktSize(cfg) / TS_PACKET_SIZE, |tables|));
  }

  lemma ReadyCheckBased(cfg: Config, m: State)
    requires Based(m.rs)
    ensures Based(ReadyCheck(cfg, m).rs)
  {
    var n := WithSdt(cfg, m);
    assert n.rs == m.rs && Based(Probe(cfg, n).rs);
    StartBased(cfg, Probe(cfg, n));
  }

  lemma StartBased(cfg: Config, m: State)
    requires Based(m.rs)
    ensures Based(Start(cfg, m).rs)
  {
    AdjustKeeps(cfg, m);
  }

  lemma WriteBased(cfg: Config, m: State, chunk: Bytes)
    requires Based(m.rs)
    ensures Based(Write(cfg, m, chunk).rs)
  {
    var m0, f := Located(Fed(m, chunk)), Framing.Write(m.framer, chunk).1;
    assert m0.rs == m.rs && Relieved(m0).rs == m.rs;
    WriteFrames(cfg, m, chunk);
    if m0.framer.synced && |m0.framer.buf| >= TS_PACKET_SIZE {
      var n := HandleAll(cfg, Relieved(m0), Handled(m, chunk));
      MuxClock.HandleAllLeaves(cfg, Relieved(m0), Handled(m, chunk));
      ReadyCheckBased(cfg, n.(framer := f));
    }
  }

  /** Nothing was sent without a bit rate. */
  ghost predicate AtRate(events: seq<Event>) {
    forall k :: 0 <= k < |events| ==> !events[k].FlushFreely?
  }

  lemma {:induction false} RunBased(cfg: Config, m: State, events: seq<Event>)
    requires Based(m.rs) && AtRate(events)
    ensures Based(Run(cfg, m, events).0.rs)
    decreases |events|
  {
    if events != [] {
      if events[0].Chunk? {
        WriteBased(cfg, m, events[0].bytes);
      } else {
        assert !events[0].FlushFreely?;
        FlushBased(cfg, m);
      }
      RunBased(cfg, Step(cfg, m, events[0]).0, events[1..]);
    }
  }

  /** Where the clock stands, unwrapped from its base on. */
  function Standing(m: State): nat
    requires m.rs.bitrate != 0 && m.rs.first.Some?
  {
    Restamper.Now(m.rs, m.rs.first.value, 0)
  }

  /** Each table stays silent as long as its timer and the clock say, to the tick; after that, or at once
    * if it does not have to wait, it goes out with that flush, or one or two further ones. */
  ghost predicate Resumes(c: Schedule.Cache, ts: seq<nat>) {
    && (forall w, i :: 0 <= i < |ts| && Timers.Waits(c, ts, w, i)
          ==> Schedule.SentAt(c, ts, i) != Some(w))
    && (forall w, i :: 0 < i < |ts| - 2 && Timers.Waits(c, ts, w, i - 1) && !Timers.Waits(c, ts, w, i)
          ==> Timers.SentSoon(c, ts, w, i))
    && (forall w :: |ts| >= 3 && DueFirst(c, ts, w) ==> Timers.SentSoon(c, ts, w, 0))
  }

  /** It does not have to wait. */
  predicate DueFirst(c: Schedule.Cache, ts: seq<nat>, w: Schedule.Which)
    requires |ts| >= 3
  {
    forall k :: 0 <= k <= 2 ==> Schedule.Due(Schedule.Get(c, w), ts[k] % PCR_CYCLE, Schedule.PeriodMs(w))
  }

  lemma AllResume(c: Schedule.Cache, ts: seq<nat>)
    requires Schedule.Ordered(ts) && Schedule.SmallSteps(ts) && c.pat.ready && c.pmt.ready && c.sdt.ready
    ensures Resumes(c, ts)
  {
    forall w, i | 0 <= i < |ts| && Timers.Waits(c, ts, w, i)
      ensures Schedule.SentAt(c, ts, i) != Some(w)
    {
      Timers.SilentUntil(c, ts, w, i);
    }
    forall w, i | 0 < i < |ts| - 2 && Timers.Waits(c, ts, w, i - 1) && !Timers.Waits(c, ts, w, i)
      ensures Timers.SentSoon(c, ts, w, i)
    {
      Timers.SilentThenSent(c, ts, w, i);
    }
    forall w | |ts| >= 3 && DueFirst(c, ts, w) ensures Timers.SentSoon(c, ts, w, 0) {
      assert Schedule.CacheAt(c, ts, 0) == c;
      Timers.GoesOut(c, ts, w, 0);
    }
  }

  /** Let a handler receive and send at a bit rate anything whatever, with any number of resyncs, until
    * it is ready; then run it calmly.  Its clock runs through the instants `ts` from where it stands,
    * each flush sends what the scheduler decides there, and each table resumes when its old timer
    * allows. */
  lemma TablesResume(cfg: Config, bitrate: nat, past: seq<Event>, m: State, events: seq<Event>)
    returns (ts: seq<nat>)
    requires AtRate(past) && m == Run(cfg, Initial(bitrate), past).0 && m.isReady
    requires FastEnough(cfg, m.rs.bitrate) && MuxClock.Calm(cfg, m, events)
    ensures m.rs.bitrate != 0 && m.rs.first.Some?
    ensures OnClock(ts, Readings(cfg, m, events), Standing(m))
    ensures Scheduled(m.cache, ts, TablesSent(cfg, m, events)) && Resumes(m.cache, ts)
  {
    MuxReady.RunKeeps(cfg, Initial(bitrate), past);
    RunBased(cfg, Initial(bitrate), past);
    ts := CalmFromAnywhere(cfg, m, events);
  }

  lemma CalmFromAnywhere(cfg: Config, m: State, events: seq<Event>) returns (ts: seq<nat>)
    requires MuxReady.Inv(m) && m.isReady && Based(m.rs) && FastEnough(cfg, m.rs.bitrate) && MuxClock.Calm(cfg, m, events)
    ensures OnClock(ts, Readings(cfg, m, events), Standing(m))
    ensures Scheduled(m.cache, ts, TablesSent(cfg, m, events)) && Resumes(m.cache, ts)
  {
    var p0 := m.rs.first.value;
    assert Restamper.Tracks(m.rs, p0, m.rs.sent, 0, 0);
    ts := CalmIsScheduled(cfg, m, events, p0, m.rs.sent, 0, 0);
    AllResume(m.cache, ts);
  }
}
