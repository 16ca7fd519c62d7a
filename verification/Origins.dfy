/** Where the tables a multiplexer sends come from: over every run, each is what was made of a section
  * that was received on its PID (src/mux.rs:505-662, src/mux.rs:808-828 and src/mux.rs:1058-1133). */
module Origins {
  import opened Common
  import opened TsPacket
  import opened Mux
  import opened Queues
  import opened Configured
  import Framing
  import Pat
  import Restamper
  import Schedule
  import Sdt
  import Sections

  // ----- what is received -----

  /** A section that came out of the reassembler for a table. */
  datatype Receipt = Receipt(table: Schedule.Which, section: Bytes)

  function PidOf(cfg: Config, w: Schedule.Which): Pid {
    match w
    case Pat => PAT_PID
    case Pmt => cfg.pmtPid
    case Sdt => SDT_PID
  }

  /** The table a packet is reassembled for: a clear packet on its PID while the table, or the
    * multiplexer, is not ready, the SDT only after a PAT and while no table differs. */
  function Route(cfg: Config, m: State, p: Packet): Option<Schedule.Which> {
    var pid := PktPid(p);
    if ScramblingControl(p) != 0 || pid == NULL_PID then None
    else if pid == PAT_PID then
      if !m.cache.pat.ready || !m.isReady then Some(Schedule.Pat) else None
    else if pid == cfg.pmtPid && (!m.cache.pmt.ready || !m.isReady) then Some(Schedule.Pmt)
    else if pid == SDT_PID && !m.dirtyPat && !m.dirtyPmt && m.cache.pat.ready && !m.cache.sdt.ready then
      Some(Schedule.Sdt)
    else None
  }

  function Received(cfg: Config, m: State, p: Packet): seq<Receipt> {
    match Route(cfg, m, p)
    case None => []
    case Some(w) =>
      match Sections.PushTable(m.reasm, p).1
      case None => []
      case Some(section) => [Receipt(w, section)]
  }

  function ReceivedAll(cfg: Config, m: State, ps: seq<Packet>): seq<Receipt>
    decreases |ps|
  {
    if ps == [] then [] else Received(cfg, m, ps[0]) + ReceivedAll(cfg, Handle(cfg, m, ps[0]), ps[1..])
  }

  /** The state in which a chunk's packets are handled. */
  function Opened(m: State, bytes: Bytes): State {
    Relieved(Located(Fed(m, bytes)))
  }

  function ReceivedIn(cfg: Config, m: State, e: Event): seq<Receipt> {
    match e
    case Chunk(bytes) => ReceivedAll(cfg, Opened(m, bytes), Handled(m, bytes))
    case _ => []
  }

  /** The sections received in a run, in order. */
  function ReceivedBy(cfg: Config, m: State, events: seq<Event>): seq<Receipt>
    decreases |events|
  {
    if events == [] then []
    else ReceivedIn(cfg, m, events[0]) + ReceivedBy(cfg, Step(cfg, m, events[0]).0, events[1..])
  }

  function First(got: seq<Receipt>, w: Schedule.Which): Option<Bytes> {
    if got == [] then None else if got[0].table == w then Some(got[0].section) else First(got[1..], w)
  }

  lemma {:induction false} FirstStays(got: seq<Receipt>, more: seq<Receipt>, w: Schedule.Which)
    ensures First(got + more, w) == if First(got, w).Some? then First(got, w) else First(more, w)
  {
    if got == [] {
      assert got + more == more;
    } else {
      assert (got + more)[1..] == got[1..] + more;
      FirstStays(got[1..], more, w);
    }
  }

  lemma {:induction false} FirstIsIn(got: seq<Receipt>, w: Schedule.Which)
    ensures First(got, w).Some? ==> Receipt(w, First(got, w).value) in got
    ensures First(got, w).None? ==> forall x :: x in got ==> x.table != w
  {
    if got != [] && got[0].table != w {
      FirstIsIn(got[1..], w);
    } else if got != [] {
      assert got[0] == Receipt(w, First(got, w).value);
    }
  }

  /** The packets that reach the reassembler. */
  function PushedAll(cfg: Config, m: State, ps: seq<Packet>): seq<Packet>
    decreases |ps|
  {
    if ps == [] then []
    else (if Route(cfg, m, ps[0]).Some? then [ps[0]] else []) + PushedAll(cfg, Handle(cfg, m, ps[0]), ps[1..])
  }

  function PushedBy(cfg: Config, m: State, events: seq<Event>): seq<Packet>
    decreases |events|
  {
    if events == [] then []
    else
      (match events[0]
       case Chunk(bytes) => PushedAll(cfg, Opened(m, bytes), Handled(m, bytes))
       case _ => [])
      + PushedBy(cfg, Step(cfg, m, events[0]).0, events[1..])
  }

  // ----- what is made of it -----

  function Rewritten(cfg: Config, w: Schedule.Which, section: Bytes): Bytes {
    if w == Schedule.Pat then cfg.tables.patSection(section) else cfg.tables.pmtSection(section)
  }

  /** The packet is the section's first and, if it fits, only one, whatever its counter. */
  predicate Carries(p: Packet, section: Bytes, pid: Pid) {
    SameButCc(p, Sections.PackOne(section, pid, 0))
  }

  /** Built from the configuration alone, or from an SDT that was received, with this PAT at hand. */
  ghost predicate SdtFrom(cfg: Config, pat: Packet, got: seq<Receipt>, section: Bytes) {
    cfg.tables.sdtDefault(pat) == section
    || exists r :: Receipt(Schedule.Sdt, r) in got && cfg.tables.sdtSection(pat, r) == Some(section)
  }

  /** The PAT at hand is the one made of the first PAT received. */
  ghost predicate SdtMade(cfg: Config, got: seq<Receipt>, section: Bytes) {
    First(got, Schedule.Pat).Some? &&
    exists pat: Packet ::
      Carries(pat, cfg.tables.patSection(First(got, Schedule.Pat).value), PAT_PID) && SdtFrom(cfg, pat, got, section)
  }

  /** The packet is, but for its counter, what was made of the first section received for its table;
    * for the SDT, of some section received or of none. */
  ghost predicate Made(cfg: Config, got: seq<Receipt>, w: Schedule.Which, p: Packet) {
    if w == Schedule.Sdt then exists section :: SdtMade(cfg, got, section) && Carries(p, section, SDT_PID)
    else First(got, w).Some? && Carries(p, Rewritten(cfg, w, First(got, w).value), PidOf(cfg, w))
  }

  ghost predicate Cached(cfg: Config, m: State, got: seq<Receipt>) {
    && Sections.TableInv(m.reasm)
    && (forall x :: x in got ==> Sections.WellSized(x.section))
    && (m.cache.pat.ready <==> First(got, Schedule.Pat).Some?)
    && (m.cache.pmt.ready <==> First(got, Schedule.Pmt).Some?)
    && (m.cache.pat.ready ==> First(got, Schedule.Pat) == Some(m.patInfo)
                              && Made(cfg, got, Schedule.Pat, m.cache.pat.packet))
    && (m.cache.pmt.ready ==> First(got, Schedule.Pmt) == Some(m.pmtInfo)
                              && Made(cfg, got, Schedule.Pmt, m.cache.pmt.packet))
    && (m.cache.sdt.ready ==> Made(cfg, got, Schedule.Sdt, m.cache.sdt.packet))
  }

  lemma PackOneIgnoresCc(section: Bytes, pid: Pid, cc: nat)
    ensures Carries(Sections.PackOne(section, pid, cc), section, pid)
  {
    Sections.FirstOfPack(section, pid, cc);
    Sections.FirstOfPack(section, pid, 0);
    var chunk := section[..Min(Sections.FIRST_CAPACITY, |section|)];
    var p, q := Sections.PacketOf(chunk, pid, cc, true), Sections.PacketOf(chunk, pid, 0, true);
    assert forall k :: 0 <= k < TS_PACKET_SIZE && k != 3 ==> p[k] == q[k];
    assert p[3] == 16 + cc % 16;
  }

  lemma StepCarries(p: Packet, section: Bytes, pid: Pid)
    requires Carries(p, section, pid)
    ensures Carries(NextCc(p), section, pid)
  {
    NextCcSteps(p);
  }

  lemma StepMade(cfg: Config, got: seq<Receipt>, w: Schedule.Which, p: Packet)
    requires Made(cfg, got, w, p)
    ensures Made(cfg, got, w, NextCc(p))
  {
    if w == Schedule.Sdt {
      var section :| SdtMade(cfg, got, section) && Carries(p, section, SDT_PID);
      StepCarries(p, section, SDT_PID);
    } else {
      StepCarries(p, Rewritten(cfg, w, First(got, w).value), PidOf(cfg, w));
    }
  }

  lemma SdtMadeStays(cfg: Config, got: seq<Receipt>, more: seq<Receipt>, section: Bytes)
    requires SdtMade(cfg, got, section)
    ensures SdtMade(cfg, got + more, section)
  {
    FirstStays(got, more, Schedule.Pat);
    var pat: Packet :| Carries(pat, cfg.tables.patSection(First(got, Schedule.Pat).value), PAT_PID)
                       && SdtFrom(cfg, pat, got, section);
    assert SdtFrom(cfg, pat, got + more, section);
  }

  lemma MadeStays(cfg: Config, got: seq<Receipt>, more: seq<Receipt>, w: Schedule.Which, p: Packet)
    requires Made(cfg, got, w, p)
    ensures Made(cfg, got + more, w, p)
  {
    FirstStays(got, more, w);
    if w == Schedule.Sdt {
      var section :| SdtMade(cfg, got, section) && Carries(p, section, SDT_PID);
      SdtMadeStays(cfg, got, more, section);
    }
  }

  // ----- receiving keeps it -----

  lemma InitialCached(cfg: Config, bitrate: nat)
    ensures Cached(cfg, Initial(bitrate), [])
  {
  }

  lemma Reassembles(m: State, p: Packet)
    requires Sections.TableInv(m.reasm)
    ensures var (reasm, got) := Sections.PushTable(m.reasm, p);
            Sections.TableInv(reasm) && (got.Some? ==> Sections.WellSized(got.value))
  {
    Sections.AcceptSafe(Sections.Lookup(m.reasm, PktPid(p)), p);
  }

  lemma OneMore(got: seq<Receipt>, w: Schedule.Which, section: Bytes, v: Schedule.Which)
    ensures First(got + [Receipt(w, section)], v)
            == if First(got, v).Some? then First(got, v) else if v == w then Some(section) else None
  {
    FirstStays(got, [Receipt(w, section)], v);
    assert [Receipt(w, section)][1..] == [];
  }

  lemma AcceptPatCached(cfg: Config, m: State, got: seq<Receipt>, section: Bytes)
    requires Cached(cfg, m, got) && Sections.WellSized(section)
    ensures Cached(cfg, AcceptPat(cfg, m, section, PAT_PID), got + [Receipt(Schedule.Pat, section)])
  {
    if m.cache.pat.ready {
      OthersStay(cfg, m, got, Receipt(Schedule.Pat, section));
    } else {
      var x := Store(m.cache.pat, cfg.tables.patSection(section), PAT_PID);
      PackOneIgnoresCc(cfg.tables.patSection(section), PAT_PID, CachedCc(m.cache.pat.packet));
      KeepPatCached(cfg, m, got, section, x);
    }
  }

  lemma KeepPatCached(cfg: Config, m: State, got: seq<Receipt>, section: Bytes, x: Schedule.Cached)
    requires Cached(cfg, m, got) && Sections.WellSized(section) && !m.cache.pat.ready
    requires x.ready && Carries(x.packet, cfg.tables.patSection(section), PAT_PID)
    ensures Cached(cfg, KeepPat(m, section, x), got + [Receipt(Schedule.Pat, section)])
  {
    OthersStay(cfg, m, got, Receipt(Schedule.Pat, section));
    OneMore(got, Schedule.Pat, section, Schedule.Pat);
    assert Made(cfg, got + [Receipt(Schedule.Pat, section)], Schedule.Pat, x.packet);
  }

  lemma AcceptPmtCached(cfg: Config, m: State, got: seq<Receipt>, section: Bytes)
    requires Cached(cfg, m, got) && Sections.WellSized(section)
    ensures Cached(cfg, AcceptPmt(cfg, m, section, cfg.pmtPid), got + [Receipt(Schedule.Pmt, section)])
  {
    if m.cache.pmt.ready {
      OthersStay(cfg, m, got, Receipt(Schedule.Pmt, section));
    } else {
      var x := Store(m.cache.pmt, cfg.tables.pmtSection(section), cfg.pmtPid);
      PackOneIgnoresCc(cfg.tables.pmtSection(section), cfg.pmtPid, CachedCc(m.cache.pmt.packet));
      KeepPmtCached(cfg, m, got, section, x);
    }
  }

  lemma KeepPmtCached(cfg: Config, m: State, got: seq<Receipt>, section: Bytes, x: Schedule.Cached)
    requires Cached(cfg, m, got) && Sections.WellSized(section) && !m.cache.pmt.ready
    requires x.ready && Carries(x.packet, cfg.tables.pmtSection(section), cfg.pmtPid)
    ensures Cached(cfg, KeepPmt(m, section, x), got + [Receipt(Schedule.Pmt, section)])
  {
    OthersStay(cfg, m, got, Receipt(Schedule.Pmt, section));
    OneMore(got, Schedule.Pmt, section, Schedule.Pmt);
    assert Made(cfg, got + [Receipt(Schedule.Pmt, section)], Schedule.Pmt, x.packet);
  }

  /** One receipt more leaves what is said of the tables that are set. */
  lemma OthersStay(cfg: Config, m: State, got: seq<Receipt>, x: Receipt)
    requires Cached(cfg, m, got) && Sections.WellSized(x.section)
    ensures forall y :: y in got + [x] ==> Sections.WellSized(y.section)
    ensures forall w: Schedule.Which :: Schedule.Get(m.cache, w).ready
              ==> Made(cfg, got + [x], w, Schedule.Get(m.cache, w).packet)
    ensures forall w: Schedule.Which :: w != x.table ==> First(got + [x], w) == First(got, w)
    ensures forall w: Schedule.Which :: First(got, w).Some? ==> First(got + [x], w) == First(got, w)
  {
    forall w: Schedule.Which | Schedule.Get(m.cache, w).ready
      ensures Made(cfg, got + [x], w, Schedule.Get(m.cache, w).packet)
    {
      MadeStays(cfg, got, [x], w, Schedule.Get(m.cache, w).packet);
    }
    forall w: Schedule.Which
      ensures w != x.table || First(got, w).Some? ==> First(got + [x], w) == First(got, w)
    {
      OneMore(got, x.table, x.section, w);
    }
  }

  lemma StoreSdtCached(cfg: Config, m: State, got: seq<Receipt>, section: Bytes)
    requires Cached(cfg, m, got) && SdtMade(cfg, got, section)
    ensures Cached(cfg, StoreSdt(m, section), got)
  {
    PackOneIgnoresCc(section, SDT_PID, 0);
  }

  lemma AcceptSdtCached(cfg: Config, m: State, got: seq<Receipt>, section: Bytes)
    requires Cached(cfg, m, got) && Sections.WellSized(section) && m.cache.pat.ready
    ensures var made := cfg.tables.sdtSection(m.cache.pat.packet, section);
            Cached(cfg, if made.Some? then StoreSdt(m, made.value) else m, got + [Receipt(Schedule.Sdt, section)])
  {
    var x, made := Receipt(Schedule.Sdt, section), cfg.tables.sdtSection(m.cache.pat.packet, section);
    OthersStay(cfg, m, got, x);
    assert Cached(cfg, m, got + [x]);
    if made.Some? {
      assert x in got + [x];
      assert SdtFrom(cfg, m.cache.pat.packet, got + [x], made.value);
      StoreSdtCached(cfg, m, got + [x], made.value);
    }
  }

  lemma ProcessCached(cfg: Config, m: State, got: seq<Receipt>, w: Schedule.Which, p: Packet)
    requires Cached(cfg, m, got) && PktPid(p) == PidOf(cfg, w) && (w == Schedule.Sdt ==> m.cache.pat.ready)
    ensures var out := Sections.PushTable(m.reasm, p).1;
            Cached(cfg, ProcessFor(cfg, m, w, p),
                   got + if out.Some? then [Receipt(w, out.value)] else [])
  {
    var (reasm, out) := Sections.PushTable(m.reasm, p);
    var n := m.(reasm := reasm);
    Reassembles(m, p);
    assert Cached(cfg, n, got);
    ProcessIsAccept(cfg, m, w, p);
    if out.Some? {
      AcceptCached(cfg, n, got, w, out.value);
    } else {
      assert got + [] == got;
    }
  }

  function AcceptFor(cfg: Config, m: State, w: Schedule.Which, section: Bytes): State {
    match w
    case Pat => AcceptPat(cfg, m, section, PAT_PID)
    case Pmt => AcceptPmt(cfg, m, section, cfg.pmtPid)
    case Sdt =>
      var made := cfg.tables.sdtSection(m.cache.pat.packet, section);
      if made.Some? then StoreSdt(m, made.value) else m
  }

  lemma AcceptCached(cfg: Config, m: State, got: seq<Receipt>, w: Schedule.Which, section: Bytes)
    requires Cached(cfg, m, got) && Sections.WellSized(section) && (w == Schedule.Sdt ==> m.cache.pat.ready)
    ensures Cached(cfg, AcceptFor(cfg, m, w, section), got + [Receipt(w, section)])
  {
    match w {
      case Pat => AcceptPatCached(cfg, m, got, section);
      case Pmt => AcceptPmtCached(cfg, m, got, section);
      case Sdt => AcceptSdtCached(cfg, m, got, section);
    }
  }

  lemma ProcessIsAccept(cfg: Config, m: State, w: Schedule.Which, p: Packet)
    requires PktPid(p) == PidOf(cfg, w)
    ensures var (reasm, out) := Sections.PushTable(m.reasm, p);
            ProcessFor(cfg, m, w, p)
            == if out.Some? then AcceptFor(cfg, m.(reasm := reasm), w, out.value) else m.(reasm := reasm)
  {
  }

  function ProcessFor(cfg: Config, m: State, w: Schedule.Which, p: Packet): State {
    match w
    case Pat => ProcessPat(cfg, m, p)
    case Pmt => ProcessPmt(cfg, m, p)
    case Sdt => ProcessSdt(cfg, m, p)
  }

  /** The parts of the state the tables live in. */
  predicate SameTables(m: State, n: State) {
    n.reasm == m.reasm && n.cache == m.cache && n.patInfo == m.patInfo && n.pmtInfo == m.pmtInfo
  }

  lemma AppendLeavesTables(cfg: Config, m: State, pkt: TsPkt)
    ensures SameTables(m, Append(cfg, m, pkt))
  {
  }

  lemma EnqueueLeavesTables(cfg: Config, m: State, p: Packet)
    ensures SameTables(m, Enqueue(cfg, m, p))
  {
    var n := Stamped(m, PktPid(p), PtsDts(p, PktPid(p)));
    assert SameTables(m, n);
    if Entry(cfg, m, p).Some? {
      AppendLeavesTables(cfg, n, Entry(cfg, m, p).value);
    }
  }

  lemma SameTablesCached(cfg: Config, m: State, n: State, got: seq<Receipt>)
    requires Cached(cfg, m, got) && SameTables(m, n)
    ensures Cached(cfg, n, got)
  {
  }

  /** `Route` is right: a packet it names no table for leaves every table alone, any other is processed
    * for the table it names. */
  lemma HandleRoutes(cfg: Config, m: State, p: Packet)
    ensures Route(cfg, m, p).None? ==> SameTables(m, Handle(cfg, m, p))
    ensures Route(cfg, m, p).Some? ==>
              var w := Route(cfg, m, p).value;
              && PktPid(p) == PidOf(cfg, w) && (w == Schedule.Sdt ==> m.cache.pat.ready)
              && Handle(cfg, m, p) == ProcessFor(cfg, m.(dirtyCa := false), w, p)
  {
    EnqueueLeavesTables(cfg, m.(dirtyCa := false), p);
  }

  lemma HandleCached(cfg: Config, m: State, got: seq<Receipt>, p: Packet)
    requires Cached(cfg, m, got)
    ensures Cached(cfg, Handle(cfg, m, p), got + Received(cfg, m, p))
  {
    HandleRoutes(cfg, m, p);
    if Route(cfg, m, p).Some? {
      SameTablesCached(cfg, m, m.(dirtyCa := false), got);
      ProcessCached(cfg, m.(dirtyCa := false), got, Route(cfg, m, p).value, p);
    } else {
      SameTablesCached(cfg, m, Handle(cfg, m, p), got);
      assert got + [] == got;
    }
  }

  lemma Regroup(cfg: Config, m: State, a: seq<Receipt>, b: seq<Receipt>, c: seq<Receipt>)
    requires Cached(cfg, m, a + b + c)
    ensures Cached(cfg, m, a + (b + c))
  {
    assert a + b + c == a + (b + c);
  }

  lemma {:induction false} HandleAllCached(cfg: Config, m: State, got: seq<Receipt>, ps: seq<Packet>)
    requires Cached(cfg, m, got)
    ensures Cached(cfg, HandleAll(cfg, m, ps), got + ReceivedAll(cfg, m, ps))
    decreases |ps|
  {
    if ps == [] {
      assert got + [] == got;
    } else {
      var one, more := Received(cfg, m, ps[0]), ReceivedAll(cfg, Handle(cfg, m, ps[0]), ps[1..]);
      HandleCached(cfg, m, got, ps[0]);
      HandleAllCached(cfg, Handle(cfg, m, ps[0]), got + one, ps[1..]);
      Regroup(cfg, HandleAll(cfg, m, ps), got, one, more);
    }
  }

  lemma StartLeavesTables(cfg: Config, m: State)
    ensures SameTables(m, Start(cfg, m))
  {
    AdjustKeeps(cfg, m);
  }

  lemma WithSdtCached(cfg: Config, m: State, got: seq<Receipt>)
    requires Cached(cfg, m, got) && m.cache.pat.ready
    ensures Cached(cfg, WithSdt(cfg, m), got)
  {
    var pat := m.cache.pat.packet;
    assert SdtFrom(cfg, pat, got, cfg.tables.sdtDefault(pat));
    StoreSdtCached(cfg, m, got, cfg.tables.sdtDefault(pat));
  }

  lemma ReadyCheckCached(cfg: Config, m: State, got: seq<Receipt>)
    requires Cached(cfg, m, got)
    ensures Cached(cfg, ReadyCheck(cfg, m), got)
  {
    if !(Dirty(m) || m.isReady || !m.cache.pat.ready || !m.cache.pmt.ready) {
      var n := WithSdt(cfg, m);
      WithSdtCached(cfg, m, got);
      assert SameTables(n, Probe(cfg, n)) && SameTables(n, BuffersClear(n));
      StartLeavesTables(cfg, Probe(cfg, n));
      SameTablesCached(cfg, n, ReadyCheck(cfg, m), got);
    }
  }

  lemma SettleCached(cfg: Config, m: State, got: seq<Receipt>)
    requires Cached(cfg, m, got)
    ensures Cached(cfg, Settle(cfg, m), got)
  {
    if m.framer.synced {
      ReadyCheckCached(cfg, m, got);
    } else {
      SameTablesCached(cfg, m, BuffersClear(m), got);
    }
  }

  lemma WriteCached(cfg: Config, m: State, got: seq<Receipt>, bytes: Bytes)
    requires Cached(cfg, m, got)
    ensures Cached(cfg, Write(cfg, m, bytes), got + ReceivedIn(cfg, m, Chunk(bytes)))
  {
    var m0 := Located(Fed(m, bytes));
    WriteFrames(cfg, m, bytes);
    assert SameTables(m, m0) && SameTables(m, Relieved(m0));
    SameTablesCached(cfg, m, m0, got);
    SameTablesCached(cfg, m, Relieved(m0), got);
    if m0.framer.synced && |m0.framer.buf| >= TS_PACKET_SIZE {
      var ps := Handled(m, bytes);
      HandleAllCached(cfg, Relieved(m0), got, ps);
      var n := HandleAll(cfg, Relieved(m0), ps);
      var f := Framing.Write(m.framer, bytes).1;
      SameTablesCached(cfg, n, n.(framer := f), got + ReceivedAll(cfg, Relieved(m0), ps));
      SettleCached(cfg, n.(framer := f), got + ReceivedAll(cfg, Relieved(m0), ps));
    } else {
      assert got + [] == got;
    }
  }

  // ----- so does sending -----

  lemma FlushHolds(cfg: Config, m: State, got: seq<Receipt>, pcr: Option<nat>)
    requires Cached(cfg, m, got)
    ensures Cached(cfg, m.(cache := Schedule.Flush(m.cache, pcr).0), got)
  {
    if pcr.Some? && Schedule.Pick(m.cache, pcr.value).Some? {
      var w := Schedule.Pick(m.cache, pcr.value).value;
      StepMade(cfg, got, w, Schedule.Get(m.cache, w).packet);
      SendHolds(cfg, m, got, w, Schedule.Send(Schedule.Get(m.cache, w), pcr.value));
    }
  }

  lemma SendHolds(cfg: Config, m: State, got: seq<Receipt>, w: Schedule.Which, x: Schedule.Cached)
    requires Cached(cfg, m, got) && Schedule.Get(m.cache, w).ready && x.ready && Made(cfg, got, w, x.packet)
    ensures Cached(cfg, m.(cache := Schedule.Set(m.cache, w, x)), got)
  {
  }

  lemma EmitLeavesTables(cfg: Config, m: State, s: Source, kind: Kind)
    requires s != Neither && (s == FromA ==> m.a != []) && (s == FromV ==> m.v != [])
    ensures SameTables(m, EmitFrom(cfg, m, s, kind).0)
  {
    var (m1, pkt) := Take(m, s, kind);
    assert SameTables(m, m1);
    ProcessLeavesTables(cfg, m1, pkt, MustResync(m1, pkt));
  }

  lemma ProcessLeavesTables(cfg: Config, m: State, pkt: TsPkt, disc: bool)
    ensures SameTables(m, ProcessAs(cfg, m, pkt, disc).0)
  {
  }

  lemma SlotLeavesTables(cfg: Config, m: State)
    ensures SameTables(m, CbrSlot(cfg, m).0)
  {
    match Decide(cfg, Ticked(m))
    case SendNull(kind) =>
    case SendFrom(s, kind) => EmitLeavesTables(cfg, Ticked(m), s, kind);
  }

  lemma {:induction false} LoopLeavesTables(cfg: Config, m: State, n: nat)
    ensures SameTables(m, CbrLoop(cfg, m, n).0)
    decreases n
  {
    if n > 0 {
      SlotLeavesTables(cfg, m);
      LoopLeavesTables(cfg, CbrSlot(cfg, m).0, n - 1);
      CbrLoopTurn(cfg, m, n);
    }
  }

  lemma {:induction false} VbrLeavesTables(m: State, n: nat)
    ensures SameTables(m, VbrLoop(m, n).0)
    decreases n
  {
    if n > 0 && GetAOrV(m).1.Some? {
      VbrLeavesTables(Counted(GetAOrV(m).0), n - 1);
    }
  }

  lemma FlushCbrCached(cfg: Config, m: State, got: seq<Receipt>)
    requires Cached(cfg, m, got)
    ensures Cached(cfg, FlushCbr(cfg, m).0, got)
  {
    if !Dirty(m) && m.isReady {
      FlushHolds(cfg, m, got, Restamper.GetPcr(m.rs));
      var (m1, tables) := FlushTables(m);
      LoopLeavesTables(cfg, m1, SaturatingSub(PktSize(cfg) / TS_PACKET_SIZE, |tables|));
    }
  }

  lemma FlushVbrCached(cfg: Config, m: State, got: seq<Receipt>)
    requires Cached(cfg, m, got)
    ensures Cached(cfg, FlushVbr(cfg, m).0, got)
  {
    if !Dirty(m) && m.isReady {
      FlushHolds(cfg, m, got, Restamper.GetPcr(m.rs));
      var (m1, tables) := CountTables(m);
      VbrLeavesTables(m1, SaturatingSub(PktSize(cfg) / TS_PACKET_SIZE, |tables|));
    }
  }

  lemma StepCached(cfg: Config, m: State, got: seq<Receipt>, e: Event)
    requires Cached(cfg, m, got)
    ensures Cached(cfg, Step(cfg, m, e).0, got + ReceivedIn(cfg, m, e))
  {
    match e {
      case Chunk(bytes) => WriteCached(cfg, m, got, bytes);
      case FlushAtRate =>
        FlushCbrCached(cfg, m, got);
        assert got + [] == got;
      case FlushFreely =>
        FlushVbrCached(cfg, m, got);
        assert got + [] == got;
    }
  }

  /** In every run, whatever the table functions: a table is set exactly if a section for it was
    * received, what later ones are compared with is the first of them, and the cached packet is what
    * was made of that; the SDT of one that was received, or of none, and of that PAT. */
  lemma {:induction false} AlwaysCached(cfg: Config, m: State, got: seq<Receipt>, events: seq<Event>)
    requires Cached(cfg, m, got)
    ensures Cached(cfg, Run(cfg, m, events).0, got + ReceivedBy(cfg, m, events))
    decreases |events|
  {
    if events == [] {
      assert got + [] == got;
    } else {
      var n, one := Step(cfg, m, events[0]).0, ReceivedIn(cfg, m, events[0]);
      StepCached(cfg, m, got, events[0]);
      AlwaysCached(cfg, n, got + one, events[1..]);
      Regroup(cfg, Run(cfg, m, events).0, got, one, ReceivedBy(cfg, n, events[1..]));
    }
  }

  // ----- what is received is what the reassembler returns -----

  function SectionsOf(got: seq<Receipt>): (r: seq<Bytes>)
    ensures |r| == |got| && forall k :: 0 <= k < |got| ==> r[k] == got[k].section
  {
    seq(|got|, k requires 0 <= k < |got| => got[k].section)
  }

  /** From one table state to another over these packets, these sections are returned. */
  ghost predicate Returns(t: Sections.Table, ps: seq<Packet>, t': Sections.Table, sections: seq<Bytes>) {
    Sections.RunTable(t, ps).0 == t' && Sections.Somes(Sections.RunTable(t, ps).1) == sections
  }

  lemma {:induction false} ReturnsJoin(t: Sections.Table, ps: seq<Packet>, t': Sections.Table, xs: seq<Bytes>,
                                       qs: seq<Packet>, t'': Sections.Table, ys: seq<Bytes>)
    requires Returns(t, ps, t', xs) && Returns(t', qs, t'', ys)
    ensures Returns(t, ps + qs, t'', xs + ys)
    decreases |ps|
  {
    if ps == [] {
      assert ps + qs == qs && xs + ys == ys;
    } else {
      var (t1, out) := Sections.PushTable(t, ps[0]);
      var rest := Sections.RunTable(t1, ps[1..]).1;
      assert Sections.RunTable(t, ps).1 == [out] + rest && ([out] + rest)[1..] == rest;
      ReturnsJoin(t1, ps[1..], t', Sections.Somes(rest), qs, t'', ys);
      assert (ps + qs)[1..] == ps[1..] + qs;
      var all := Sections.RunTable(t1, ps[1..] + qs).1;
      assert Sections.RunTable(t, ps + qs).1 == [out] + all && ([out] + all)[1..] == all;
      assert (if out.Some? then [out.value] else []) + (Sections.Somes(rest) + ys) == xs + ys;
    }
  }

  lemma PushReturns(t: Sections.Table, p: Packet)
    ensures var (t', out) := Sections.PushTable(t, p);
            Returns(t, [p], t', if out.Some? then [out.value] else [])
  {
    var (t', out) := Sections.PushTable(t, p);
    assert [p][1..] == [];
    var outs := Sections.RunTable(t, [p]).1;
    assert outs == [out] && outs[1..] == [];
  }

  lemma HandleReturns(cfg: Config, m: State, p: Packet)
    ensures Returns(m.reasm, if Route(cfg, m, p).Some? then [p] else [], Handle(cfg, m, p).reasm,
                    SectionsOf(Received(cfg, m, p)))
  {
    HandleRoutes(cfg, m, p);
    if Route(cfg, m, p).Some? {
      PushReturns(m.reasm, p);
      ProcessIsAccept(cfg, m.(dirtyCa := false), Route(cfg, m, p).value, p);
    }
  }

  lemma {:induction false} HandleAllReturns(cfg: Config, m: State, ps: seq<Packet>)
    ensures Returns(m.reasm, PushedAll(cfg, m, ps), HandleAll(cfg, m, ps).reasm, SectionsOf(ReceivedAll(cfg, m, ps)))
    decreases |ps|
  {
    if ps != [] {
      var n := Handle(cfg, m, ps[0]);
      HandleReturns(cfg, m, ps[0]);
      HandleAllReturns(cfg, n, ps[1..]);
      ReceiptsJoin(m.reasm, if Route(cfg, m, ps[0]).Some? then [ps[0]] else [], n.reasm, Received(cfg, m, ps[0]),
                   PushedAll(cfg, n, ps[1..]), HandleAll(cfg, m, ps).reasm, ReceivedAll(cfg, n, ps[1..]));
    }
  }

  lemma ReceiptsJoin(t: Sections.Table, ps: seq<Packet>, t': Sections.Table, a: seq<Receipt>,
                     qs: seq<Packet>, t'': Sections.Table, b: seq<Receipt>)
    requires Returns(t, ps, t', SectionsOf(a)) && Returns(t', qs, t'', SectionsOf(b))
    ensures Returns(t, ps + qs, t'', SectionsOf(a + b))
  {
    ReturnsJoin(t, ps, t', SectionsOf(a), qs, t'', SectionsOf(b));
    assert SectionsOf(a) + SectionsOf(b) == SectionsOf(a + b);
  }

  lemma SettleLeavesReasm(cfg: Config, m: State)
    ensures Settle(cfg, m).reasm == m.reasm
  {
    var n := WithSdt(cfg, m);
    assert n.reasm == m.reasm && SameTables(n, Probe(cfg, n)) && SameTables(n, BuffersClear(n));
    StartLeavesTables(cfg, Probe(cfg, n));
  }

  lemma WriteReturns(cfg: Config, m: State, bytes: Bytes)
    ensures Returns(m.reasm, PushedAll(cfg, Opened(m, bytes), Handled(m, bytes)), Write(cfg, m, bytes).reasm,
                    SectionsOf(ReceivedIn(cfg, m, Chunk(bytes))))
  {
    HandleAllReturns(cfg, Opened(m, bytes), Handled(m, bytes));
    WriteReasm(cfg, m, bytes);
  }

  lemma WriteReasm(cfg: Config, m: State, bytes: Bytes)
    ensures Opened(m, bytes).reasm == m.reasm
    ensures Write(cfg, m, bytes).reasm == HandleAll(cfg, Opened(m, bytes), Handled(m, bytes)).reasm
  {
    var m0, f := Located(Fed(m, bytes)), Framing.Write(m.framer, bytes).1;
    assert m0.reasm == m.reasm && Relieved(m0).reasm == m0.reasm;
    WriteFrames(cfg, m, bytes);
    if m0.framer.synced && |m0.framer.buf| >= TS_PACKET_SIZE {
      var n := HandleAll(cfg, Relieved(m0), Handled(m, bytes));
      SettleLeavesReasm(cfg, n.(framer := f));
    } else {
      assert Handled(m, bytes) == [];
    }
  }

  lemma FlushLeavesReasm(cfg: Config, m: State)
    ensures FlushCbr(cfg, m).0.reasm == m.reasm && FlushVbr(cfg, m).0.reasm == m.reasm
  {
    LoopLeavesTables(cfg, FlushTables(m).0, SaturatingSub(PktSize(cfg) / TS_PACKET_SIZE, |FlushTables(m).1|));
    VbrLeavesTables(CountTables(m).0, SaturatingSub(PktSize(cfg) / TS_PACKET_SIZE, |CountTables(m).1|));
  }

  /** Over every run, the sections received are exactly those the map of reassemblers returns when it is
    * fed the packets that were routed to it, and nothing else touches it. */
  lemma {:induction false} ReceivedIsReassembled(cfg: Config, m: State, events: seq<Event>)
    ensures Returns(m.reasm, PushedBy(cfg, m, events), Run(cfg, m, events).0.reasm,
                    SectionsOf(ReceivedBy(cfg, m, events)))
    decreases |events|
  {
    if events != [] {
      var n := Step(cfg, m, events[0]).0;
      var one, more := ReceivedIn(cfg, m, events[0]), ReceivedBy(cfg, n, events[1..]);
      ReceivedIsReassembled(cfg, n, events[1..]);
      match events[0] {
        case Chunk(bytes) =>
          WriteReturns(cfg, m, bytes);
          ReceiptsJoin(m.reasm, PushedAll(cfg, Opened(m, bytes), Handled(m, bytes)), n.reasm, one,
                       PushedBy(cfg, n, events[1..]), Run(cfg, m, events).0.reasm, more);
        case _ =>
          FlushLeavesReasm(cfg, m);
          assert [] + PushedBy(cfg, n, events[1..]) == PushedBy(cfg, n, events[1..]);
          assert [] + more == more;
      }
    }
  }

  // ----- every table packet a run sends -----

  /** The table the next flush starts with, if one is due. */
  function Picked(m: State): Option<Schedule.Which> {
    var pcr := Restamper.GetPcr(m.rs);
    if pcr.None? then None else Schedule.Pick(m.cache, pcr.value)
  }

  /** For each packet an event sends, the table it carries, if any. */
  function StepLabels(cfg: Config, m: State, e: Event): (r: seq<Option<Schedule.Which>>)
    ensures |r| == |Step(cfg, m, e).1|
  {
    seq(|Step(cfg, m, e).1|, k => if k == 0 then Picked(m) else None)
  }

  function Labels(cfg: Config, m: State, events: seq<Event>): (r: seq<Option<Schedule.Which>>)
    ensures |r| == |Run(cfg, m, events).1|
    decreases |events|
  {
    if events == [] then []
    else StepLabels(cfg, m, events[0]) + Labels(cfg, Step(cfg, m, events[0]).0, events[1..])
  }

  lemma {:induction false} LoopSendsNoTable(cfg: Config, m: State, n: nat)
    ensures NoTable(CbrLoop(cfg, m, n).1)
    decreases n
  {
    if n > 0 {
      var (m1, e) := CbrSlot(cfg, m);
      LoopSendsNoTable(cfg, m1, n - 1);
      SlotSendsNoTable(cfg, m);
      NoTableMore(e, CbrLoop(cfg, m1, n - 1).1);
      CbrLoopTurn(cfg, m, n);
    }
  }

  ghost predicate NoTable(es: seq<Emitted>) {
    forall k :: 0 <= k < |es| ==> es[k].kind != Table
  }

  lemma NoTableMore(e: Emitted, es: seq<Emitted>)
    requires e.kind != Table && NoTable(es)
    ensures NoTable([e] + es)
  {
  }

  lemma SlotSendsNoTable(cfg: Config, m: State)
    ensures CbrSlot(cfg, m).1.kind != Table
  {
    match Decide(cfg, Ticked(m))
    case SendNull(kind) =>
    case SendFrom(s, kind) =>
      var (m1, pkt) := Take(Ticked(m), s, kind);
      assert EmitFrom(cfg, Ticked(m), s, kind).1.kind == kind;
  }

  /** The labels are right: exactly the packets that `flush_psi_packets` sent are labelled. */
  lemma LabelsAreTables(cfg: Config, m: State, k: nat)
    ensures FlushCbr(cfg, m).1.Some? && k < |FlushCbr(cfg, m).1.value|
            ==> (StepLabels(cfg, m, FlushAtRate)[k].Some? <==> FlushCbr(cfg, m).1.value[k].kind == Table)
    ensures k < |Step(cfg, m, FlushFreely).1|
            ==> (StepLabels(cfg, m, FlushFreely)[k].Some? <==> k < |CountTables(m).1|)
  {
    var (m1, tables) := FlushTables(m);
    LoopSendsNoTable(cfg, m1, SaturatingSub(PktSize(cfg) / TS_PACKET_SIZE, |tables|));
  }

  lemma LabelledIsCached(cfg: Config, m: State, e: Event, k: nat)
    requires k < |Step(cfg, m, e).1| && StepLabels(cfg, m, e)[k].Some?
    ensures var w := StepLabels(cfg, m, e)[k].value;
            Schedule.Get(m.cache, w).ready && Step(cfg, m, e).1[k] == NextCc(Schedule.Get(m.cache, w).packet)
  {
  }

  /** Each packet with a label was made for that table of what was received. */
  ghost predicate AllMade(cfg: Config, got: seq<Receipt>, labels: seq<Option<Schedule.Which>>, ps: seq<Packet>) {
    |labels| == |ps| && forall k :: 0 <= k < |ps| && labels[k].Some? ==> Made(cfg, got, labels[k].value, ps[k])
  }

  lemma AllMadeStays(cfg: Config, got: seq<Receipt>, more: seq<Receipt>,
                     labels: seq<Option<Schedule.Which>>, ps: seq<Packet>)
    requires AllMade(cfg, got, labels, ps)
    ensures AllMade(cfg, got + more, labels, ps)
  {
    forall k | 0 <= k < |ps| && labels[k].Some? ensures Made(cfg, got + more, labels[k].value, ps[k]) {
      MadeStays(cfg, got, more, labels[k].value, ps[k]);
    }
  }

  lemma AllMadeJoin(cfg: Config, got: seq<Receipt>, one: seq<Receipt>, more: seq<Receipt>,
                    a: seq<Option<Schedule.Which>>, ps: seq<Packet>, b: seq<Option<Schedule.Which>>, qs: seq<Packet>)
    requires AllMade(cfg, got, a, ps) && AllMade(cfg, got + one + more, b, qs)
    ensures AllMade(cfg, got + (one + more), a + b, ps + qs)
  {
    AllMadeStays(cfg, got, one + more, a, ps);
    assert got + one + more == got + (one + more);
  }

  lemma StepTablesAreMade(cfg: Config, m: State, got: seq<Receipt>, e: Event)
    requires Cached(cfg, m, got)
    ensures AllMade(cfg, got, StepLabels(cfg, m, e), Step(cfg, m, e).1)
  {
    forall k | 0 <= k < |Step(cfg, m, e).1| && StepLabels(cfg, m, e)[k].Some?
      ensures Made(cfg, got, StepLabels(cfg, m, e)[k].value, Step(cfg, m, e).1[k])
    {
      StepTableIsMade(cfg, m, got, e, k);
    }
  }

  lemma StepTableIsMade(cfg: Config, m: State, got: seq<Receipt>, e: Event, k: nat)
    requires Cached(cfg, m, got) && k < |Step(cfg, m, e).1| && StepLabels(cfg, m, e)[k].Some?
    ensures Made(cfg, got, StepLabels(cfg, m, e)[k].value, Step(cfg, m, e).1[k])
  {
    var w := StepLabels(cfg, m, e)[k].value;
    LabelledIsCached(cfg, m, e, k);
    StepMade(cfg, got, w, Schedule.Get(m.cache, w).packet);
  }

  lemma RunTurn(cfg: Config, m: State, events: seq<Event>)
    requires events != []
    ensures var (n, sent) := Step(cfg, m, events[0]);
            && Run(cfg, m, events).1 == sent + Run(cfg, n, events[1..]).1
            && Labels(cfg, m, events) == StepLabels(cfg, m, events[0]) + Labels(cfg, n, events[1..])
            && ReceivedBy(cfg, m, events) == ReceivedIn(cfg, m, events[0]) + ReceivedBy(cfg, n, events[1..])
  {
  }

  /** Every table packet of every run was made of what the run received. */
  lemma {:induction false} EveryTableIsMade(cfg: Config, m: State, got: seq<Receipt>, events: seq<Event>)
    requires Cached(cfg, m, got)
    ensures AllMade(cfg, got + ReceivedBy(cfg, m, events), Labels(cfg, m, events), Run(cfg, m, events).1)
    decreases |events|, 1
  {
    if events == [] {
      assert Labels(cfg, m, events) == [] && Run(cfg, m, events).1 == [];
    } else {
      NextTablesAreMade(cfg, m, got, events[0], events[1..]);
      RunTurn(cfg, m, events);
    }
  }

  lemma {:induction false} NextTablesAreMade(cfg: Config, m: State, got: seq<Receipt>, e: Event, rest: seq<Event>)
    requires Cached(cfg, m, got)
    ensures var (n, sent) := Step(cfg, m, e);
            AllMade(cfg, got + (ReceivedIn(cfg, m, e) + ReceivedBy(cfg, n, rest)),
                    StepLabels(cfg, m, e) + Labels(cfg, n, rest), sent + Run(cfg, n, rest).1)
    decreases |rest| + 1, 0
  {
    var (n, sent) := Step(cfg, m, e);
    StepTablesAreMade(cfg, m, got, e);
    StepCached(cfg, m, got, e);
    EveryTableIsMade(cfg, n, got + ReceivedIn(cfg, m, e), rest);
    AllMadeJoin(cfg, got, ReceivedIn(cfg, m, e), ReceivedBy(cfg, n, rest), StepLabels(cfg, m, e), sent,
                Labels(cfg, n, rest), Run(cfg, n, rest).1);
  }

  // ----- what receivers get -----

  lemma CarriedArrives(p: Packet, section: Bytes, pid: Pid, r: Sections.Reasm)
    requires Carries(p, section, pid) && Sections.WellSized(section)
    ensures Sections.Accept(r, p).1 == Some(section) <==> |section| <= Sections.FIRST_CAPACITY
  {
    Sections.AcceptIgnoresCc(r, p, Sections.PackOne(section, pid, 0));
    Sections.OnePacketIff(r, section, pid, 0);
  }

  /** The packet `k` of a run carries the table `w`. */
  ghost predicate Sends(cfg: Config, bitrate: nat, events: seq<Event>, k: nat, w: Schedule.Which) {
    k < |Run(cfg, Initial(bitrate), events).1| && Labels(cfg, Initial(bitrate), events)[k] == Some(w)
  }

  lemma SentIsMade(cfg: Config, bitrate: nat, events: seq<Event>, k: nat, w: Schedule.Which)
    requires Sends(cfg, bitrate, events, k, w)
    ensures var got := ReceivedBy(cfg, Initial(bitrate), events);
            && Made(cfg, got, w, Run(cfg, Initial(bitrate), events).1[k])
            && forall x :: x in got ==> Sections.WellSized(x.section)
  {
    var got := ReceivedBy(cfg, Initial(bitrate), events);
    InitialCached(cfg, bitrate);
    EveryTableIsMade(cfg, Initial(bitrate), [], events);
    AlwaysCached(cfg, Initial(bitrate), [], events);
    assert [] + got == got;
  }

  /** Every PAT packet any run sends gives a receiver in any state a table that lists exactly the
    * configured program, in the transport stream of the first PAT received. */
  lemma EveryPatArrives(cfg: Config, p: Program, bitrate: nat, events: seq<Event>, k: nat, r: Sections.Reasm)
    requires ConfiguredFor(cfg, p) && Sends(cfg, bitrate, events, k, Schedule.Pat)
    ensures var first := First(ReceivedBy(cfg, Initial(bitrate), events), Schedule.Pat);
            && first.Some?
            && var section := PatSection(p, first.value);
            && Sections.Accept(r, Run(cfg, Initial(bitrate), events).1[k]).1 == Some(section)
            && (|first.value| < 8 ==> section == first.value)
            && (|first.value| >= 8 ==>
                  section[3..8] == first.value[3..8]
                  && Pat.Programs(section) == if p.programId == 0 then [] else [Pat.PatInfo(p.programId, p.pmtPid)])
  {
    var got := ReceivedBy(cfg, Initial(bitrate), events);
    SentIsMade(cfg, bitrate, events, k, Schedule.Pat);
    FirstIsIn(got, Schedule.Pat);
    var received := First(got, Schedule.Pat).value;
    if |received| >= 8 {
      OneProgram(p, received);
    }
    CarriedArrives(Run(cfg, Initial(bitrate), events).1[k], PatSection(p, received), PAT_PID, r);
  }

  /** Every PMT packet any run sends gives a receiver in any state the rewriting of the first PMT
    * received if and only if its kept descriptors and streams leave it within 183 bytes; and that has
    * the PCR PID of the one received and exactly the configured streams of it, in their order. */
  lemma EveryPmtArrives(cfg: Config, p: Program, bitrate: nat, events: seq<Event>, k: nat, r: Sections.Reasm)
    requires ConfiguredFor(cfg, p) && Sends(cfg, bitrate, events, k, Schedule.Pmt)
    ensures var first := First(ReceivedBy(cfg, Initial(bitrate), events), Schedule.Pmt);
            && first.Some?
            && var section := PmtSection(p, first.value);
            && (|first.value| < 12 ==>
                  section == first.value && Sections.Accept(r, Run(cfg, Initial(bitrate), events).1[k]).1 == first)
            && (Readable(first.value) ==>
                  && (Sections.Accept(r, Run(cfg, Initial(bitrate), events).1[k]).1 == Some(section)
                      <==> PmtSize(p, first.value) <= 183)
                  && PmtInfoOf(section) == ExpectedPmt(p, PmtInfoOf(first.value)))
  {
    var got := ReceivedBy(cfg, Initial(bitrate), events);
    SentIsMade(cfg, bitrate, events, k, Schedule.Pmt);
    FirstIsIn(got, Schedule.Pmt);
    var received := First(got, Schedule.Pmt).value;
    if Readable(received) {
      PmtHasMeaning(p, received);
      PmtIsWellSized(p, received);
      PmtSizeIs(p, received);
      CarriedArrives(Run(cfg, Initial(bitrate), events).1[k], PmtSection(p, received), cfg.pmtPid, r);
    } else if |received| < 12 {
      CarriedArrives(Run(cfg, Initial(bitrate), events).1[k], received, cfg.pmtPid, r);
    }
  }

  /** The service of the program in a received SDT, if there is one. */
  function ServiceIn(p: Program, from: Option<Bytes>): Option<Sdt.SdtInfo> {
    if from.None? || !Sdt.Analyzable(from.value) then None
    else FindService(Sdt.Services(from.value), p.programId)
  }

  /** The PAT at hand, the SDT it was made of if any, and the service that gives. */
  lemma MadeService(cfg: Config, p: Program, got: seq<Receipt>, section: Bytes)
    returns (tsId: nat, from: Option<Bytes>)
    requires ConfiguredFor(cfg, p) && SdtMade(cfg, got, section)
    ensures First(got, Schedule.Pat).Some?
    ensures tsId == StreamIdMade(p, First(got, Schedule.Pat).value)
    ensures from.Some? ==> Receipt(Schedule.Sdt, from.value) in got && ServiceIn(p, from).Some?
    ensures section == SectionOfService(p, tsId, ServiceIn(p, from))
  {
    var made := PatSection(p, First(got, Schedule.Pat).value);
    var pat: Packet :| Carries(pat, made, PAT_PID) && SdtFrom(cfg, pat, got, section);
    SameStreamId(pat, Sections.PackOne(made, PAT_PID, 0));
    tsId := TransportStreamId(pat);
    from := ServiceFrom(cfg, p, pat, got, section);
  }

  lemma ServiceFrom(cfg: Config, p: Program, pat: Packet, got: seq<Receipt>, section: Bytes)
    returns (from: Option<Bytes>)
    requires ConfiguredFor(cfg, p) && SdtFrom(cfg, pat, got, section)
    ensures from.Some? ==> Receipt(Schedule.Sdt, from.value) in got && ServiceIn(p, from).Some?
    ensures section == SectionOfService(p, TransportStreamId(pat), ServiceIn(p, from))
  {
    if r: Bytes :| Receipt(Schedule.Sdt, r) in got && cfg.tables.sdtSection(pat, r) == Some(section) {
      ServiceFound(p, pat, r);
      from := Some(r);
    } else {
      DefaultService(p, pat);
      from := None;
    }
  }

  lemma ServiceFound(p: Program, pat: Packet, received: Bytes)
    ensures var info := ServiceIn(p, Some(received));
            SdtSection(p, pat, received)
            == if info.Some? then Some(SectionOfService(p, TransportStreamId(pat), info)) else None
  {
  }

  lemma DefaultService(p: Program, pat: Packet)
    ensures DefaultSdtSection(p, pat) == SectionOfService(p, TransportStreamId(pat), None)
  {
  }

  lemma SameStreamId(p: Packet, q: Packet)
    requires SameButCc(p, q)
    ensures TransportStreamId(p) == TransportStreamId(q)
  {
    assert p[8] == p[4..][4] && p[9] == p[4..][5];
    assert q[8] == q[4..][4] && q[9] == q[4..][5];
  }

  /** Every SDT packet any run sends is about the configured service in the transport stream of the
    * first PAT received.  Its type and names are those configured; what is left open comes from the
    * program's service in an SDT that was received, or is the default if it was made of none.  A receiver
    * in any state gets it, and shows exactly that service, if and only if both names together take at most
    * 156 bytes. */
  lemma EverySdtArrives(cfg: Config, p: Program, bitrate: nat, events: seq<Event>, k: nat, r: Sections.Reasm)
    returns (section: Bytes, from: Option<Bytes>)
    requires ConfiguredFor(cfg, p) && Sends(cfg, bitrate, events, k, Schedule.Sdt)
    ensures var got, packet := ReceivedBy(cfg, Initial(bitrate), events), Run(cfg, Initial(bitrate), events).1[k];
            var info := ServiceIn(p, from);
            && First(got, Schedule.Pat).Some?
            && (from.Some? ==> Receipt(Schedule.Sdt, from.value) in got && info.Some?)
            && var tsId := StreamIdMade(p, First(got, Schedule.Pat).value);
            && (|First(got, Schedule.Pat).value| >= 8
                ==> tsId == First(got, Schedule.Pat).value[3] as int * 256 + First(got, Schedule.Pat).value[4])
            && section == SectionOfService(p, tsId, info)
            && Carries(packet, section, SDT_PID)
            && (Sections.Accept(r, packet).1 == Some(section) <==> |ProviderOf(p, info)| + |NameOf(p, info)| <= 156)
            && (|ProviderOf(p, info)| + |NameOf(p, info)| <= 156 ==>
                  && Sdt.Analyzable(section)
                  && Sdt.Services(section)
                     == [Sdt.SdtInfo(p.programId, 4, TypeOf(p, info), Sdt.Utf8(ProviderOf(p, info)),
                                     Sdt.Utf8(NameOf(p, info)))])
  {
    var got, packet := ReceivedBy(cfg, Initial(bitrate), events), Run(cfg, Initial(bitrate), events).1[k];
    SentIsMade(cfg, bitrate, events, k, Schedule.Sdt);
    section :| SdtMade(cfg, got, section) && Carries(packet, section, SDT_PID);
    var tsId;
    tsId, from := MadeService(cfg, p, got, section);
    var info := ServiceIn(p, from);
    if |First(got, Schedule.Pat).value| >= 8 {
      StreamIdKept(p, First(got, Schedule.Pat).value);
    }
    ServiceArrives(packet, section, r, tsId, p.programId, TypeOf(p, info), ProviderOf(p, info), NameOf(p, info));
  }

  lemma ServiceArrives(packet: Packet, section: Bytes, r: Sections.Reasm,
                       tsId: nat, id: nat, serviceType: Byte, provider: Bytes, service: Bytes)
    requires Carries(packet, section, SDT_PID) && id < 0x1_0000
    requires section == Sdt.PreparedSection(tsId, id, serviceType, provider, service)
    ensures Sections.Accept(r, packet).1 == Some(section) <==> |provider| + |service| <= 156
    ensures |provider| + |service| <= 156 ==>
              && Sdt.Analyzable(section)
              && Sdt.Services(section) == [Sdt.SdtInfo(id, 4, serviceType, Sdt.Utf8(provider), Sdt.Utf8(service))]
  {
    Sdt.SdtPipeline(r, tsId, id, serviceType, provider, service);
    Sections.AcceptIgnoresCc(r, packet, Sections.PackOne(section, SDT_PID, 0));
  }
}
