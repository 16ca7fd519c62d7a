/** The proxy mode (src/mux.rs:974-1056): the stream is passed on packet by packet, with the PAT and the
  * PMT replaced by the cached ones, in datagrams of one size. */
module Proxy {
  import opened Common
  import opened TsPacket
  import opened Mux
  import Framing
  import Schedule
  import Sections

  /** The handler in proxy mode: `frame` collects what the next datagram will hold. */
  datatype Proxied = Proxied(m: State, frame: Bytes)

  /** A copy of the cached PAT with its counter stepped, unless the PAT has changed. */
  function SendPat(m: State): (State, Option<Packet>) {
    if m.dirtyPat then (m, None)
    else
      var x := m.cache.pat.(packet := NextCc(m.cache.pat.packet));
      (m.(cache := m.cache.(pat := x)), Some(x.packet))
  }

  function SendPmt(m: State): (State, Option<Packet>) {
    if m.dirtyPmt then (m, None)
    else
      var x := m.cache.pmt.(packet := NextCc(m.cache.pmt.packet));
      (m.(cache := m.cache.(pmt := x)), Some(x.packet))
  }

  /** What one packet adds to the frame: a cached table, the packet itself, or nothing. */
  function Forward(cfg: Config, m: State, p: Packet): (State, Option<Packet>) {
    var pid := PktPid(p);
    if pid == PAT_PID then SendPat(ProcessPat(cfg, m, p))
    else if pid == cfg.pmtPid then SendPmt(ProcessPmt(cfg, m, p))
    else if Dirty(m) then (m, None)
    else if pid == cfg.pcrPid then (m, Some(p))
    else if IsAudio(cfg, pid) || IsVideo(cfg, pid) then (m, Some(p))
    else (m, None)
  }

  /** Packets dropped while a table is dirty skip the test for a full frame as well. */
  predicate Skips(cfg: Config, m: State, p: Packet) {
    PktPid(p) != PAT_PID && PktPid(p) != cfg.pmtPid && Dirty(m)
  }

  function Bytes1(got: Option<Packet>): Bytes {
    if got.Some? then got.value else []
  }

  /** At most one datagram leaves per packet. */
  function Split(frame: Bytes, size: nat): (Bytes, seq<Bytes>) {
    if |frame| >= size then (frame[size..], [frame[..size]]) else (frame, [])
  }

  function ProxyOne(cfg: Config, f: Proxied, p: Packet): (Proxied, seq<Bytes>) {
    var (n, got) := Forward(cfg, f.m, p);
    if Skips(cfg, f.m, p) then (Proxied(n, f.frame), [])
    else
      var (frame, out) := Split(f.frame + Bytes1(got), PktSize(cfg));
      (Proxied(n, frame), out)
  }

  function ProxyAll(cfg: Config, f: Proxied, ps: seq<Packet>): (Proxied, seq<Bytes>)
    decreases |ps|
  {
    if ps == [] then (f, [])
    else
      var (g, out) := ProxyOne(cfg, f, ps[0]);
      var (h, more) := ProxyAll(cfg, g, ps[1..]);
      (h, out + more)
  }

  lemma AllTurn(cfg: Config, f: Proxied, ps: seq<Packet>, sent: seq<Bytes>)
    requires ps != []
    ensures var (g, out) := ProxyOne(cfg, f, ps[0]);
            && ProxyAll(cfg, f, ps).0 == ProxyAll(cfg, g, ps[1..]).0
            && sent + ProxyAll(cfg, f, ps).1 == sent + out + ProxyAll(cfg, g, ps[1..]).1
  {
    var (g, out) := ProxyOne(cfg, f, ps[0]);
    InThree(sent, out, ProxyAll(cfg, g, ps[1..]).1);
  }

  lemma InThree(a: seq<Bytes>, b: seq<Bytes>, c: seq<Bytes>)
    ensures a + (b + c) == a + b + c
  {
  }

  function WithFramer(f: Proxied, g: Framing.Framer): Proxied {
    f.(m := f.m.(framer := g))
  }

  /** The loop of `proxy_packet` on a buffer in step. */
  function ProxyBuffer(cfg: Config, f: Proxied): (Proxied, seq<Bytes>) {
    var (packets, g) := Framing.Demux(f.m.framer.buf);
    var (n, out) := ProxyAll(cfg, f, packets);
    (WithFramer(n, g), out)
  }

  /** One call of `proxy_packet`: the new state and the datagrams handed over.  Without a program the
    * chunk is passed on as it is. */
  function ProxyChunk(cfg: Config, f: Proxied, chunk: Bytes): (Proxied, seq<Bytes>) {
    if !cfg.hasProgram then (f, [chunk])
    else
      var m := Located(f.m.(framer := Framing.Framer(f.m.framer.buf + chunk, f.m.framer.synced)));
      if !m.framer.synced then (f.(m := m), []) else ProxyBuffer(cfg, f.(m := m))
  }

  function ProxyRun(cfg: Config, f: Proxied, chunks: seq<Bytes>): (Proxied, seq<Bytes>)
    decreases |chunks|
  {
    if chunks == [] then (f, [])
    else
      var (g, out) := ProxyChunk(cfg, f, chunks[0]);
      var (h, more) := ProxyRun(cfg, g, chunks[1..]);
      (h, out + more)
  }

  // ----- the reference: what is forwarded, whatever the datagrams -----

  function Forwards(cfg: Config, m: State, ps: seq<Packet>): (State, seq<Packet>)
    decreases |ps|
  {
    if ps == [] then (m, [])
    else
      var (n, got) := Forward(cfg, m, ps[0]);
      var (r, others) := Forwards(cfg, n, ps[1..]);
      (r, (if got.Some? then [got.value] else []) + others)
  }

  predicate AllOfSize(datagrams: seq<Bytes>, size: nat) {
    forall i :: 0 <= i < |datagrams| ==> |datagrams[i]| == size
  }

  // ----- conservation -----

  lemma SplitConserves(frame: Bytes, size: nat)
    ensures var (rest, out) := Split(frame, size);
            Flatten(out) + rest == frame && AllOfSize(out, size)
  {
    var (rest, out) := Split(frame, size);
    if |frame| >= size {
      assert Flatten(out) == out[0] + Flatten([]) == out[0];
    } else {
      assert [] + rest == rest;
    }
  }

  /** Nothing is lost, repeated or reordered between what is forwarded and the datagrams, and every
    * datagram has the configured size. */
  lemma {:induction false} AllConserves(cfg: Config, f: Proxied, ps: seq<Packet>)
    ensures var (g, out) := ProxyAll(cfg, f, ps);
            && g.m == Forwards(cfg, f.m, ps).0
            && AllOfSize(out, PktSize(cfg))
            && Flatten(out) + g.frame == f.frame + Concat(Forwards(cfg, f.m, ps).1)
    decreases |ps|
  {
    if ps == [] {
      assert [] + f.frame == f.frame + [];
    } else {
      var (n, got) := Forward(cfg, f.m, ps[0]);
      var (g, out) := ProxyOne(cfg, f, ps[0]);
      OneConserves(cfg, f, ps[0]);
      AllConserves(cfg, g, ps[1..]);
      var (h, more) := ProxyAll(cfg, g, ps[1..]);
      var others := Forwards(cfg, n, ps[1..]).1;
      FlattenAppend(out, more);
      var first := if got.Some? then [got.value] else [];
      ConcatAppend(first, others);
      assert Concat(first) == Bytes1(got) by {
        if got.Some? { assert got.value + [] == got.value; }
      }
      Regroup(Flatten(out), Flatten(more), h.frame, g.frame, f.frame, Bytes1(got), Concat(others));
    }
  }

  lemma OneConserves(cfg: Config, f: Proxied, p: Packet)
    ensures var (g, out) := ProxyOne(cfg, f, p);
            && g.m == Forward(cfg, f.m, p).0 && AllOfSize(out, PktSize(cfg))
            && Flatten(out) + g.frame == f.frame + Bytes1(Forward(cfg, f.m, p).1)
  {
    var got := Forward(cfg, f.m, p).1;
    if Skips(cfg, f.m, p) {
      assert got == None;
      assert [] + f.frame == f.frame + [];
    } else {
      SplitConserves(f.frame + Bytes1(got), PktSize(cfg));
    }
  }

  lemma Regroup(a: Bytes, b: Bytes, rest: Bytes, middle: Bytes, frame: Bytes, x: Bytes, xs: Bytes)
    requires a + middle == frame + x && b + rest == middle + xs
    ensures (a + b) + rest == frame + (x + xs)
  {
    assert (a + b) + rest == a + (b + rest) == a + (middle + xs) == (a + middle) + xs;
    assert (frame + x) + xs == frame + (x + xs);
  }

  // ----- the residue -----

  /** With datagrams of at least one packet, less than a datagram is ever left over. */
  lemma {:induction false} ResidueBelowSize(cfg: Config, f: Proxied, ps: seq<Packet>)
    requires PktSize(cfg) >= TS_PACKET_SIZE && |f.frame| < PktSize(cfg)
    ensures |ProxyAll(cfg, f, ps).0.frame| < PktSize(cfg)
    decreases |ps|
  {
    if ps != [] {
      var g := ProxyOne(cfg, f, ps[0]).0;
      assert |g.frame| < PktSize(cfg);
      ResidueBelowSize(cfg, g, ps[1..]);
    }
  }

  /** With smaller ones every packet forwarded leaves some of itself behind. */
  lemma {:induction false} ResidueGrows(cfg: Config, f: Proxied, ps: seq<Packet>)
    requires PktSize(cfg) < TS_PACKET_SIZE && !Dirty(f.m)
    requires cfg.pcrPid != PAT_PID && cfg.pcrPid != cfg.pmtPid
    requires forall i :: 0 <= i < |ps| ==> PktPid(ps[i]) == cfg.pcrPid
    ensures |ProxyAll(cfg, f, ps).0.frame| == |f.frame| + |ps| * (TS_PACKET_SIZE - PktSize(cfg))
    decreases |ps|
  {
    if ps != [] {
      var g := ProxyOne(cfg, f, ps[0]).0;
      assert |g.frame| == |f.frame| + TS_PACKET_SIZE - PktSize(cfg) && g.m == f.m;
      ResidueGrows(cfg, g, ps[1..]);
    }
  }

  /** The residue stays below the datagram size on every input exactly when a datagram can hold a
    * packet. */
  lemma ResidueBoundedIff(cfg: Config, m: State)
    requires !Dirty(m) && cfg.pcrPid != PAT_PID && cfg.pcrPid != cfg.pmtPid
    ensures (forall ps: seq<Packet> :: |ProxyAll(cfg, Proxied(m, []), ps).0.frame| < PktSize(cfg))
            <==> PktSize(cfg) >= TS_PACKET_SIZE
  {
    var f := Proxied(m, []);
    var size := PktSize(cfg);
    if size >= TS_PACKET_SIZE {
      forall ps: seq<Packet> ensures |ProxyAll(cfg, f, ps).0.frame| < size {
        ResidueBelowSize(cfg, f, ps);
      }
    } else {
      var ps: seq<Packet> := seq(size, _ => PacketOn(cfg.pcrPid));
      ResidueGrows(cfg, f, ps);
      TimesAtLeastOne(size, TS_PACKET_SIZE - size);
      assert !(|ProxyAll(cfg, f, ps).0.frame| < size);
    }
  }

  lemma TimesAtLeastOne(a: nat, b: nat)
    requires b >= 1
    ensures a * b >= a
  {
  }

  function PacketOn(pid: Pid): (p: Packet)
    ensures PktPid(p) == pid
  {
    [TS_SYNC_BYTE, pid / 256, pid % 256] + Fill(TS_PACKET_SIZE - 3, 0)
  }

  // ----- whole runs -----

  lemma AcceptPatFramer(cfg: Config, m: State, g: Framing.Framer, section: Bytes, pid: Pid)
    ensures AcceptPat(cfg, m.(framer := g), section, pid) == AcceptPat(cfg, m, section, pid).(framer := g)
  {
    if !m.cache.pat.ready {
      KeepPatFramer(m, g, section, Store(m.cache.pat, cfg.tables.patSection(section), pid));
    }
  }

  lemma KeepPatFramer(m: State, g: Framing.Framer, section: Bytes, x: Schedule.Cached)
    ensures KeepPat(m.(framer := g), section, x) == KeepPat(m, section, x).(framer := g)
  {
  }

  lemma AcceptPmtFramer(cfg: Config, m: State, g: Framing.Framer, section: Bytes, pid: Pid)
    ensures AcceptPmt(cfg, m.(framer := g), section, pid) == AcceptPmt(cfg, m, section, pid).(framer := g)
  {
    if !m.cache.pmt.ready {
      KeepPmtFramer(m, g, section, Store(m.cache.pmt, cfg.tables.pmtSection(section), pid));
    }
  }

  lemma KeepPmtFramer(m: State, g: Framing.Framer, section: Bytes, x: Schedule.Cached)
    ensures KeepPmt(m.(framer := g), section, x) == KeepPmt(m, section, x).(framer := g)
  {
  }

  lemma TablesFramer(cfg: Config, m: State, g: Framing.Framer, p: Packet)
    ensures ProcessPat(cfg, m.(framer := g), p) == ProcessPat(cfg, m, p).(framer := g)
    ensures ProcessPmt(cfg, m.(framer := g), p) == ProcessPmt(cfg, m, p).(framer := g)
  {
    var (reasm, got) := Sections.PushTable(m.reasm, p);
    var n := m.(reasm := reasm);
    assert m.(framer := g).(reasm := reasm) == n.(framer := g);
    if got.Some? {
      AcceptPatFramer(cfg, n, g, got.value, PktPid(p));
      AcceptPmtFramer(cfg, n, g, got.value, PktPid(p));
    }
  }

  lemma SendFramer(m: State, g: Framing.Framer)
    ensures SendPat(m.(framer := g)) == (SendPat(m).0.(framer := g), SendPat(m).1)
    ensures SendPmt(m.(framer := g)) == (SendPmt(m).0.(framer := g), SendPmt(m).1)
  {
  }

  lemma ForwardFramer(cfg: Config, m: State, g: Framing.Framer, p: Packet)
    ensures Forward(cfg, m.(framer := g), p).0 == Forward(cfg, m, p).0.(framer := g)
    ensures Forward(cfg, m.(framer := g), p).1 == Forward(cfg, m, p).1
  {
    if PktPid(p) == PAT_PID {
      TablesFramer(cfg, m, g, p);
      SendFramer(ProcessPat(cfg, m, p), g);
    } else if PktPid(p) == cfg.pmtPid {
      TablesFramer(cfg, m, g, p);
      SendFramer(ProcessPmt(cfg, m, p), g);
    }
  }

  lemma OneFramer(cfg: Config, f: Proxied, g: Framing.Framer, p: Packet)
    ensures ProxyOne(cfg, WithFramer(f, g), p).0 == WithFramer(ProxyOne(cfg, f, p).0, g)
    ensures ProxyOne(cfg, WithFramer(f, g), p).1 == ProxyOne(cfg, f, p).1
  {
    ForwardFramer(cfg, f.m, g, p);
  }

  lemma {:induction false} AllFramer(cfg: Config, f: Proxied, g: Framing.Framer, ps: seq<Packet>)
    ensures ProxyAll(cfg, WithFramer(f, g), ps).0 == WithFramer(ProxyAll(cfg, f, ps).0, g)
    ensures ProxyAll(cfg, WithFramer(f, g), ps).1 == ProxyAll(cfg, f, ps).1
    decreases |ps|
  {
    if ps != [] {
      OneFramer(cfg, f, g, ps[0]);
      AllFramer(cfg, ProxyOne(cfg, f, ps[0]).0, g, ps[1..]);
    }
  }

  lemma {:induction false} AllAppend(cfg: Config, f: Proxied, a: seq<Packet>, b: seq<Packet>)
    ensures var (g, out) := ProxyAll(cfg, f, a);
            && ProxyAll(cfg, f, a + b).0 == ProxyAll(cfg, g, b).0
            && ProxyAll(cfg, f, a + b).1 == out + ProxyAll(cfg, g, b).1
    decreases |a|
  {
    if a == [] {
      assert a + b == b;
    } else {
      assert (a + b)[0] == a[0] && (a + b)[1..] == a[1..] + b;
      var one := ProxyOne(cfg, f, a[0]);
      var rest := ProxyAll(cfg, one.0, a[1..]);
      AllAppend(cfg, one.0, a[1..], b);
      assert one.1 + (rest.1 + ProxyAll(cfg, rest.0, b).1) == one.1 + rest.1 + ProxyAll(cfg, rest.0, b).1;
    }
  }

  lemma ChunkFolds(cfg: Config, f: Proxied, chunk: Bytes)
    requires cfg.hasProgram
    ensures var (packets, g) := Framing.Pass(Framing.Framer(f.m.framer.buf + chunk, f.m.framer.synced));
            && ProxyChunk(cfg, f, chunk).0 == WithFramer(ProxyAll(cfg, f, packets).0, g)
            && ProxyChunk(cfg, f, chunk).1 == ProxyAll(cfg, f, packets).1
  {
    var fed := Framing.Framer(f.m.framer.buf + chunk, f.m.framer.synced);
    var m := Located(f.m.(framer := fed));
    if m.framer.synced {
      PassLocated(f.m.(framer := fed));
      AllFramer(cfg, f, m.framer, Framing.Pass(fed).0);
    }
  }

  /** Over a whole run the proxy handles, one after the other, the packets that framing finds. */
  lemma {:induction false} RunFolds(cfg: Config, f: Proxied, chunks: seq<Bytes>)
    requires cfg.hasProgram
    ensures var (packets, g) := Framing.PassAll(f.m.framer, chunks);
            && ProxyRun(cfg, f, chunks).0 == WithFramer(ProxyAll(cfg, f, packets).0, g)
            && ProxyRun(cfg, f, chunks).1 == ProxyAll(cfg, f, packets).1
    decreases |chunks|
  {
    if chunks != [] {
      ChunkFolds(cfg, f, chunks[0]);
      var (first, g) := Framing.Pass(Framing.Framer(f.m.framer.buf + chunks[0], f.m.framer.synced));
      var others := Framing.PassAll(g, chunks[1..]).0;
      var h := ProxyAll(cfg, f, first).0;
      RunFolds(cfg, WithFramer(h, g), chunks[1..]);
      AllFramer(cfg, h, g, others);
      AllAppend(cfg, f, first, others);
    }
  }

  /** In every run every datagram is exactly one datagram long, less than one is left in the frame, and
    * datagrams and frame are, in order, the packets forwarded. */
  lemma ProxyOutput(cfg: Config, f: Proxied, chunks: seq<Bytes>)
    requires cfg.hasProgram
    ensures var (g, out) := ProxyRun(cfg, f, chunks);
            var packets := Framing.PassAll(f.m.framer, chunks).0;
            && AllOfSize(out, PktSize(cfg))
            && Flatten(out) + g.frame == f.frame + Concat(Forwards(cfg, f.m, packets).1)
            && (PktSize(cfg) >= TS_PACKET_SIZE && |f.frame| < PktSize(cfg) ==> |g.frame| < PktSize(cfg))
  {
    var packets := Framing.PassAll(f.m.framer, chunks).0;
    RunFolds(cfg, f, chunks);
    AllConserves(cfg, f, packets);
    if PktSize(cfg) >= TS_PACKET_SIZE && |f.frame| < PktSize(cfg) {
      ResidueBelowSize(cfg, f, packets);
    }
  }

  /** What has been sent depends on the stream alone: however it is cut into chunks, the datagrams of
    * one run begin those of the other. */
  lemma ProxyChunking(cfg: Config, bitrate: nat, xs: seq<Bytes>, ys: seq<Bytes>)
    requires cfg.hasProgram && Flatten(xs) == Flatten(ys)
    ensures var f := Proxied(Initial(bitrate), []);
            ProxyRun(cfg, f, xs).1 <= ProxyRun(cfg, f, ys).1 || ProxyRun(cfg, f, ys).1 <= ProxyRun(cfg, f, xs).1
  {
    var f := Proxied(Initial(bitrate), []);
    RunFolds(cfg, f, xs);
    RunFolds(cfg, f, ys);
    Framing.TwoChunkings(xs, ys);
    var a, b := Framing.PassAll(Framing.START, xs).0, Framing.PassAll(Framing.START, ys).0;
    if a <= b {
      assert b == a + b[|a|..];
      AllAppend(cfg, f, a, b[|a|..]);
    } else {
      assert a == b + a[|b|..];
      AllAppend(cfg, f, b, a[|b|..]);
    }
  }

  // ----- which packets are forwarded -----

  /** The PIDs whose packets pass through unchanged. */
  predicate PassesThrough(cfg: Config, pid: Pid) {
    pid != PAT_PID && pid != cfg.pmtPid && (pid == cfg.pcrPid || IsAudio(cfg, pid) || IsVideo(cfg, pid))
  }

  function Payload(cfg: Config, ps: seq<Packet>): seq<Packet> {
    if ps == [] then []
    else (if PassesThrough(cfg, PktPid(ps[0])) then [ps[0]] else []) + Payload(cfg, ps[1..])
  }

  /** The payload that arrives while no table is dirty. */
  function CleanPayload(cfg: Config, m: State, ps: seq<Packet>): seq<Packet>
    decreases |ps|
  {
    if ps == [] then []
    else
      (if PassesThrough(cfg, PktPid(ps[0])) && !Dirty(m) then [ps[0]] else [])
      + CleanPayload(cfg, Forward(cfg, m, ps[0]).0, ps[1..])
  }

  ghost predicate StaysClean(cfg: Config, m: State, ps: seq<Packet>)
    decreases |ps|
  {
    ps == [] || (!Dirty(m) && StaysClean(cfg, Forward(cfg, m, ps[0]).0, ps[1..]))
  }

  /** A cached table that is set is a packet of its PID; one that is not is zero but for the counter. */
  predicate CachedMarked(x: Schedule.Cached, pid: Pid) {
    if x.ready then Sections.IsFor(x.packet, pid) else SameButCc(x.packet, ZERO_PACKET)
  }

  predicate TablesMarked(cfg: Config, m: State) {
    && CachedMarked(m.cache.pat, PAT_PID) && CachedMarked(m.cache.pmt, cfg.pmtPid)
    && (m.dirtyPat ==> m.cache.pat.ready) && (m.dirtyPmt ==> m.cache.pmt.ready)
  }

  /** What a marked packet shows. */
  lemma MarkedFields(x: Schedule.Cached, pid: Pid)
    requires CachedMarked(x, pid)
    ensures x.packet[0] == if x.ready then TS_SYNC_BYTE else 0
    ensures PktPid(x.packet) == if x.ready then pid else 0
    ensures !x.ready ==> x.packet[3] < 16
  {
    if !x.ready {
      var p := x.packet;
      assert p[0] == p[..3][0] && p[1] == p[..3][1] && p[2] == p[..3][2];
    }
  }

  lemma StoredIsMarked(x: Schedule.Cached, section: Bytes, pid: Pid)
    ensures Sections.IsFor(Store(x, section, pid).packet, pid)
  {
    Sections.PackShape(section, pid, CachedCc(x.packet));
    assert Sections.Marked(Sections.Pack(section, pid, CachedCc(x.packet))[0], pid, CachedCc(x.packet), true);
  }

  lemma AcceptMarked(cfg: Config, m: State, section: Bytes)
    requires TablesMarked(cfg, m)
    ensures TablesMarked(cfg, AcceptPat(cfg, m, section, PAT_PID))
    ensures TablesMarked(cfg, AcceptPmt(cfg, m, section, cfg.pmtPid))
  {
    StoredIsMarked(m.cache.pat, cfg.tables.patSection(section), PAT_PID);
    StoredIsMarked(m.cache.pmt, cfg.tables.pmtSection(section), cfg.pmtPid);
  }

  lemma StepMarked(x: Schedule.Cached, pid: Pid)
    requires CachedMarked(x, pid)
    ensures CachedMarked(x.(packet := NextCc(x.packet)), pid)
  {
    NextCcSteps(x.packet);
  }

  lemma SendMarked(cfg: Config, m: State)
    requires TablesMarked(cfg, m)
    ensures TablesMarked(cfg, SendPat(m).0) && TablesMarked(cfg, SendPmt(m).0)
  {
    StepMarked(m.cache.pat, PAT_PID);
    StepMarked(m.cache.pmt, cfg.pmtPid);
  }

  lemma ForwardMarked(cfg: Config, m: State, p: Packet)
    requires TablesMarked(cfg, m)
    ensures TablesMarked(cfg, Forward(cfg, m, p).0)
  {
    var (reasm, got) := Sections.PushTable(m.reasm, p);
    var n := m.(reasm := reasm);
    if PktPid(p) == PAT_PID {
      if got.Some? { AcceptMarked(cfg, n, got.value); }
      SendMarked(cfg, ProcessPat(cfg, m, p));
    } else if PktPid(p) == cfg.pmtPid {
      if got.Some? { AcceptMarked(cfg, n, got.value); }
      SendMarked(cfg, ProcessPmt(cfg, m, p));
    }
  }

  /** The packet completes a section. */
  predicate Completes(m: State, p: Packet) {
    Sections.PushTable(m.reasm, p).1.Some?
  }

  predicate ForPat(p: Packet) {
    PktPid(p) == PAT_PID
  }

  predicate ForPmt(cfg: Config, p: Packet) {
    PktPid(p) != PAT_PID && PktPid(p) == cfg.pmtPid
  }

  /** The packet belongs to a table that is not there yet and that it does not complete. */
  predicate StandsForNothing(cfg: Config, m: State, p: Packet) {
    !Completes(m, p) && ((ForPat(p) && !m.cache.pat.ready) || (ForPmt(cfg, p) && !m.cache.pmt.ready))
  }

  lemma PatReadyIff(cfg: Config, m: State, p: Packet)
    ensures var n := ProcessPat(cfg, m, p);
            && (n.cache.pat.ready <==> m.cache.pat.ready || Completes(m, p))
            && (!Completes(m, p) ==> n.cache.pat == m.cache.pat && n.dirtyPat == m.dirtyPat)
  {
  }

  lemma PmtReadyIff(cfg: Config, m: State, p: Packet)
    ensures var n := ProcessPmt(cfg, m, p);
            && (n.cache.pmt.ready <==> m.cache.pmt.ready || Completes(m, p))
            && (!Completes(m, p) ==> n.cache.pmt == m.cache.pmt && n.dirtyPmt == m.dirtyPmt)
  {
  }

  /** Packets of a table that is not there yet are not held back: until the first PAT (PMT) is
    * complete, each is answered by the cached packet, which is zero but for the low four bits of its
    * fourth byte, and those count on.  Whatever else is forwarded is a transport packet of the same
    * PID. */
  lemma ForwardedIsPacketIff(cfg: Config, m: State, p: Packet)
    requires TablesMarked(cfg, m) && p[0] == TS_SYNC_BYTE
    ensures var got := Forward(cfg, m, p).1;
            && (got.Some? ==> (got.value[0] == TS_SYNC_BYTE <==> !StandsForNothing(cfg, m, p)))
            && (got.Some? && !StandsForNothing(cfg, m, p) ==> PktPid(got.value) == PktPid(p))
            && (StandsForNothing(cfg, m, p) ==>
                  var cached := if ForPat(p) then m.cache.pat.packet else m.cache.pmt.packet;
                  got == Some(ZERO_PACKET[3 := (cached[3] + 1) % 16]))
  {
    if ForPat(p) {
      ForwardMarked(cfg, m, p);
      MarkedFields(Forward(cfg, m, p).0.cache.pat, PAT_PID);
      PatReadyIff(cfg, m, p);
      if StandsForNothing(cfg, m, p) {
        ZeroStep(m.cache.pat.packet);
      }
    } else if ForPmt(cfg, p) {
      ForwardMarked(cfg, m, p);
      MarkedFields(Forward(cfg, m, p).0.cache.pmt, cfg.pmtPid);
      PmtReadyIff(cfg, m, p);
      if StandsForNothing(cfg, m, p) {
        ZeroStep(m.cache.pmt.packet);
      }
    }
  }

  lemma ZeroStep(p: Packet)
    requires SameButCc(p, ZERO_PACKET)
    ensures NextCc(p) == ZERO_PACKET[3 := (p[3] + 1) % 16]
  {
    assert forall k :: 0 <= k < 3 ==> p[k] == p[..3][k];
    assert forall k :: 4 <= k < TS_PACKET_SIZE ==> p[k] == p[4..][k - 4] == ZERO_PACKET[4..][k - 4];
  }

  /** So it is from the first packet on, in every run. */
  lemma {:induction false} AlwaysMarked(cfg: Config, m: State, ps: seq<Packet>)
    requires TablesMarked(cfg, m)
    ensures TablesMarked(cfg, Forwards(cfg, m, ps).0)
    decreases |ps|
  {
    if ps != [] {
      ForwardMarked(cfg, m, ps[0]);
      AlwaysMarked(cfg, Forward(cfg, m, ps[0]).0, ps[1..]);
    }
  }

  lemma InitialMarked(cfg: Config, bitrate: nat)
    ensures TablesMarked(cfg, Initial(bitrate))
  {
  }

  /** An input that shows it: a new handler that receives PAT packets without payload sends one packet
    * of zeros for each, with the counter at 1, 2, 3 and so on, modulo 16. */
  lemma ZerosAreSent(cfg: Config, bitrate: nat, n: nat)
    ensures var sent := Forwards(cfg, Initial(bitrate), seq(n, _ => PacketOn(PAT_PID))).1;
            |sent| == n && forall i :: 0 <= i < n ==> sent[i] == ZERO_PACKET[3 := (i + 1) % 16]
  {
    InitialMarked(cfg, bitrate);
    ZerosFrom(cfg, Initial(bitrate), seq(n, _ => PacketOn(PAT_PID)));
  }

  lemma {:induction false} ZerosFrom(cfg: Config, m: State, ps: seq<Packet>)
    requires TablesMarked(cfg, m) && !m.cache.pat.ready
    requires forall i :: 0 <= i < |ps| ==> ps[i] == PacketOn(PAT_PID)
    ensures var sent := Forwards(cfg, m, ps).1;
            && |sent| == |ps|
            && forall i :: 0 <= i < |ps| ==>
                 sent[i] == ZERO_PACKET[3 := (m.cache.pat.packet[3] + 1 + i) % 16]
    decreases |ps|
  {
    if ps != [] {
      var c := m.cache.pat.packet[3];
      var n := EmptyPat(cfg, m, ps[0]);
      ZerosFrom(cfg, n, ps[1..]);
      ZerosCons(c, Forwards(cfg, n, ps[1..]).1);
    }
  }

  lemma EmptyPat(cfg: Config, m: State, p: Packet) returns (n: State)
    requires TablesMarked(cfg, m) && !m.cache.pat.ready && p == PacketOn(PAT_PID)
    ensures Forward(cfg, m, p) == (n, Some(ZERO_PACKET[3 := (m.cache.pat.packet[3] + 1) % 16]))
    ensures TablesMarked(cfg, n) && !n.cache.pat.ready
    ensures n.cache.pat.packet[3] == (m.cache.pat.packet[3] + 1) % 16
  {
    n := Forward(cfg, m, p).0;
    assert Sections.PayloadOffset(p) == None;
    ForwardedIsPacketIff(cfg, m, p);
    ForwardMarked(cfg, m, p);
    PatReadyIff(cfg, m, p);
    MarkedFields(m.cache.pat, PAT_PID);
  }

  lemma ZerosCons(c: nat, others: seq<Packet>)
    requires forall i :: 0 <= i < |others| ==> others[i] == ZERO_PACKET[3 := ((c + 1) % 16 + 1 + i) % 16]
    ensures var sent := [ZERO_PACKET[3 := (c + 1) % 16]] + others;
            forall i :: 0 <= i < |sent| ==> sent[i] == ZERO_PACKET[3 := (c + 1 + i) % 16]
  {
    var sent := [ZERO_PACKET[3 := (c + 1) % 16]] + others;
    forall i | 0 <= i < |sent| ensures sent[i] == ZERO_PACKET[3 := (c + 1 + i) % 16] {
      if i > 0 {
        assert sent[i] == others[i - 1];
        assert ((c + 1) % 16 + 1 + (i - 1)) % 16 == (c + 1 + i) % 16;
      }
    }
  }

  /** Audio, video and PCR packets come out unchanged and in order: the payload forwarded is the payload
    * received, less what arrives while a table is dirty. */
  lemma {:induction false} ForwardsPayload(cfg: Config, m: State, ps: seq<Packet>)
    requires TablesMarked(cfg, m)
    ensures Payload(cfg, Forwards(cfg, m, ps).1) == CleanPayload(cfg, m, ps)
    decreases |ps|
  {
    if ps != [] {
      var (n, got) := Forward(cfg, m, ps[0]);
      ForwardMarked(cfg, m, ps[0]);
      ForwardsPayload(cfg, n, ps[1..]);
      var others := Forwards(cfg, n, ps[1..]).1;
      if got.Some? {
        assert ([got.value] + others)[1..] == others;
        ForwardedPayload(cfg, m, ps[0]);
      } else {
        assert [] + others == others;
      }
    }
  }

  lemma ForwardedPayload(cfg: Config, m: State, p: Packet)
    requires TablesMarked(cfg, m)
    ensures var (n, got) := Forward(cfg, m, p);
            && (PassesThrough(cfg, PktPid(p)) && !Dirty(m) ==> got == Some(p))
            && (got.Some? && PassesThrough(cfg, PktPid(got.value)) ==> PassesThrough(cfg, PktPid(p)) && !Dirty(m))
  {
    ForwardMarked(cfg, m, p);
    MarkedFields(Forward(cfg, m, p).0.cache.pat, PAT_PID);
    MarkedFields(Forward(cfg, m, p).0.cache.pmt, cfg.pmtPid);
  }

  lemma {:induction false} CleanKeepsAll(cfg: Config, m: State, ps: seq<Packet>)
    requires StaysClean(cfg, m, ps)
    ensures CleanPayload(cfg, m, ps) == Payload(cfg, ps)
    decreases |ps|
  {
    if ps != [] {
      CleanKeepsAll(cfg, Forward(cfg, m, ps[0]).0, ps[1..]);
    }
  }
}
