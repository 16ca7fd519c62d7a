/** The clock restamper (src/mux.rs:1407-1463): a PCR extrapolated from the number of packets sent
  * at a constant bit rate, and rebased on every value it writes. */
module Restamper {
  import opened Common
  import opened Clock
  import opened TsPacket

  /** Ticks of the 27 MHz clock times bits per second that one packet takes: 188 * 8 * 27000000. */
  const PACKET_TICKS: nat := 40_608_000_000

  datatype Stamper = Stamper(bitrate: nat, sent: nat, first: Option<nat>)

  /** Whole ticks that `sent` packets take. */
  function Elapsed(bitrate: nat, sent: nat): (q: nat)
    requires bitrate != 0
    ensures bitrate * q <= sent * PACKET_TICKS < bitrate * (q + 1)
  {
    DivBounds(sent * PACKET_TICKS, bitrate);
    sent * PACKET_TICKS / bitrate
  }

  lemma DivBounds(x: nat, b: nat)
    requires b != 0
    ensures 0 <= x / b && b * (x / b) <= x < b * (x / b + 1)
  {
  }

  /** `get_pcr`: the quotient is cast to 64 bits and the sum is a 64-bit sum. */
  function GetPcr(r: Stamper): (pcr: Option<nat>)
    ensures pcr.Some? ==> pcr.value < PCR_CYCLE
  {
    match r.first
    case None => None
    case Some(p) =>
      if r.bitrate == 0 then Some(p % PCR_CYCLE)
      else Some((Elapsed(r.bitrate, r.sent) % U64 + p) % U64 % PCR_CYCLE)
  }

  function Resync(r: Stamper, dts: nat): Stamper {
    r.(first := Some(dts * 300 % PCR_CYCLE), sent := 0)
  }

  function Tick(r: Stamper): Stamper {
    r.(sent := r.sent + 1)
  }

  /** `process_packet`: the packet, and the value written if one was. */
  function Process(r: Stamper, p: Packet): (Stamper, Packet, Option<nat>) {
    if !IsPcrPresent(p) || GetPcr(r).None? then (r, p, None)
    else
      var pcr := GetPcr(r).value;
      (r.(first := Some(pcr), sent := 0), WritePcr(p, pcr), Some(pcr))
  }

  /** Restamping leaves the rate and the running of the clock alone, and of the packet all but the
    * six clock bytes; what it writes is what the clock reads, and is read back. */
  lemma ProcessFacts(r: Stamper, p: Packet)
    ensures var (n, out, stamp) := Process(r, p);
            && n.bitrate == r.bitrate && (r.first.Some? ==> n.first.Some?)
            && PktPid(out) == PktPid(p)
            && (forall k :: 0 <= k < 6 || 12 <= k < TS_PACKET_SIZE ==> out[k] == p[k])
            && (stamp.Some? <==> IsPcrPresent(p) && GetPcr(r).Some?)
            && (stamp.None? ==> n == r && out == p)
            && (stamp.Some? ==> stamp == GetPcr(r) && ExtractPcr(out) == stamp
                                && n == r.(first := stamp, sent := 0))
  {
    if IsPcrPresent(p) && GetPcr(r).Some? {
      PcrRoundTrip(p, GetPcr(r).value);
    }
  }

  class PcrRestamper {
    var targetBitrateBps: nat
    var totalPacketsSent: nat
    var firstPcrValue: Option<nat>

    function State(): Stamper
      reads this
    {
      Stamper(targetBitrateBps, totalPacketsSent, firstPcrValue)
    }

    constructor (bitrateBps: nat)
      ensures State() == Stamper(bitrateBps, 0, None)
    {
      targetBitrateBps := bitrateBps;
      totalPacketsSent := 0;
      firstPcrValue := None;
    }

    method ResyncTo(dts90k: nat)
      modifies this
      ensures State() == Resync(old(State()), dts90k)
    {
      firstPcrValue := Some(dts90k * 300 % PCR_CYCLE);
      totalPacketsSent := 0;
    }

    method CurrentPcr() returns (pcr: Option<nat>)
      ensures pcr == GetPcr(State())
    {
      if firstPcrValue.None? {
        return None;
      }
      var lastPcr := firstPcrValue.value;
      if targetBitrateBps != 0 {
        var bitsSent := totalPacketsSent * TS_PACKET_SIZE * 8;
        var ticks := (Elapsed(targetBitrateBps, totalPacketsSent) % U64 + lastPcr) % U64;
        assert bitsSent * 27_000_000 == totalPacketsSent * PACKET_TICKS;
        pcr := Some(ticks % PCR_CYCLE);
      } else {
        pcr := Some(lastPcr % PCR_CYCLE);
      }
    }

    method ProcessPacket(packet: array<Byte>) returns (newPcr: Option<nat>)
      requires packet.Length == TS_PACKET_SIZE
      modifies this, packet
      ensures (State(), packet[..], newPcr) == Process(old(State()), old(packet[..]))
    {
      newPcr := None;
      if IsPcrPresent(packet[..]) {
        var pcr := CurrentPcr();
        if pcr.None? {
          return None;
        }
        PktWritePcr(packet, pcr.value);
        totalPacketsSent := 0;
        firstPcrValue := pcr;
        newPcr := pcr;
      }
    }
  }

  // ----- a clock that only ticks and stamps -----

  /** One packet leaving at the constant rate: its bytes, the DTS it resynchronised the clock to, and
    * the clock value written into it, if any. */
  datatype Slot = Slot(data: Packet, resync: Option<nat>, stamp: Option<nat>)

  /** The restamper after one slot; a stamp becomes the new base. */
  function AfterSlot(r: Stamper, s: Slot): Stamper {
    var ticked := Tick(r);
    var synced := if s.resync.Some? then Resync(ticked, s.resync.value) else ticked;
    if s.stamp.Some? then synced.(first := s.stamp, sent := 0) else synced
  }

  function After(r: Stamper, slots: seq<Slot>): Stamper
    decreases |slots|
  {
    if slots == [] then r else After(AfterSlot(r, slots[0]), slots[1..])
  }

  /** Without a resync, the stamp in a slot is what the clock reads there, and the packet shows it. */
  predicate Honest(r: Stamper, s: Slot) {
    s.resync.None? && s.stamp.Some? ==> s.stamp == GetPcr(Tick(r)) && ExtractPcr(s.data) == s.stamp
  }

  ghost predicate AllHonest(r: Stamper, slots: seq<Slot>) {
    forall k :: 0 <= k < |slots| ==> Honest(After(r, slots[..k]), slots[k])
  }

  /** The time since the last stamp fits the 64-bit sum of `get_raw_pcr`. */
  predicate Fits(r: Stamper) {
    r.bitrate != 0 && Elapsed(r.bitrate, r.sent) + PCR_CYCLE <= U64
  }

  /** Every slot that is stamped is stamped before the sum overflows. */
  ghost predicate NeverOverflows(r: Stamper, slots: seq<Slot>) {
    forall k :: 0 <= k < |slots| && slots[k].stamp.Some? ==> Fits(Tick(After(r, slots[..k])))
  }

  ghost predicate NoResync(slots: seq<Slot>) {
    forall k :: 0 <= k < |slots| ==> slots[k].resync.None?
  }

  function StampCount(slots: seq<Slot>): nat {
    if slots == [] then 0 else (if slots[0].stamp.Some? then 1 else 0) + StampCount(slots[1..])
  }

  /** After `n` packets and `m` stamps the base of the clock lies `s` ticks behind the start, and up
    * to that base the clock has lost less than `m` ticks against the exact bit rate. */
  ghost predicate Tracks(r: Stamper, p0: nat, n: nat, m: nat, s: nat) {
    r.bitrate != 0 && r.sent <= n && r.first == Some((p0 + s) % PCR_CYCLE) &&
    r.bitrate * s <= (n - r.sent) * PACKET_TICKS &&
    if m == 0 then s == 0 && n == r.sent else (n - r.sent) * PACKET_TICKS < r.bitrate * (s + m)
  }

  /** The clock reading in terms of unwrapped time. */
  lemma Reading(r: Stamper, p0: nat, n: nat, m: nat, s: nat)
    requires Tracks(r, p0, n, m, s) && Fits(r)
    ensures GetPcr(r) == Some((p0 + s + Elapsed(r.bitrate, r.sent)) % PCR_CYCLE)
  {
    var q := Elapsed(r.bitrate, r.sent);
    var base := (p0 + s) % PCR_CYCLE;
    assert q % U64 == q && (q + base) % U64 == q + base;
    PcrModStep(base + q, (p0 + s) / PCR_CYCLE);
    assert p0 + s + q == base + q + (p0 + s) / PCR_CYCLE * PCR_CYCLE;
  }

  lemma Distribute(b: nat, x: int, y: int)
    ensures b * (x + y) == b * x + b * y
  {
  }

  /** Stamping adds the whole ticks since the last stamp and loses less than one. */
  lemma StampTracks(r: Stamper, p0: nat, n: nat, m: nat, s: nat)
    requires Tracks(r, p0, n, m, s) && Fits(r)
    ensures var q := Elapsed(r.bitrate, r.sent);
            Tracks(r.(first := GetPcr(r), sent := 0), p0, n, m + 1, s + q)
  {
    var b, q := r.bitrate, Elapsed(r.bitrate, r.sent);
    Reading(r, p0, n, m, s);
    Distribute(b, s, q);
    Distribute(b, s + m, q + 1);
    assert s + m + (q + 1) == s + q + (m + 1);
    assert n * PACKET_TICKS == (n - r.sent) * PACKET_TICKS + r.sent * PACKET_TICKS;
  }

  lemma {:induction false} AfterStep(r: Stamper, slots: seq<Slot>, k: nat)
    requires k < |slots|
    ensures After(r, slots[..k + 1]) == AfterSlot(After(r, slots[..k]), slots[k])
    decreases k
  {
    if k == 0 {
      assert slots[..1] == [slots[0]] && slots[..0] == [] && slots[..1][1..] == [];
    } else {
      assert slots[..k + 1][1..] == slots[1..][..k] && slots[..k][1..] == slots[1..][..k - 1];
      AfterStep(AfterSlot(r, slots[0]), slots[1..], k - 1);
    }
  }

  /** Tick-bits the base of the clock is behind the packets it accounts for. */
  function Lost(r: Stamper, n: nat, s: nat): int {
    (n - r.sent) * PACKET_TICKS - r.bitrate * s
  }

  /** The unwrapped reading: the base, and the whole ticks since. */
  function Now(r: Stamper, p0: nat, s: nat): nat
    requires r.bitrate != 0
  {
    p0 + s + Elapsed(r.bitrate, r.sent)
  }

  lemma ElapsedGrows(bitrate: nat, x: nat, y: nat)
    requires bitrate != 0 && x <= y
    ensures Elapsed(bitrate, x) <= Elapsed(bitrate, y)
  {
    var p, q := Elapsed(bitrate, x), Elapsed(bitrate, y);
    if p > q {
      MulGrows(bitrate, q + 1, p);
    }
  }

  lemma ZeroElapsed(bitrate: nat)
    requires bitrate != 0
    ensures Elapsed(bitrate, 0) == 0
  {
  }

  lemma MulGrows(b: nat, x: nat, y: nat)
    requires x <= y
    ensures b * x <= b * y
  {
  }

  /** One slot: tracking goes on, the clock does not run back and gains nothing it lost. */
  lemma TrackSlot(r: Stamper, p0: nat, n: nat, m: nat, s: nat, x: Slot) returns (t: nat)
    requires Tracks(r, p0, n, m, s) && x.resync.None? && Honest(r, x) && (x.stamp.Some? ==> Fits(Tick(r)))
    ensures Tracks(AfterSlot(r, x), p0, n + 1, m + if x.stamp.Some? then 1 else 0, t)
    ensures Lost(r, n, s) <= Lost(AfterSlot(r, x), n + 1, t)
    ensures Now(r, p0, s) <= Now(AfterSlot(r, x), p0, t)
  {
    var now := Tick(r);
    t := s;
    assert Tracks(now, p0, n + 1, m, s);
    ElapsedGrows(now.bitrate, r.sent, now.sent);
    if x.stamp.Some? {
      StampTracks(now, p0, n + 1, m, s);
      t := s + Elapsed(now.bitrate, now.sent);
      Distribute(now.bitrate, s, Elapsed(now.bitrate, now.sent));
      ZeroElapsed(now.bitrate);
    }
  }

  /** Tracking from any point on; the clock never runs back and never gains what it lost. */
  lemma {:induction false} TracksAfter(r: Stamper, p0: nat, n: nat, m: nat, s: nat, slots: seq<Slot>, k: nat)
    returns (t: nat)
    requires Tracks(r, p0, n, m, s) && k <= |slots|
    requires NoResync(slots) && AllHonest(r, slots) && NeverOverflows(r, slots)
    ensures Tracks(After(r, slots[..k]), p0, n + k, m + StampCount(slots[..k]), t)
    ensures After(r, slots[..k]).bitrate == r.bitrate
    ensures Lost(r, n, s) <= Lost(After(r, slots[..k]), n + k, t)
    ensures Now(r, p0, s) <= Now(After(r, slots[..k]), p0, t)
    decreases k
  {
    t := s;
    if k > 0 {
      t := TracksAfter(r, p0, n, m, s, slots, k - 1);
      AfterStep(r, slots, k - 1);
      StampCountStep(slots, k - 1);
      t := TrackSlot(After(r, slots[..k - 1]), p0, n + k - 1, m + StampCount(slots[..k - 1]), t, slots[k - 1]);
    }
  }

  lemma {:induction false} StampCountStep(slots: seq<Slot>, k: nat)
    requires k < |slots|
    ensures StampCount(slots[..k + 1]) == StampCount(slots[..k]) + if slots[k].stamp.Some? then 1 else 0
    decreases k
  {
    if k == 0 {
      assert slots[..1] == [slots[0]] && slots[..0] == [];
    } else {
      assert slots[..k + 1][1..] == slots[1..][..k] && slots[..k][1..] == slots[1..][..k - 1];
      StampCountStep(slots[1..], k - 1);
    }
  }

  /** Clock accuracy over a whole run.  Start with the clock at `p0` and `sent` packets out since; let
    * slot `k` carry a stamp, the m-th so far.  The stamp read back from the packet is p0 + s modulo
    * the cycle, where s is the exact time of the n = sent + k + 1 packets up to and including this
    * one, less an error below m ticks: bitrate * s <= n * 188 * 8 * 27000000 < bitrate * (s + m). */
  lemma StampAccuracy(r: Stamper, p0: nat, slots: seq<Slot>, k: nat) returns (s: nat)
    requires r.bitrate != 0 && r.first == Some(p0) && p0 < PCR_CYCLE
    requires k < |slots| && slots[k].stamp.Some? && NoResync(slots)
    requires AllHonest(r, slots) && NeverOverflows(r, slots)
    ensures ExtractPcr(slots[k].data) == slots[k].stamp == Some((p0 + s) % PCR_CYCLE)
    ensures var n, m := r.sent + k + 1, StampCount(slots[..k + 1]);
            r.bitrate * s <= n * PACKET_TICKS < r.bitrate * (s + m)
  {
    assert Tracks(r, p0, r.sent, 0, 0);
    s := TracksAfter(r, p0, r.sent, 0, 0, slots, k + 1);
    AfterStep(r, slots, k);
    assert Honest(After(r, slots[..k]), slots[k]);
    StampCountStep(slots, k);
  }

  // ----- how fast the clock runs -----

  lemma AdvanceBound(r: Stamper, n: nat, s: nat, r': Stamper, k: nat, s': nat, p0: nat)
    requires r.bitrate == r'.bitrate != 0
    requires Lost(r, n, s) <= Lost(r', n + k, s')
    ensures r.bitrate * (Now(r', p0, s') - Now(r, p0, s)) < k * PACKET_TICKS + r.bitrate
  {
    var b := r.bitrate;
    var q, q' := Elapsed(b, r.sent), Elapsed(b, r'.sent);
    Distribute(b, s, q);
    Distribute(b, s', q');
    Distribute(b, q, 1);
    var d := s' + q' - s - q;
    assert b * d == b * (s' + q') - b * (s + q) by {
      SplitDifference(b, s' + q', s + q);
    }
  }

  lemma SplitDifference(b: nat, x: int, y: int)
    ensures b * (x - y) == b * x - b * y
  {
  }

  // ----- runs in pieces -----

  lemma {:induction false} AfterAppend(r: Stamper, a: seq<Slot>, b: seq<Slot>)
    ensures After(r, a + b) == After(After(r, a), b)
    decreases |a|
  {
    if a == [] {
      assert a + b == b;
    } else {
      assert (a + b)[1..] == a[1..] + b;
      AfterAppend(AfterSlot(r, a[0]), a[1..], b);
    }
  }

  lemma HonestAppend(r: Stamper, a: seq<Slot>, b: seq<Slot>)
    requires AllHonest(r, a) && AllHonest(After(r, a), b)
    ensures AllHonest(r, a + b)
  {
    forall k | 0 <= k < |a + b| ensures Honest(After(r, (a + b)[..k]), (a + b)[k]) {
      if k < |a| {
        assert (a + b)[..k] == a[..k];
      } else {
        assert (a + b)[..k] == a + b[..k - |a|];
        AfterAppend(r, a, b[..k - |a|]);
      }
    }
  }

  lemma OverflowsAppend(r: Stamper, a: seq<Slot>, b: seq<Slot>)
    requires NeverOverflows(r, a) && NeverOverflows(After(r, a), b)
    ensures NeverOverflows(r, a + b)
  {
    forall k | 0 <= k < |a + b| && (a + b)[k].stamp.Some? ensures Fits(Tick(After(r, (a + b)[..k]))) {
      if k < |a| {
        assert (a + b)[..k] == a[..k];
      } else {
        assert (a + b)[..k] == a + b[..k - |a|];
        AfterAppend(r, a, b[..k - |a|]);
      }
    }
  }

  lemma OneHonest(r: Stamper, x: Slot)
    requires Honest(r, x)
    ensures AllHonest(r, [x]) && After(r, [x]) == AfterSlot(r, x)
  {
    assert [x][..0] == [] && [x][1..] == [];
  }
}
