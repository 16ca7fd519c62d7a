/** Finding packets in an arbitrarily chunked byte stream: `sync_buffer` (src/mux.rs:114-135) and
  * the demultiplexing loop (src/mux.rs:664-802), of which this module keeps the part that decides
  * which 188 bytes are a packet.  What is done with each packet is in module Handler. */
module Framing {
  import opened Common

  const MAX_BUFFER_SIZE: nat := 10 * 1024 * 1024

  // ----- the reference: one canonical framing of a whole stream -----

  /** Three sync bytes one packet apart, starting at `k`. */
  predicate SyncPoint(b: seq<Byte>, k: nat) {
    k + 3 * TS_PACKET_SIZE <= |b| &&
    b[k] == TS_SYNC_BYTE && b[k + 188] == TS_SYNC_BYTE && b[k + 376] == TS_SYNC_BYTE
  }

  /** While in step, take 188 bytes at a time as long as they start with the sync byte; out of step,
    * try every offset in turn until one is a sync point. */
  function Canonical(b: seq<Byte>, inStep: bool): seq<Packet>
    decreases |b|, inStep
  {
    if inStep then
      if |b| < TS_PACKET_SIZE then []
      else if b[0] == TS_SYNC_BYTE then [b[..TS_PACKET_SIZE]] + Canonical(b[TS_PACKET_SIZE..], true)
      else Canonical(b, false)
    else if |b| < 3 * TS_PACKET_SIZE then []
    else if SyncPoint(b, 0) then [b[..TS_PACKET_SIZE]] + Canonical(b[TS_PACKET_SIZE..], true)
    else Canonical(b[1..], false)
  }

  // ----- the code -----

  function FirstSyncByte(b: seq<Byte>): (r: Option<nat>)
    ensures r.None? ==> forall k :: 0 <= k < |b| ==> b[k] != TS_SYNC_BYTE
    ensures r.Some? ==> r.value < |b| && b[r.value] == TS_SYNC_BYTE
    ensures r.Some? ==> forall k :: 0 <= k < r.value ==> b[k] != TS_SYNC_BYTE
  {
    if b == [] then None
    else if b[0] == TS_SYNC_BYTE then Some(0)
    else match FirstSyncByte(b[1..])
      case None => None
      case Some(k) => Some(k + 1)
  }

  function Hunt(b: seq<Byte>): (bool, seq<Byte>)
    decreases |b|
  {
    if |b| < 3 * TS_PACKET_SIZE then (false, b)
    else if SyncPoint(b, 0) then (true, b)
    else match FirstSyncByte(b[1..])
      case None => (false, [])
      case Some(pos) => Hunt(b[pos + 1..])
  }

  lemma HuntTurn(b: seq<Byte>)
    requires |b| >= 3 * TS_PACKET_SIZE && !SyncPoint(b, 0)
    ensures Hunt(b) == match FirstSyncByte(b[1..])
                       case None => (false, [])
                       case Some(pos) => Hunt(b[pos + 1..])
  {
  }

  method SyncBuffer(buff: seq<Byte>) returns (isSync: bool, rest: seq<Byte>)
    ensures (isSync, rest) == Hunt(buff)
  {
    rest := buff;
    while |rest| >= TS_PACKET_SIZE * 3
      invariant Hunt(rest) == Hunt(buff)
      decreases |rest|
    {
      if rest[0] == TS_SYNC_BYTE && rest[TS_PACKET_SIZE] == TS_SYNC_BYTE
         && rest[TS_PACKET_SIZE * 2] == TS_SYNC_BYTE {
        return true, rest;
      }
      HuntTurn(rest);
      var next := FirstSyncByte(rest[1..]);
      if next.None? {
        return false, [];
      }
      rest := rest[next.value + 1..];
    }
    isSync := false;
  }

  /** Positions of `b` that no further input can turn into a sync point. */
  predicate Dead(b: seq<Byte>, k: nat) {
    k < |b| && (b[k] != TS_SYNC_BYTE || (k + 3 * TS_PACKET_SIZE <= |b| && !SyncPoint(b, k)))
  }

  /** One iteration of `sync_buffer` drops only dead positions. */
  lemma HuntStep(b: seq<Byte>) returns (d: nat)
    requires |b| >= 3 * TS_PACKET_SIZE && !SyncPoint(b, 0)
    ensures 0 < d <= |b| && Hunt(b) == Hunt(b[d..])
    ensures forall j :: 0 <= j < d ==> Dead(b, j)
  {
    var r := FirstSyncByte(b[1..]);
    d := if r.Some? then r.value + 1 else |b|;
    forall j | 0 <= j < d ensures Dead(b, j) {
      if j > 0 {
        assert b[j] == b[1..][j - 1];
      }
    }
  }

  lemma DeadShift(b: seq<Byte>, d: nat, j: nat)
    requires d <= |b| && Dead(b[d..], j)
    ensures Dead(b, d + j)
  {
  }

  lemma SyncShift(b: seq<Byte>, d: nat, j: nat)
    requires d <= |b|
    ensures SyncPoint(b[d..], j) <==> SyncPoint(b, d + j)
  {
  }

  /** `k` is where the hunt in `b` ends: everything before it is dead, and it is a sync point or fewer
    * than three packets are left. */
  ghost predicate EndsAt(b: seq<Byte>, found: bool, k: nat) {
    && k <= |b| && (forall j :: 0 <= j < k ==> Dead(b, j))
    && (if found then SyncPoint(b, k) else |b| - k < 3 * TS_PACKET_SIZE)
  }

  lemma EndsLater(b: seq<Byte>, d: nat, found: bool, i: nat)
    requires d <= |b| && EndsAt(b[d..], found, i) && forall j :: 0 <= j < d ==> Dead(b, j)
    ensures EndsAt(b, found, d + i) && b[d..][i..] == b[d + i..]
  {
    forall j | d <= j < d + i ensures Dead(b, j) {
      DeadShift(b, d, j - d);
    }
    SyncShift(b, d, i);
  }

  /** `sync_buffer` stops at the least sync point; if there is none, fewer than three packets are
    * left.  Either way it dropped a prefix of which every position is dead. */
  lemma {:induction false} HuntIsLeast(b: seq<Byte>) returns (k: nat)
    ensures k <= |b| && Hunt(b).1 == b[k..]
    ensures forall j :: 0 <= j < k ==> Dead(b, j)
    ensures if Hunt(b).0 then SyncPoint(b, k) else |Hunt(b).1| < 3 * TS_PACKET_SIZE
    decreases |b|
  {
    if |b| < 3 * TS_PACKET_SIZE || SyncPoint(b, 0) {
      k := 0;
    } else {
      var d := HuntStep(b);
      var i := HuntIsLeast(b[d..]);
      EndsLater(b, d, Hunt(b[d..]).0, i);
      k := d + i;
    }
  }

  /** It reports failure exactly on buffers without a sync point. */
  lemma HuntFindsIfPresent(b: seq<Byte>)
    ensures Hunt(b).0 <==> exists k: nat :: SyncPoint(b, k)
  {
    var k := HuntIsLeast(b);
    forall j: nat | !Hunt(b).0 ensures !SyncPoint(b, j) {
      if j < k { assert Dead(b, j); }
    }
  }

  datatype Framer = Framer(buf: seq<Byte>, synced: bool)

  /** The packets one pass takes from a buffer that is in step, and what it leaves. */
  function Demux(b: seq<Byte>): (seq<Packet>, Framer)
  {
    if |b| < TS_PACKET_SIZE then ([], Framer(b, true))
    else if b[0] != TS_SYNC_BYTE then ([], Framer(b, false))
    else
      var (packets, f) := Demux(b[TS_PACKET_SIZE..]);
      ([b[..TS_PACKET_SIZE]] + packets, f)
  }

  /** One call of `process`, as far as framing goes. */
  function Pass(f: Framer): (seq<Packet>, Framer) {
    if f.synced then Demux(f.buf)
    else
      var (found, rest) := Hunt(f.buf);
      if found then Demux(rest) else ([], Framer(rest, false))
  }

  predicate Overflows(f: Framer, chunk: seq<Byte>) {
    |f.buf| + |chunk| >= MAX_BUFFER_SIZE
  }

  /** One call of `write`: a buffer that would reach 10 MiB is dropped first. */
  function Write(f: Framer, chunk: seq<Byte>): (seq<Packet>, Framer) {
    if Overflows(f, chunk) then Pass(Framer(chunk, false))
    else Pass(Framer(f.buf + chunk, f.synced))
  }

  function Run(f: Framer, chunks: seq<seq<Byte>>): (seq<Packet>, Framer)
    decreases |chunks|
  {
    if chunks == [] then ([], f)
    else
      var (first, g) := Write(f, chunks[0]);
      var (others, h) := Run(g, chunks[1..]);
      (first + others, h)
  }

  /** The same without the limit on the buffer, as in proxy mode. */
  function PassAll(f: Framer, chunks: seq<seq<Byte>>): (seq<Packet>, Framer)
    decreases |chunks|
  {
    if chunks == [] then ([], f)
    else
      var (first, g) := Pass(Framer(f.buf + chunks[0], f.synced));
      var (others, h) := PassAll(g, chunks[1..]);
      (first + others, h)
  }

  ghost predicate NoOverflow(f: Framer, chunks: seq<seq<Byte>>)
    decreases |chunks|
  {
    chunks == [] || (!Overflows(f, chunks[0]) && NoOverflow(Write(f, chunks[0]).1, chunks[1..]))
  }

  const START := Framer([], false)

  // ----- chunk independence -----

  lemma {:induction false} CanonicalSkipsDead(b: seq<Byte>, k: nat, t: seq<Byte>)
    requires k <= |b|
    requires forall j :: 0 <= j < k ==> Dead(b, j)
    ensures Canonical(b + t, false) == Canonical(b[k..] + t, false)
    decreases k
  {
    if k == 0 {
      assert b[0..] + t == b + t;
    } else {
      assert Dead(b, 0);
      assert (b + t)[1..] == b[1..] + t;
      forall j | 0 <= j < k - 1 ensures Dead(b[1..], j) {
        assert Dead(b, j + 1);
      }
      CanonicalSkipsDead(b[1..], k - 1, t);
      assert b[1..][k - 1..] == b[k..];
      assert Canonical(b + t, false) == Canonical((b + t)[1..], false) by {
        if |b + t| < 3 * TS_PACKET_SIZE {
        } else {
          assert !SyncPoint(b + t, 0);
        }
      }
    }
  }

  lemma HuntKeepsCanonical(b: seq<Byte>, t: seq<Byte>)
    ensures Canonical(b + t, false) == Canonical(Hunt(b).1 + t, Hunt(b).0)
  {
    var k := HuntIsLeast(b);
    CanonicalSkipsDead(b, k, t);
    if Hunt(b).0 {
      assert SyncPoint(b[k..] + t, 0);
    }
  }

  lemma {:induction false} DemuxKeepsCanonical(b: seq<Byte>, t: seq<Byte>)
    ensures Canonical(b + t, true) == Demux(b).0 + Canonical(Demux(b).1.buf + t, Demux(b).1.synced)
    decreases |b|
  {
    if |b| >= TS_PACKET_SIZE {
      if b[0] == TS_SYNC_BYTE {
        DemuxKeepsCanonical(b[TS_PACKET_SIZE..], t);
        assert (b + t)[..TS_PACKET_SIZE] == b[..TS_PACKET_SIZE];
        assert (b + t)[TS_PACKET_SIZE..] == b[TS_PACKET_SIZE..] + t;
      }
    }
  }

  lemma PassKeepsCanonical(f: Framer, t: seq<Byte>)
    ensures Canonical(f.buf + t, f.synced)
            == Pass(f).0 + Canonical(Pass(f).1.buf + t, Pass(f).1.synced)
  {
    if f.synced {
      DemuxKeepsCanonical(f.buf, t);
    } else {
      HuntKeepsCanonical(f.buf, t);
      if Hunt(f.buf).0 {
        DemuxKeepsCanonical(Hunt(f.buf).1, t);
      }
    }
  }

  /** At every moment of every run the canonical framing of the stream, however it continues, is
    * what was taken so far followed by the canonical framing of what is still buffered. */
  lemma {:induction false} RunKeepsCanonical(f: Framer, chunks: seq<seq<Byte>>, t: seq<Byte>)
    ensures Canonical(f.buf + Flatten(chunks) + t, f.synced)
            == PassAll(f, chunks).0 + Canonical(PassAll(f, chunks).1.buf + t, PassAll(f, chunks).1.synced)
    decreases |chunks|
  {
    if chunks == [] {
      assert f.buf + [] + t == f.buf + t;
    } else {
      var r := Flatten(chunks[1..]);
      var (first, g) := Pass(Framer(f.buf + chunks[0], f.synced));
      var (others, h) := PassAll(g, chunks[1..]);
      calc {
        Canonical(f.buf + Flatten(chunks) + t, f.synced);
        { assert f.buf + Flatten(chunks) + t == f.buf + chunks[0] + (r + t); }
        Canonical(f.buf + chunks[0] + (r + t), f.synced);
        { PassKeepsCanonical(Framer(f.buf + chunks[0], f.synced), r + t); }
        first + Canonical(g.buf + (r + t), g.synced);
        { assert g.buf + (r + t) == g.buf + r + t; }
        first + Canonical(g.buf + r + t, g.synced);
        { RunKeepsCanonical(g, chunks[1..], t); }
        first + (others + Canonical(h.buf + t, h.synced));
        (first + others) + Canonical(h.buf + t, h.synced);
      }
    }
  }

  /** As long as the buffer stays below its limit, the limit makes no difference. */
  lemma {:induction false} RunIsPassAll(f: Framer, chunks: seq<seq<Byte>>)
    requires NoOverflow(f, chunks)
    ensures Run(f, chunks) == PassAll(f, chunks)
    decreases |chunks|
  {
    if chunks != [] {
      RunIsPassAll(Write(f, chunks[0]).1, chunks[1..]);
    }
  }

  predicate IsSuffix(a: seq<Byte>, b: seq<Byte>) {
    |a| <= |b| && b[|b| - |a|..] == a
  }

  lemma SuffixSteps(a: seq<Byte>, b: seq<Byte>, c: seq<Byte>, r: seq<Byte>)
    requires IsSuffix(b, c) && IsSuffix(a, b + r)
    ensures IsSuffix(a, c + r)
  {
    assert (c + r)[|c| - |b|..] == b + r;
  }

  lemma {:induction false} DemuxLeavesSuffix(b: seq<Byte>)
    ensures IsSuffix(Demux(b).1.buf, b)
    ensures Demux(b).1.synced ==> |Demux(b).1.buf| < TS_PACKET_SIZE
    decreases |b|
  {
    if |b| >= TS_PACKET_SIZE && b[0] == TS_SYNC_BYTE {
      DemuxLeavesSuffix(b[TS_PACKET_SIZE..]);
    }
  }

  lemma PassLeavesSuffix(f: Framer)
    ensures IsSuffix(Pass(f).1.buf, f.buf)
    ensures Pass(f).1.synced ==> |Pass(f).1.buf| < TS_PACKET_SIZE
  {
    if f.synced {
      DemuxLeavesSuffix(f.buf);
    } else {
      var k := HuntIsLeast(f.buf);
      DemuxLeavesSuffix(Hunt(f.buf).1);
    }
  }

  lemma {:induction false} RunLeavesSuffix(f: Framer, chunks: seq<seq<Byte>>)
    requires f.synced ==> |f.buf| < TS_PACKET_SIZE
    ensures IsSuffix(PassAll(f, chunks).1.buf, f.buf + Flatten(chunks))
    ensures PassAll(f, chunks).1.synced ==> |PassAll(f, chunks).1.buf| < TS_PACKET_SIZE
    decreases |chunks|
  {
    if chunks == [] {
      assert f.buf + [] == f.buf;
    } else {
      var (first, g) := Pass(Framer(f.buf + chunks[0], f.synced));
      PassLeavesSuffix(Framer(f.buf + chunks[0], f.synced));
      var r := Flatten(chunks[1..]);
      RunLeavesSuffix(g, chunks[1..]);
      SuffixSteps(PassAll(f, chunks).1.buf, g.buf, f.buf + chunks[0], r);
      assert f.buf + Flatten(chunks) == f.buf + chunks[0] + r;
    }
  }

  lemma NothingLeft(f: Framer)
    requires if f.synced then |f.buf| < TS_PACKET_SIZE else |f.buf| < 3 * TS_PACKET_SIZE
    ensures Canonical(f.buf, f.synced) == []
  {
  }

  /** What a run has taken and what it has left make up the canonical framing of its input. */
  lemma TakenAndLeft(chunks: seq<seq<Byte>>)
    ensures var (packets, f) := PassAll(START, chunks);
            Canonical(Flatten(chunks), false) == packets + Canonical(f.buf, f.synced)
  {
    var f := PassAll(START, chunks).1;
    RunKeepsCanonical(START, chunks, []);
    assert START.buf + Flatten(chunks) + [] == Flatten(chunks);
    assert f.buf + [] == f.buf;
  }

  /** However a stream is cut into calls, the packets taken are a prefix of its canonical framing and
    * the input buffer is a suffix of it; nothing is missing unless the last call left the loop
    * because it lost synchronisation. */
  lemma ChunksDoNotMatter(chunks: seq<seq<Byte>>)
    ensures PassAll(START, chunks).0 <= Canonical(Flatten(chunks), false)
    ensures IsSuffix(PassAll(START, chunks).1.buf, Flatten(chunks))
    ensures PassAll(START, chunks).1.synced || |PassAll(START, chunks).1.buf| < 3 * TS_PACKET_SIZE
            ==> PassAll(START, chunks).0 == Canonical(Flatten(chunks), false)
  {
    var (packets, f) := PassAll(START, chunks);
    TakenAndLeft(chunks);
    assert IsSuffix(f.buf, Flatten(chunks)) && (f.synced ==> |f.buf| < TS_PACKET_SIZE) by {
      RunLeavesSuffix(START, chunks);
      assert START.buf + Flatten(chunks) == Flatten(chunks);
    }
    if f.synced || |f.buf| < 3 * TS_PACKET_SIZE {
      NothingLeft(f);
      assert packets + [] == packets;
    }
  }

  /** So it is for `write`, whose buffer is dropped only when it would reach 10 MiB. */
  lemma ChunkIndependence(chunks: seq<seq<Byte>>)
    requires NoOverflow(START, chunks)
    ensures Run(START, chunks).0 <= Canonical(Flatten(chunks), false)
    ensures IsSuffix(Run(START, chunks).1.buf, Flatten(chunks))
    ensures Run(START, chunks).1.synced || |Run(START, chunks).1.buf| < 3 * TS_PACKET_SIZE
            ==> Run(START, chunks).0 == Canonical(Flatten(chunks), false)
  {
    RunIsPassAll(START, chunks);
    ChunksDoNotMatter(chunks);
  }

  /** Two ways of cutting the same stream never disagree on a packet. */
  lemma TwoChunkings(xs: seq<seq<Byte>>, ys: seq<seq<Byte>>)
    requires Flatten(xs) == Flatten(ys)
    ensures PassAll(START, xs).0 <= PassAll(START, ys).0 || PassAll(START, ys).0 <= PassAll(START, xs).0
    ensures PassAll(START, xs).1.synced && PassAll(START, ys).1.synced
            ==> PassAll(START, xs).0 == PassAll(START, ys).0
  {
    ChunksDoNotMatter(xs);
    ChunksDoNotMatter(ys);
  }

  // ----- catching up after a loss of synchronisation -----

  function EmptyChunks(n: nat): seq<seq<Byte>> {
    seq(n, _ => [])
  }

  lemma {:induction false} DemuxMakesProgress(b: seq<Byte>)
    requires |b| >= TS_PACKET_SIZE && b[0] == TS_SYNC_BYTE
    ensures |Demux(b).1.buf| < |b|
  {
    DemuxLeavesSuffix(b[TS_PACKET_SIZE..]);
  }

  /** A pass either finishes the job or shortens the buffer, so after at most as many further calls
    * as there are bytes, even empty ones, the canonical framing is complete. */
  lemma {:induction false} CatchesUp(f: Framer) returns (calls: nat)
    requires |f.buf| < MAX_BUFFER_SIZE
    requires f.synced ==> |f.buf| < TS_PACKET_SIZE
    ensures calls <= |f.buf|
    ensures NoOverflow(f, EmptyChunks(calls))
    ensures Run(f, EmptyChunks(calls)).0 == Canonical(f.buf, f.synced)
    decreases |f.buf|
  {
    if f.synced || |f.buf| < 3 * TS_PACKET_SIZE {
      assert EmptyChunks(0) == [];
      return 0;
    }
    var (first, g) := Write(f, []);
    assert f.buf + [] == f.buf;
    PassKeepsCanonical(f, []);
    PassLeavesSuffix(f);
    assert g.buf + [] == g.buf;
    var k := HuntIsLeast(f.buf);
    if Hunt(f.buf).0 {
      DemuxMakesProgress(Hunt(f.buf).1);
    }
    var n := CatchesUp(g);
    calls := n + 1;
    var none := EmptyChunks(n + 1);
    assert none[0] == [] && none[1..] == EmptyChunks(n);
    assert Run(f, none).0 == first + Run(g, none[1..]).0;
  }
}
