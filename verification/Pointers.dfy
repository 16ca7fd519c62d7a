/** Sections packed one behind the other, as section 2.4.4 of ISO/IEC 13818-1 allows: a section may start
  * in the packet that ends another, behind a pointer.  The reassembler (src/psi/mod.rs:35-111) drops the
  * rest of a packet that completes a section, so not all of them come back; here is which do. */
module Pointers {
  import opened Common
  import opened TsPacket
  import opened Sections

  // ----- a sender that leaves no gap -----

  /** A packet that ends one section and starts another, with a pointer to where. */
  function StartPacket(tail: Bytes, chunk: Bytes, pid: Pid, cc: nat): Packet
    requires |tail| + |chunk| <= FIRST_CAPACITY
  {
    [TS_SYNC_BYTE, pid / 256 % 32 + 64, pid % 256, 16 + cc % 16, |tail|]
    + tail + chunk + Fill(FIRST_CAPACITY - |tail| - |chunk|, 0xFF)
  }

  /** Packets that neither start nor share a section, as long as too much is left to share one. */
  function Middle(rest: Bytes, pid: Pid, cc: nat): seq<Packet>
    decreases |rest|
  {
    if |rest| < FIRST_CAPACITY then []
    else
      var n := Min(NEXT_CAPACITY, |rest|);
      [PacketOf(rest[..n], pid, cc, false)] + Middle(rest[n..], pid, (cc + 1) % 16)
  }

  /** What is left of it for the packet that starts the next section. */
  function Tail(rest: Bytes): (t: Bytes)
    ensures |t| < FIRST_CAPACITY && |t| <= |rest|
    decreases |rest|
  {
    if |rest| < FIRST_CAPACITY then rest else Tail(rest[Min(NEXT_CAPACITY, |rest|)..])
  }

  /** How much of a section fits behind `used` bytes of the one before it. */
  function Share(used: nat, n: nat): nat
    requires used < FIRST_CAPACITY
  {
    Min(FIRST_CAPACITY - used, n)
  }

  /** Each section starts in the packet that ends the one before it. */
  function PackChain(tail: Bytes, sections: seq<Bytes>, pid: Pid, cc: nat): seq<Packet>
    requires |tail| < FIRST_CAPACITY
    decreases |sections|
  {
    if sections == [] then if tail == [] then [] else [PacketOf(tail, pid, cc, false)]
    else
      Link(tail, sections[0], pid, cc)
      + PackChain(TailAfter(tail, sections[0]), sections[1..], pid, CcAfter(tail, sections[0], pid, cc))
  }

  /** The packets from the start of a section up to its tail. */
  function Link(tail: Bytes, s: Bytes, pid: Pid, cc: nat): seq<Packet>
    requires |tail| < FIRST_CAPACITY
  {
    var n := Share(|tail|, |s|);
    [StartPacket(tail, s[..n], pid, cc)] + Middle(s[n..], pid, (cc + 1) % 16)
  }

  function TailAfter(tail: Bytes, s: Bytes): (t: Bytes)
    requires |tail| < FIRST_CAPACITY
    ensures |t| < FIRST_CAPACITY
  {
    Tail(s[Share(|tail|, |s|)..])
  }

  function CcAfter(tail: Bytes, s: Bytes, pid: Pid, cc: nat): nat
    requires |tail| < FIRST_CAPACITY
  {
    (cc + |Link(tail, s, pid, cc)|) % 16
  }

  // ----- which sections come back -----

  /** The bytes of a section left for the packet of the next, by lengths alone. */
  function Left(rest: nat): (n: nat)
    ensures n < FIRST_CAPACITY
  {
    if rest < FIRST_CAPACITY then rest else Left(rest - Min(NEXT_CAPACITY, rest))
  }

  function LeftBy(used: nat, n: nat): (left: nat)
    requires used < FIRST_CAPACITY
    ensures left < FIRST_CAPACITY
  {
    Left(n - Share(used, n))
  }

  /** A section whose first packet ends one that is being collected is lost; any other comes back, and is
    * being collected when the next starts if it has bytes left for that packet. */
  function ComeBack(open: bool, used: nat, sections: seq<Bytes>): seq<Bytes>
    requires used < FIRST_CAPACITY
    decreases |sections|
  {
    if sections == [] then []
    else
      var left := LeftBy(used, |sections[0]|);
      if open then ComeBack(false, left, sections[1..])
      else [sections[0]] + ComeBack(left > 0, left, sections[1..])
  }

  // ----- the reassembler on these packets -----

  /** The first `k` bytes of a section are buffered. */
  function Holding(s: Bytes, k: nat): Reasm
    requires k <= |s|
  {
    Reasm(s[..k], if k < 3 then None else Some(|s|))
  }

  function Outcome(s: Bytes, k: nat): (Reasm, Option<Bytes>)
    requires k <= |s|
  {
    if k == |s| then (EMPTY, Some(s)) else (Holding(s, k), None)
  }

  /** Bytes of a section, and stuffing only behind all of it. */
  lemma TakesSection(s: Bytes, k: nat, r: Reasm, fill: nat)
    requires WellSized(s) && k <= |s| && (k < |s| ==> fill == 0)
    requires r.buffer == s[..k] + Fill(fill, 0xFF) && (r.expected.Some? ==> k >= 3 && r.expected == Some(|s|))
    ensures TakeComplete(r) == Outcome(s, k)
  {
    assert r.buffer[..k] == s[..k];
    assert k >= 3 ==> r.buffer[1] == s[1] && r.buffer[2] == s[2];
    if k == |s| {
      assert r.buffer[..|s|] == s;
    } else {
      assert r.buffer == s[..k];
    }
  }

  lemma StartFields(tail: Bytes, chunk: Bytes, pid: Pid, cc: nat)
    requires |tail| + |chunk| <= FIRST_CAPACITY
    ensures var p := StartPacket(tail, chunk, pid, cc);
            && Pusi(p) && PayloadOffset(p) == Some(4) && p[4] as int == |tail| && p[5..5 + |tail|] == tail
            && p[5 + |tail|..] == chunk + Fill(FIRST_CAPACITY - |tail| - |chunk|, 0xFF)
  {
    var p := StartPacket(tail, chunk, pid, cc);
    assert p[1] == pid / 256 % 32 + 64 && p[3] == 16 + cc % 16 && p[4] == |tail|;
  }

  /** Nothing in progress, or nothing before the pointer: the new section is taken up. */
  lemma StartSeen(r: Reasm, tail: Bytes, s: Bytes, pid: Pid, cc: nat)
    requires WellSized(s) && |tail| < FIRST_CAPACITY && (r.buffer == [] || tail == [])
    ensures var n := Share(|tail|, |s|);
            Accept(r, StartPacket(tail, s[..n], pid, cc)) == Outcome(s, n)
  {
    var n := Share(|tail|, |s|);
    var p := StartPacket(tail, s[..n], pid, cc);
    StartFields(tail, s[..n], pid, cc);
    TakesSection(s, n, Reasm(p[5 + |tail|..], None), FIRST_CAPACITY - |tail| - n);
  }

  /** The bytes before the pointer complete a section: the one that starts here is lost. */
  lemma StartLost(prev: Bytes, tail: Bytes, chunk: Bytes, pid: Pid, cc: nat)
    requires WellSized(prev) && 0 < |tail| < |prev| && prev[|prev| - |tail|..] == tail
    requires |tail| + |chunk| <= FIRST_CAPACITY
    ensures Accept(Holding(prev, |prev| - |tail|), StartPacket(tail, chunk, pid, cc)) == (EMPTY, Some(prev))
  {
    var k := |prev| - |tail|;
    var p := StartPacket(tail, chunk, pid, cc);
    StartFields(tail, chunk, pid, cc);
    assert prev[..k] + tail == prev[..|prev|] + Fill(0, 0xFF);
    TakesSection(prev, |prev|, Reasm(prev[..k] + tail, Holding(prev, k).expected), 0);
  }

  lemma ContinueSeen(s: Bytes, k: nat, n: nat, pid: Pid, cc: nat)
    requires WellSized(s) && 0 < k && k + n <= |s| && n <= NEXT_CAPACITY && (n < NEXT_CAPACITY ==> k + n == |s|)
    ensures Accept(Holding(s, k), PacketOf(s[k..k + n], pid, cc, false)) == Outcome(s, k + n)
  {
    var p := PacketOf(s[k..k + n], pid, cc, false);
    PacketFields(s[k..k + n], pid, cc, false);
    assert s[..k] + p[4..] == s[..k + n] + Fill(NEXT_CAPACITY - n, 0xFF);
    TakesSection(s, k + n, Reasm(s[..k] + p[4..], Holding(s, k).expected), NEXT_CAPACITY - n);
  }

  lemma ContinueUnseen(r: Reasm, chunk: Bytes, pid: Pid, cc: nat)
    requires r.buffer == [] && |chunk| <= NEXT_CAPACITY
    ensures Accept(r, PacketOf(chunk, pid, cc, false)) == (r, None)
  {
    PacketFields(chunk, pid, cc, false);
  }

  /** From `r`, the packets lead to `r'` and return these sections, in order. */
  ghost predicate Gives(r: Reasm, ps: seq<Packet>, r': Reasm, sections: seq<Bytes>) {
    RunOne(r, ps).0 == r' && Somes(RunOne(r, ps).1) == sections
  }

  lemma GivesOne(r: Reasm, p: Packet)
    ensures Gives(r, [p], Accept(r, p).0, if Accept(r, p).1.Some? then [Accept(r, p).1.value] else [])
  {
    assert [p][1..] == [];
    var outs := RunOne(r, [p]).1;
    assert outs == [Accept(r, p).1] && outs[1..] == [];
  }

  lemma GivesJoin(r: Reasm, a: seq<Packet>, r': Reasm, xs: seq<Bytes>, b: seq<Packet>, r'': Reasm, ys: seq<Bytes>)
    requires Gives(r, a, r', xs) && Gives(r', b, r'', ys)
    ensures Gives(r, a + b, r'', xs + ys)
  {
    RunOneAppend(r, a, b);
    SomesAppend(RunOne(r, a).1, RunOne(r', b).1);
  }

  lemma {:induction false} MiddleUnseen(r: Reasm, rest: Bytes, pid: Pid, cc: nat)
    requires r.buffer == []
    ensures Gives(r, Middle(rest, pid, cc), r, [])
    decreases |rest|
  {
    if |rest| >= FIRST_CAPACITY {
      var n := Min(NEXT_CAPACITY, |rest|);
      var p := PacketOf(rest[..n], pid, cc, false);
      ContinueUnseen(r, rest[..n], pid, cc);
      GivesOne(r, p);
      MiddleUnseen(r, rest[n..], pid, (cc + 1) % 16);
      GivesJoin(r, [p], r, [], Middle(rest[n..], pid, (cc + 1) % 16), r, []);
    }
  }

  lemma {:induction false} TailOf(s: Bytes, k: nat)
    requires k <= |s|
    ensures var tail := Tail(s[k..]);
            |tail| <= |s| - k && s[|s| - |tail|..] == tail
    decreases |s| - k
  {
    var rest := s[k..];
    if |rest| >= FIRST_CAPACITY {
      var n := Min(NEXT_CAPACITY, |rest|);
      assert rest[n..] == s[k + n..];
      TailOf(s, k + n);
    }
  }

  /** What remains of a section at `k` once its middle packets have been sent. */
  function TailAt(s: Bytes, k: nat): (n: nat)
    requires k <= |s|
    ensures n <= |s| - k
  {
    |Tail(s[k..])|
  }

  /** A section is collected up to its tail; it is returned if that is empty. */
  lemma {:induction false} MiddleSeen(s: Bytes, k: nat, pid: Pid, cc: nat)
    requires WellSized(s) && 0 < k < |s|
    ensures Gives(Holding(s, k), Middle(s[k..], pid, cc), Outcome(s, |s| - TailAt(s, k)).0,
                  if TailAt(s, k) == 0 then [s] else [])
    decreases |s| - k
  {
    if |s| - k >= FIRST_CAPACITY {
      var n := Min(NEXT_CAPACITY, |s| - k);
      var more := Middle(s[k + n..], pid, (cc + 1) % 16);
      MiddleSplit(s, k, pid, cc);
      if k + n < |s| {
        MiddleSeen(s, k + n, pid, (cc + 1) % 16);
        MiddleOne(s, k, n, pid, cc, more, Outcome(s, |s| - TailAt(s, k)).0, if TailAt(s, k) == 0 then [s] else []);
      } else {
        assert s[k + n..] == [] && more == [];
        MiddleEnds(s, k, n, pid, cc);
      }
    } else {
      MiddleNone(s, k, pid, cc);
    }
  }

  lemma MiddleNone(s: Bytes, k: nat, pid: Pid, cc: nat)
    requires k < |s| && |s| - k < FIRST_CAPACITY
    ensures TailAt(s, k) == |s| - k && Gives(Holding(s, k), Middle(s[k..], pid, cc), Outcome(s, k).0, [])
  {
    assert Middle(s[k..], pid, cc) == [];
  }

  lemma MiddleOne(s: Bytes, k: nat, n: nat, pid: Pid, cc: nat, more: seq<Packet>, r: Reasm, xs: seq<Bytes>)
    requires WellSized(s) && 0 < k && k + n < |s| && n == NEXT_CAPACITY && Gives(Holding(s, k + n), more, r, xs)
    ensures Gives(Holding(s, k), [PacketOf(s[k..k + n], pid, cc, false)] + more, r, xs)
  {
    var p := PacketOf(s[k..k + n], pid, cc, false);
    ContinueSeen(s, k, n, pid, cc);
    PacketGives(Holding(s, k), p, Outcome(s, k + n));
    GivesJoin(Holding(s, k), [p], Holding(s, k + n), [], more, r, xs);
  }

  lemma MiddleEnds(s: Bytes, k: nat, n: nat, pid: Pid, cc: nat)
    requires WellSized(s) && 0 < k && k + n == |s| && n <= NEXT_CAPACITY
    ensures Gives(Holding(s, k), [PacketOf(s[k..k + n], pid, cc, false)] + [], EMPTY, [s])
  {
    var p := PacketOf(s[k..k + n], pid, cc, false);
    ContinueSeen(s, k, n, pid, cc);
    PacketGives(Holding(s, k), p, Outcome(s, k + n));
    GivesJoin(Holding(s, k), [p], EMPTY, [s], [], EMPTY, []);
  }

  lemma PacketGives(r: Reasm, p: Packet, out: (Reasm, Option<Bytes>))
    requires Accept(r, p) == out
    ensures Gives(r, [p], out.0, if out.1.Some? then [out.1.value] else [])
  {
    GivesOne(r, p);
  }

  lemma MiddleSplit(s: Bytes, k: nat, pid: Pid, cc: nat)
    requires k <= |s| && |s| - k >= FIRST_CAPACITY
    ensures var n := Min(NEXT_CAPACITY, |s| - k);
            && Middle(s[k..], pid, cc) == [PacketOf(s[k..k + n], pid, cc, false)] + Middle(s[k + n..], pid, (cc + 1) % 16)
            && TailAt(s, k) == TailAt(s, k + n)
  {
    var n := Min(NEXT_CAPACITY, |s| - k);
    assert s[k..][..n] == s[k..k + n] && s[k..][n..] == s[k + n..];
  }

  lemma {:induction false} TailIsLeft(rest: Bytes)
    ensures |Tail(rest)| == Left(|rest|)
    decreases |rest|
  {
    if |rest| >= FIRST_CAPACITY {
      TailIsLeft(rest[Min(NEXT_CAPACITY, |rest|)..]);
    }
  }

  // ----- chains -----

  /** What the reassembler may hold when the tail of `prev` is still to come. */
  ghost predicate Awaits(r: Reasm, open: bool, prev: Bytes, tail: Bytes) {
    if open then WellSized(prev) && 0 < |tail| < |prev| && prev[|prev| - |tail|..] == tail
                 && r == Holding(prev, |prev| - |tail|)
    else r.buffer == [] || tail == []
  }

  /** The packets of one section: what they return, and what then is awaited. */
  lemma OneLink(r: Reasm, open: bool, prev: Bytes, tail: Bytes, s: Bytes, pid: Pid, cc: nat)
    returns (r': Reasm)
    requires Awaits(r, open, prev, tail) && |tail| < FIRST_CAPACITY && WellSized(s)
    ensures var left := TailAfter(tail, s);
            var open' := !open && left != [];
            && Gives(r, Link(tail, s, pid, cc), r', IfOpen(open, prev) + IfOpen(!open && !open', s))
            && Awaits(r', open', s, left)
  {
    var n := Share(|tail|, |s|);
    var p, left, mid := StartPacket(tail, s[..n], pid, cc), Tail(s[n..]), Middle(s[n..], pid, (cc + 1) % 16);
    GivesOne(r, p);
    if open {
      StartLost(prev, tail, s[..n], pid, cc);
      MiddleUnseen(EMPTY, s[n..], pid, (cc + 1) % 16);
      GivesJoin(r, [p], EMPTY, [prev], mid, EMPTY, []);
      r' := EMPTY;
    } else {
      StartSeen(r, tail, s, pid, cc);
      if n == |s| {
        assert mid == [];
        assert [p] + mid == [p];
        r' := EMPTY;
      } else {
        TailOf(s, n);
        MiddleSeen(s, n, pid, (cc + 1) % 16);
        r' := Outcome(s, |s| - |left|).0;
        GivesJoin(r, [p], Holding(s, n), [], mid, r', if left == [] then [s] else []);
      }
    }
  }

  lemma LastTail(r: Reasm, open: bool, prev: Bytes, tail: Bytes, pid: Pid, cc: nat)
    requires Awaits(r, open, prev, tail) && 0 < |tail| < FIRST_CAPACITY
    ensures Somes(RunOne(r, [PacketOf(tail, pid, cc, false)]).1) == IfOpen(open, prev)
  {
    if open {
      LastSeen(prev, tail, pid, cc);
      OneOutcome(r, PacketOf(tail, pid, cc, false), Some(prev));
    } else {
      ContinueUnseen(r, tail, pid, cc);
      OneOutcome(r, PacketOf(tail, pid, cc, false), None);
    }
  }

  lemma LastSeen(prev: Bytes, tail: Bytes, pid: Pid, cc: nat)
    requires WellSized(prev) && 0 < |tail| < |prev| && |tail| < FIRST_CAPACITY && prev[|prev| - |tail|..] == tail
    ensures Accept(Holding(prev, |prev| - |tail|), PacketOf(tail, pid, cc, false)).1 == Some(prev)
  {
    var k, n := |prev| - |tail|, |tail|;
    assert prev[k..k + n] == prev[k..] == tail;
    ContinueSeen(prev, k, n, pid, cc);
  }

  lemma OneOutcome(r: Reasm, p: Packet, out: Option<Bytes>)
    requires Accept(r, p).1 == out
    ensures Somes(RunOne(r, [p]).1) == if out.Some? then [out.value] else []
  {
    GivesOne(r, p);
  }

  lemma GivesThen(r: Reasm, link: seq<Packet>, r': Reasm, xs: seq<Bytes>, more: seq<Packet>, ys: seq<Bytes>)
    requires Gives(r, link, r', xs) && Somes(RunOne(r', more).1) == ys
    ensures Somes(RunOne(r, link + more).1) == xs + ys
  {
    GivesJoin(r, link, r', xs, more, RunOne(r', more).0, ys);
  }

  /** `ComeBack`, one section at a time. */
  lemma ComeBackTurn(open: bool, prev: Bytes, tail: Bytes, sections: seq<Bytes>)
    requires |tail| < FIRST_CAPACITY && sections != []
    ensures var s := sections[0];
            var left := TailAfter(tail, s);
            var open' := !open && left != [];
            IfOpen(open, prev) + IfOpen(!open && !open', s)
            + (IfOpen(open', s) + ComeBack(open', |left|, sections[1..]))
            == IfOpen(open, prev) + ComeBack(open, |tail|, sections)
  {
    TailIsLeft(sections[0][Share(|tail|, |sections[0]|)..]);
  }

  /** What an open section adds. */
  function IfOpen(open: bool, s: Bytes): seq<Bytes> {
    if open then [s] else []
  }

  lemma {:induction false} ChainFrom(r: Reasm, open: bool, prev: Bytes, tail: Bytes, sections: seq<Bytes>,
                                     pid: Pid, cc: nat)
    requires Awaits(r, open, prev, tail) && |tail| < FIRST_CAPACITY
    requires forall s :: s in sections ==> WellSized(s)
    ensures Somes(RunOne(r, PackChain(tail, sections, pid, cc)).1)
            == IfOpen(open, prev) + ComeBack(open, |tail|, sections)
    decreases |sections|
  {
    if sections == [] {
      if tail != [] {
        LastTail(r, open, prev, tail, pid, cc);
      }
    } else {
      var s, left, cc' := sections[0], TailAfter(tail, sections[0]), CcAfter(tail, sections[0], pid, cc);
      var open' := !open && left != [];
      var r' := OneLink(r, open, prev, tail, s, pid, cc);
      ChainFrom(r', open', s, left, sections[1..], pid, cc');
      GivesThen(r, Link(tail, s, pid, cc), r', IfOpen(open, prev) + IfOpen(!open && !open', s),
                PackChain(left, sections[1..], pid, cc'), IfOpen(open', s) + ComeBack(open', |left|, sections[1..]));
      ComeBackTurn(open, prev, tail, sections);
    }
  }

  /** From any state, exactly these sections of a chain come back, in order. */
  lemma ChainReturns(r: Reasm, sections: seq<Bytes>, pid: Pid, cc: nat)
    requires forall s :: s in sections ==> WellSized(s)
    ensures Somes(RunOne(r, PackChain([], sections, pid, cc)).1) == ComeBack(false, 0, sections)
  {
    ChainFrom(r, false, [], [], sections, pid, cc);
    assert [] + ComeBack(false, 0, sections) == ComeBack(false, 0, sections);
  }

  /** No section but the last has bytes left when the next one starts. */
  predicate Aligned(used: nat, sections: seq<Bytes>)
    requires used < FIRST_CAPACITY
    decreases |sections|
  {
    |sections| >= 2 ==> LeftBy(used, |sections[0]|) == 0 && Aligned(0, sections[1..])
  }

  /** Every section but the last has. */
  predicate Linked(used: nat, sections: seq<Bytes>)
    requires used < FIRST_CAPACITY
    decreases |sections|
  {
    |sections| >= 2 ==> LeftBy(used, |sections[0]|) > 0 && Linked(LeftBy(used, |sections[0]|), sections[1..])
  }

  function EveryOther(sections: seq<Bytes>): seq<Bytes> {
    if |sections| <= 1 then sections else [sections[0]] + EveryOther(sections[2..])
  }

  lemma {:induction false} NoMore(open: bool, used: nat, sections: seq<Bytes>)
    requires used < FIRST_CAPACITY
    ensures |ComeBack(open, used, sections)| <= |sections|
    ensures open && sections != [] ==> |ComeBack(open, used, sections)| < |sections|
    decreases |sections|
  {
    if sections != [] {
      var left := LeftBy(used, |sections[0]|);
      NoMore(!open && left > 0, left, sections[1..]);
    }
  }

  lemma {:induction false} AllComeBack(used: nat, sections: seq<Bytes>)
    requires used < FIRST_CAPACITY
    ensures ComeBack(false, used, sections) == sections <==> Aligned(used, sections)
    decreases |sections|
  {
    if sections != [] {
      var left := LeftBy(used, |sections[0]|);
      assert sections == [sections[0]] + sections[1..];
      if left == 0 {
        AllComeBack(0, sections[1..]);
      } else {
        NoMore(true, left, sections[1..]);
      }
    }
  }

  lemma {:induction false} HalfComesBack(used: nat, sections: seq<Bytes>)
    requires used < FIRST_CAPACITY && Linked(used, sections)
    ensures ComeBack(false, used, sections) == EveryOther(sections)
    decreases |sections|
  {
    if |sections| >= 2 {
      var left := LeftBy(used, |sections[0]|);
      assert sections[1..][1..] == sections[2..];
      assert ComeBack(true, left, sections[1..]) == ComeBack(false, LeftBy(left, |sections[1]|), sections[2..]);
      HalfComesBack(LeftBy(left, |sections[1]|), sections[2..]);
    } else if |sections| == 1 {
      assert sections[1..] == [];
      assert sections == [sections[0]];
    }
  }

  /** A chain comes back whole exactly if each section ends with its last packet; if every one runs on
    * into the first packet of the next, exactly every other section comes back. */
  lemma ChainSurvivesIff(r: Reasm, sections: seq<Bytes>, pid: Pid, cc: nat)
    requires forall s :: s in sections ==> WellSized(s)
    ensures var back := Somes(RunOne(r, PackChain([], sections, pid, cc)).1);
            && (back == sections <==> Aligned(0, sections))
            && (Linked(0, sections) ==> back == EveryOther(sections))
  {
    ChainReturns(r, sections, pid, cc);
    AllComeBack(0, sections);
    if Linked(0, sections) {
      HalfComesBack(0, sections);
    }
  }
}
