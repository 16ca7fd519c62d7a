/** The two wrapping clocks of a transport stream (src/mux.rs:37-100): DTS, 33 bits at 90 kHz,
  * and PCR, a 33-bit base times 300 plus an extension, at 27 MHz.
  *
  * `(a.wrapping_sub(b)) & DTS_MASK` on `u64` is `(a - b) % DTS_CYCLE`, because the cycle divides
  * 2^64; Dafny's `%` is never negative.
  */
module Clock {

  const DTS_CYCLE: int := 0x2_0000_0000
  const DTS_HALF: int := 0x1_0000_0000
  const PCR_CYCLE: int := 0x2_0000_0000 * 300
  const PCR_HALF: int := 0x1_0000_0000 * 300

  /** Rust's division of signed integers, which truncates toward zero. */
  function TruncDiv(a: int, b: int): int
    requires b > 0
  {
    if a >= 0 then a / b else -((-a) / b)
  }

  predicate DtsAfter(a: nat, b: nat) {
    var diff := (a - b) % DTS_CYCLE;
    diff != 0 && diff < DTS_HALF
  }

  function DtsSignedDelta(a: nat, b: nat): int {
    var delta := (a - b) % DTS_CYCLE;
    if delta >= DTS_HALF then delta - DTS_CYCLE else delta
  }

  /** `dts_forward_delta_ms(..).unwrap_or(0)` is 0 where this is -1. */
  function DtsForwardDeltaMs(newDts: nat, lastDts: nat): int {
    var diff := (newDts - lastDts) % DTS_CYCLE;
    if diff != 0 && diff < DTS_HALF then diff / 90 else -1
  }

  function PcrNormalize(pcr: nat): nat {
    pcr % PCR_CYCLE
  }

  function PcrSub(a: nat, b: nat): nat {
    var a, b := PcrNormalize(a), PcrNormalize(b);
    if a >= b then a - b else PCR_CYCLE - (b - a)
  }

  predicate PcrAfter(a: nat, b: nat) {
    var diff := PcrSub(a, b);
    diff != 0 && diff < PCR_HALF
  }

  function PcrAdd(a: nat, b: nat): nat {
    PcrNormalize(PcrNormalize(a) + PcrNormalize(b))
  }

  // ----- the clocks against unwrapped time -----

  /** Two DTS readings of instants less than half a cycle apart compare as the instants do. */
  lemma DtsAfterUnwrapped(x: nat, y: nat)
    requires -DTS_HALF < x - y < DTS_HALF
    ensures DtsAfter(x % DTS_CYCLE, y % DTS_CYCLE) <==> x > y
  {
    assert (x % DTS_CYCLE - y % DTS_CYCLE) % DTS_CYCLE == (x - y) % DTS_CYCLE;
  }

  /** The signed delta is the one number in [-2^32, 2^32) congruent to the difference. */
  lemma DtsSignedDeltaUnwrapped(x: nat, y: nat)
    requires -DTS_HALF <= x - y < DTS_HALF
    ensures DtsSignedDelta(x % DTS_CYCLE, y % DTS_CYCLE) == x - y
  {
    assert (x % DTS_CYCLE - y % DTS_CYCLE) % DTS_CYCLE == (x - y) % DTS_CYCLE;
  }

  /** PCR subtraction is subtraction modulo the PCR cycle. */
  lemma PcrSubUnwrapped(x: nat, y: nat)
    ensures PcrSub(x, y) == (x - y) % PCR_CYCLE
  {
    assert (x % PCR_CYCLE - y % PCR_CYCLE) % PCR_CYCLE == (x - y) % PCR_CYCLE;
  }

  /** Two PCR readings of instants less than half a cycle apart compare as the instants do. */
  lemma PcrAfterUnwrapped(x: nat, y: nat)
    requires -PCR_HALF < x - y < PCR_HALF
    ensures PcrAfter(x % PCR_CYCLE, y % PCR_CYCLE) <==> x > y
  {
    PcrSubUnwrapped(x, y);
    assert PcrSub(x % PCR_CYCLE, y % PCR_CYCLE) == PcrSub(x, y);
    if x >= y {
      assert (x - y) % PCR_CYCLE == x - y;
    } else {
      PcrModStep(x - y, 1);
      assert (x - y) % PCR_CYCLE == x - y + PCR_CYCLE;
    }
  }

  lemma PcrAddUnwrapped(x: nat, d: nat)
    ensures PcrAdd(x % PCR_CYCLE, d) == (x + d) % PCR_CYCLE
  {
    PcrModStep(x % PCR_CYCLE + d % PCR_CYCLE, x / PCR_CYCLE + d / PCR_CYCLE);
  }

  /** Adding whole cycles does not change a residue. */
  lemma PcrModStep(r: int, k: int)
    ensures (r + k * PCR_CYCLE) % PCR_CYCLE == r % PCR_CYCLE
  {
  }

  lemma DtsModStep(r: int, k: int)
    ensures (r + k * DTS_CYCLE) % DTS_CYCLE == r % DTS_CYCLE
  {
  }
}
