// Retry backoff in saturating 64-bit arithmetic, the saturating attempt counter, and the wait.
module Retry {
  import opened Words
  import opened Workflow

  function Min(a: nat, b: nat): nat {
    if a <= b then a else b
  }

  function Pow2(k: nat): (r: nat)
    ensures r >= 1
  {
    if k == 0 then 1 else 2 * Pow2(k - 1)
  }

  /** Delay before the retry that follows failed attempt number `failedAttempt`. */
  function RetryDelayMs(node: Node, failedAttempt: nat): nat {
    var delay :=
      match node.retryBackoff
      case Fixed => node.retryDelayMs
      case Exponential =>
        var shift := Min(if failedAttempt >= 1 then failedAttempt - 1 else 0, 63);
        Min(node.retryDelayMs * Pow2(shift), MAX_U64);
    match node.retryMaxDelayMs
    case None => delay
    case Some(maximum) => Min(delay, maximum)
  }

  /** What the document describes: the base doubled after each failure, clipped by the word and the cap. */
  ghost function IdealDelayMs(node: Node, failedAttempt: nat): nat
    requires failedAttempt >= 1
  {
    var grown := if node.retryBackoff == Fixed then node.retryDelayMs
                 else Min(node.retryDelayMs * Pow2(failedAttempt - 1), MAX_U64);
    match node.retryMaxDelayMs
    case None => grown
    case Some(maximum) => Min(grown, maximum)
  }

  lemma {:induction false} Pow2Monotone(a: nat, b: nat)
    requires a <= b
    ensures Pow2(a) <= Pow2(b)
    decreases b
  {
    if a < b {
      Pow2Monotone(a, b - 1);
    }
  }

  lemma Pow2Sixtythree()
    ensures Pow2(63) == 0x8000_0000_0000_0000
  {
    assert Pow2(8) == 0x100;
    assert Pow2(16) == 0x1_0000 by { Pow2Add(8, 8); }
    assert Pow2(32) == 0x1_0000_0000 by { Pow2Add(16, 16); }
    assert Pow2(64) == 0x1_0000_0000_0000_0000 by { Pow2Add(32, 32); }
  }

  lemma {:induction false} Pow2Add(a: nat, b: nat)
    ensures Pow2(a + b) == Pow2(a) * Pow2(b)
  {
    if a > 0 {
      Pow2Add(a - 1, b);
      assert Pow2(a + b) == 2 * Pow2(a - 1 + b);
      assert 2 * (Pow2(a - 1) * Pow2(b)) == (2 * Pow2(a - 1)) * Pow2(b);
    }
  }

  lemma ProductMonotone(base: nat, x: nat, y: nat)
    requires x <= y
    ensures base * x <= base * y
  {
  }

  /** Delays never shrink from one failure to the next, fit the word, and respect the cap. */
  lemma DelaysGrowWithinTheCap(node: Node, k: nat, m: nat)
    requires 1 <= k <= m && node.retryDelayMs <= MAX_U64
    ensures RetryDelayMs(node, k) <= RetryDelayMs(node, m) <= MAX_U64
    ensures node.retryMaxDelayMs.Some? ==> RetryDelayMs(node, m) <= node.retryMaxDelayMs.value
  {
    var a, b := Min(k - 1, 63), Min(m - 1, 63);
    Pow2Monotone(a, b);
    ProductMonotone(node.retryDelayMs, Pow2(a), Pow2(b));
  }

  /** The one corner in which clipping the shift at 63 shows: base 1, more than 64 failures, no low cap. */
  ghost predicate ShiftClipShows(node: Node, k: nat) {
    && node.retryBackoff == Exponential && node.retryDelayMs == 1 && k >= 65
    && (node.retryMaxDelayMs.None? || node.retryMaxDelayMs.value > 0x8000_0000_0000_0000)
  }

  /**
   * The delay is base * 2^(k-1) clipped by the 64-bit word and the cap, except exactly in the corner
   * above, where the code waits 2^63 ms.
   */
  lemma DelayIsIdealOutsideTheCorner(node: Node, k: nat)
    requires k >= 1 && node.retryDelayMs <= MAX_U64
    ensures RetryDelayMs(node, k) == IdealDelayMs(node, k) <==> !ShiftClipShows(node, k)
  {
    if node.retryBackoff == Exponential && k >= 65 {
      Pow2Sixtythree();
      Pow2Monotone(64, k - 1);
      var base := node.retryDelayMs;
      assert Pow2(64) == 2 * Pow2(63);
      if base >= 2 {
        ProductMonotone(Pow2(63), 2, base);
        ProductMonotone(base, Pow2(63), Pow2(k - 1));
      }
    }
  }

  // ------------------------------------------------------ the attempt counter

  /** `u32::saturating_add(1)`, starting from zero, after `k` attempts. */
  function Attempt(k: nat): nat {
    Min(k, MAX_U32)
  }

  /** After `k` failed attempts with a retryable outcome the loop goes round again. */
  predicate KeepsRetrying(retry: nat, k: nat) {
    Attempt(k) <= retry
  }

  /** The retry budget binds exactly when it is below the saturation point of the counter. */
  lemma RetryIsBoundedBelowSaturation(retry: nat)
    requires retry <= MAX_U32
    ensures retry < MAX_U32 <==> exists k: nat :: !KeepsRetrying(retry, k)
    ensures retry < MAX_U32 ==> forall k: nat :: !KeepsRetrying(retry, k) <==> k >= retry + 1
  {
    if retry < MAX_U32 {
      assert !KeepsRetrying(retry, retry + 1);
    }
  }
}
