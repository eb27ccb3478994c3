/** How long a retry waits: doubling by shifting a 32-bit one, capped. */
module Backoff {
  import opened Wrappers
  import opened Arithmetic
  import opened Words

  /** The longest duration there is, in nanoseconds. */
  const DURATION_MAX: nat := U64_MAX * 1_000_000_000 + 999_999_999

  /** Nanoseconds that fit in a duration. */
  type Duration = n: nat | n <= DURATION_MAX

  datatype RetryPolicy = RetryPolicy(attempts: u32, backoff: Duration, maxBackoff: Duration)

  function Pow2(k: nat): nat {
    if k == 0 then 1 else 2 * Pow2(k - 1)
  }

  function CheckedMul(duration: Duration, factor: u32): Option<Duration> {
    var product := duration * factor as nat;
    if product <= DURATION_MAX then Some(product) else None
  }

  /** One shifted left, unless the shift is as wide as the type. */
  function CheckedShl(shift: u32): Option<u32> {
    if shift >= 32 then None else (Pow2Fits(shift as nat); Some(Pow2(shift as nat) as u32))
  }

  function DelayBefore(policy: RetryPolicy, attempt: u32): Option<Duration> {
    if attempt == 0 || attempt > policy.attempts then None
    else
      var shifted := CheckedShl(attempt - 1);
      var product := CheckedMul(policy.backoff, if shifted.Some? then shifted.value else U32_MAX);
      var doubled := if product.Some? then product.value else policy.maxBackoff;
      Some(Min(doubled, policy.maxBackoff))
  }

  lemma {:induction false} Pow2Grows(a: nat, b: nat)
    requires a <= b
    ensures 1 <= Pow2(a) <= Pow2(b)
    decreases b
  {
    if a < b {
      Pow2Grows(a, b - 1);
    } else if a > 0 {
      Pow2Grows(a - 1, b - 1);
    }
  }

  lemma Pow2Of32()
    ensures Pow2(31) == 0x8000_0000 && Pow2(32) == 0x1_0000_0000
  {
    assert Pow2(8) == 256;
    assert Pow2(16) == 65_536;
    assert Pow2(24) == 16_777_216;
  }

  lemma Pow2Fits(shift: nat)
    requires shift < 32
    ensures 1 <= Pow2(shift) <= 0x8000_0000
  {
    Pow2Of32();
    Pow2Grows(shift, 31);
  }

  /** The delay the documentation promises: doubling, capped, with no limit to the doubling. */
  function Promised(policy: RetryPolicy, attempt: nat): nat
    requires attempt >= 1
  {
    Min(policy.maxBackoff, policy.backoff * Pow2(attempt - 1))
  }

  /** What the shift stands for: the power of two, or the largest factor there is. */
  function Factor(attempt: nat): nat
    requires attempt >= 1
  {
    if attempt <= 32 then Pow2(attempt - 1) else 0xFFFF_FFFF
  }

  lemma FactorGrows(a: nat, b: nat)
    requires 1 <= a <= b
    ensures 1 <= Factor(a) <= Factor(b) <= 0xFFFF_FFFF
  {
    if a <= 32 {
      Pow2Fits(a - 1);
    }
    if b <= 32 {
      Pow2Fits(b - 1);
      Pow2Grows(a - 1, b - 1);
    }
  }

  lemma MulMonotone(n: nat, a: nat, b: nat)
    requires a <= b
    ensures n * a <= n * b
  {
  }

  /** A retry is refused exactly before the first attempt and past the last. */
  lemma DelayIsCapped(policy: RetryPolicy, attempt: u32)
    ensures DelayBefore(policy, attempt).None? <==> attempt == 0 || attempt > policy.attempts
    ensures DelayBefore(policy, attempt).Some? ==>
              DelayBefore(policy, attempt).value == Min(policy.maxBackoff, policy.backoff * Factor(attempt as nat))
  {
    if 1 <= attempt <= policy.attempts {
      var shifted := CheckedShl(attempt - 1);
      assert (if shifted.Some? then shifted.value else U32_MAX) as nat == Factor(attempt as nat);
    }
  }

  /** Later retries never wait less. */
  lemma DelayNeverShrinks(policy: RetryPolicy, a: u32, b: u32)
    requires 1 <= a <= b <= policy.attempts
    ensures DelayBefore(policy, a).Some? && DelayBefore(policy, b).Some?
    ensures DelayBefore(policy, a).value <= DelayBefore(policy, b).value <= policy.maxBackoff
  {
    DelayIsCapped(policy, a);
    DelayIsCapped(policy, b);
    FactorGrows(a as nat, b as nat);
    MulMonotone(policy.backoff, Factor(a as nat), Factor(b as nat));
  }

  /** The first thirty-two retries wait what is promised, however large the backoff. Past them the
      factor stops growing, and the delay is what is promised exactly when the cap is within reach of
      the largest factor, or there is no backoff at all. */
  lemma DelayIsAsPromisedExactlyWhen(policy: RetryPolicy, attempt: u32)
    requires 1 <= attempt <= policy.attempts
    ensures DelayBefore(policy, attempt) == Some(Promised(policy, attempt as nat))
       <==> attempt <= 32 || policy.maxBackoff <= policy.backoff * 0xFFFF_FFFF || policy.backoff == 0
  {
    DelayIsCapped(policy, attempt);
    if attempt > 32 {
      Pow2Of32();
      Pow2Grows(32, attempt as nat - 1);
      MulMonotone(policy.backoff, 0x1_0000_0000, Pow2(attempt as nat - 1));
    }
  }

  /** The thirty-third retry of a one-nanosecond backoff waits a nanosecond less than is promised. */
  lemma TheThirtyThirdRetryFallsShort()
    ensures var policy := RetryPolicy(33, 1, 0x100_0000_0000);
            DelayBefore(policy, 33) == Some(0xFFFF_FFFF) && Promised(policy, 33) == 0x1_0000_0000
  {
    DelayIsCapped(RetryPolicy(33, 1, 0x100_0000_0000), 33);
    Pow2Of32();
  }
}
