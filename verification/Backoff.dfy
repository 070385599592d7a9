/** Waiting before a retry: a random share of a ceiling that doubles with each attempt. */
module Backoff {
  import opened Common

  /** A draw of `Math.random`. */
  type Jitter = r: real | 0.0 <= r < 1.0 witness 0.0

  datatype Policy = Policy(baseMs: nat, maxMs: nat, maxAttempts: int)

  function Pow2(n: nat): (p: nat)
    ensures p >= 1
  {
    if n == 0 then 1 else 2 * Pow2(n - 1)
  }

  lemma ScaledBounds(r: real, c: real)
    requires 0.0 <= r < 1.0 && 0.0 <= c
    ensures 0.0 <= r * c <= c
    ensures 0.0 < c ==> r * c < c
  {
    var gap := 1.0 - r;
    assert c - r * c == gap * c;
    if 0.0 < c {
      assert 0.0 < gap * c;
    }
  }

  lemma FloorBounds(x: real, c: nat)
    requires 0.0 <= x <= c as real
    ensures 0 <= x.Floor <= c
    ensures x < c as real ==> x.Floor < c
  {
    var f := x.Floor;
    assert f as real <= x < (f + 1) as real;
    assert 0.0 < (f + 1) as real;
  }

  /** A product by its name alone: what is below is said of `x`, not of the multiplication. */
  lemma ProductFloor(r: real, c: nat, x: real)
    requires 0.0 <= r < 1.0 && x == r * c as real
    ensures 0 <= x.Floor <= c && (c > 0 ==> x.Floor < c)
  {
    ScaledBounds(r, c as real);
    FloorBounds(x, c);
  }

  /** `Math.floor(random() * ceiling)`. */
  function Jittered(random: Jitter, ceiling: nat): (d: nat)
    ensures d <= ceiling
    ensures ceiling > 0 ==> d < ceiling
  {
    var x := random * ceiling as real;
    ProductFloor(random, ceiling, x);
    x.Floor
  }

  /** The longest wait before the next attempt. */
  function Ceiling(attempts: nat, policy: Policy): nat
    requires attempts >= 1
  {
    Min(policy.maxMs, policy.baseMs * Pow2(Min(attempts - 1, 30)))
  }

  /** Full-jitter backoff: nothing once the attempts are spent, else a delay up to the ceiling. */
  function NextAttemptDelay(attempts: nat, policy: Policy, random: Jitter): (d: Option<nat>)
    requires attempts >= 1
    ensures d.None? <==> attempts >= policy.maxAttempts
    ensures d.Some? ==> d.value <= policy.maxMs && d.value <= policy.baseMs * Pow2(Min(attempts - 1, 30))
  {
    if attempts >= policy.maxAttempts then None else Some(Jittered(random, Ceiling(attempts, policy)))
  }

  /** The ceiling starts at the base, doubles with each attempt, and stops at the cap or after thirty doublings. */
  lemma CeilingDoubles(attempts: nat, policy: Policy)
    requires attempts >= 1
    ensures Ceiling(1, policy) == Min(policy.maxMs, policy.baseMs)
    ensures attempts <= 30 ==> Ceiling(attempts + 1, policy) == Min(policy.maxMs, 2 * Ceiling(attempts, policy))
    ensures attempts > 30 ==> Ceiling(attempts + 1, policy) == Ceiling(attempts, policy)
  {
    if attempts <= 30 {
      var p := Pow2(attempts - 1);
      assert Pow2(attempts) == 2 * p;
      Doubled(policy.baseMs, p);
    }
  }

  lemma Doubled(b: nat, p: nat)
    ensures b * (2 * p) == 2 * (b * p)
  {
  }

  /** The delay is the share of the ceiling that was drawn, in whole milliseconds. */
  lemma DelayIsTheShareDrawn(attempts: nat, policy: Policy, random: Jitter)
    requires 1 <= attempts < policy.maxAttempts
    ensures var d, share := NextAttemptDelay(attempts, policy, random).value, random * Ceiling(attempts, policy) as real;
            d as real <= share < (d + 1) as real
  {
    var share := random * Ceiling(attempts, policy) as real;
    assert Jittered(random, Ceiling(attempts, policy)) == share.Floor;
  }

  /** How many attempts are made before giving up: one even under a policy that allows none. */
  function Attempts(policy: Policy): int {
    Max(1, policy.maxAttempts)
  }
}
