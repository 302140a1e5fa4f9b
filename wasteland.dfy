/**
 * Haunted Wasteland, the day 8 puzzle: the definitions its solvers are
 * proved against.  A network maps every node to a left and a right node;
 * a walk follows the instructions, repeated as often as needed.  The
 * ghosts' answer is the least common multiple of the walks' lengths, and
 * both `num::integer::lcm` and Python's `math.lcm` compute it from
 * Euclid's greatest common divisor.
 */
module Wasteland {
  import BoatRace

  /** Euclid's greatest common divisor; `Gcd(a, 0)` is a. */
  function Gcd(a: nat, b: nat): (g: nat)
    ensures a > 0 || b > 0 ==> g > 0
    decreases b
  {
    if b == 0 then a else Gcd(b, a % b)
  }

  /** The least common multiple as `a * (b / gcd(a, b))`, 0 when either is 0. */
  function Lcm(a: nat, b: nat): nat {
    if a == 0 || b == 0 then 0
    else
      var g := Gcd(a, b);
      assert g > 0;
      var q: nat := b / g;
      a * q
  }

  /** The least common multiple of the values, folded from 1 from the left. */
  function LcmOf(xs: seq<nat>): nat {
    if xs == [] then 1 else Lcm(LcmOf(xs[..|xs| - 1]), xs[|xs| - 1])
  }

  /** The sum of two multiples of d is one. */
  lemma MultipleSum(x: nat, y: nat, d: nat)
    requires d > 0 && x % d == 0 && y % d == 0
    ensures (x + y) % d == 0
  {
    var p, q := x / d, y / d;
    assert x == d * p && y == d * q;
    assert x + y == d * (p + q);
    BoatRace.MultipleMod(d, p + q);
  }

  /** The gcd of two values not both 0 is positive and divides both. */
  lemma {:induction false} GcdDivides(a: nat, b: nat)
    requires a > 0 || b > 0
    ensures Gcd(a, b) > 0 && a % Gcd(a, b) == 0 && b % Gcd(a, b) == 0
    decreases b
  {
    if b == 0 {
      assert a == a * 1;
      BoatRace.MultipleMod(a, 1);
    } else {
      var r := a % b;
      GcdDivides(b, r);
      var g := Gcd(b, r);
      assert Gcd(a, b) == g;
      BoatRace.MultipleTimes(b, g, a / b);
      MultipleSum(b * (a / b), r, g);
      assert a == b * (a / b) + r;
    }
  }

  /** Of two positive values the lcm is positive and a multiple of both. */
  lemma LcmMultiple(a: nat, b: nat)
    requires a > 0 && b > 0
    ensures Lcm(a, b) > 0 && Lcm(a, b) % a == 0 && Lcm(a, b) % b == 0
  {
    GcdDivides(a, b);
    var g := Gcd(a, b);
    var p, q := a / g, b / g;
    Factors(a, g);
    Factors(b, g);
    assert Lcm(a, b) == a * q;
    Swapped(g, p, q);
    BoatRace.MultipleMod(a, q);
    BoatRace.MultipleMod(b, p);
  }

  /** A multiple of d is d times its quotient, positive when it is. */
  lemma Factors(a: nat, d: nat)
    requires d > 0 && a % d == 0
    ensures a == d * (a / d) && (a > 0 ==> a / d > 0)
  {
  }

  /** (g p) q and p (g q) are one product, in one order and the other. */
  lemma Swapped(g: nat, p: nat, q: nat)
    ensures (g * p) * q == (g * q) * p && (g * p) * q > 0 <==> g > 0 && p > 0 && q > 0
  {
    assert (g * p) * q == g * (p * q) == g * (q * p) == (g * q) * p;
    if g > 0 && p > 0 && q > 0 {
      assert g * p > 0;
    }
  }

  /** The lcm of a multiple of d with anything is a multiple of d. */
  lemma LcmKeeps(a: nat, b: nat, d: nat)
    requires d > 0 && a % d == 0
    ensures Lcm(a, b) % d == 0
  {
    if a == 0 || b == 0 {
      assert Lcm(a, b) == 0;
    } else {
      BoatRace.MultipleTimes(a, d, b / Gcd(a, b));
    }
  }

  /** The lcm of positive values is positive and a multiple of each of them. */
  lemma {:induction false} LcmOfDivides(xs: seq<nat>)
    requires forall k :: 0 <= k < |xs| ==> xs[k] > 0
    ensures LcmOf(xs) > 0
    ensures forall k :: 0 <= k < |xs| ==> LcmOf(xs) % xs[k] == 0
  {
    if xs != [] {
      var front, x := xs[..|xs| - 1], xs[|xs| - 1];
      LcmOfDivides(front);
      LcmMultiple(LcmOf(front), x);
      forall k | 0 <= k < |front|
        ensures LcmOf(xs) % xs[k] == 0
      {
        assert front[k] == xs[k];
        LcmKeeps(LcmOf(front), x, xs[k]);
      }
    }
  }

  /** One value 0 makes the lcm 0. */
  lemma {:induction false} LcmOfZero(xs: seq<nat>, k: nat)
    requires k < |xs| && xs[k] == 0
    ensures LcmOf(xs) == 0
  {
    if k < |xs| - 1 {
      LcmOfZero(xs[..|xs| - 1], k);
    }
  }

  /** The place of move k + 1 in instructions of length n, which repeat: k modulo n. */
  function Phase(n: nat, k: nat): (p: nat)
    requires n > 0
    ensures p < n
    decreases k
  {
    if k < n then k else Phase(n, k - n)
  }

  /** One move on, the place advances by one and wraps to 0 after the last direction. */
  lemma {:induction false} PhaseNext(n: nat, k: nat)
    requires n > 0
    ensures Phase(n, k + 1) == if Phase(n, k) + 1 == n then 0 else Phase(n, k) + 1
    decreases k
  {
    if k + 1 == n {
      assert Phase(n, k + 1) == Phase(n, 0);
    } else if k >= n {
      PhaseNext(n, k - n);
    }
  }
}
