/** The floating-point step of scripts/generate-procarea-mobs.py, int(gold * 1.4), in binary64 of IEEE 754. */
module Floats {
  import opened Arith

  /** 2 to the power of 53: a binary64 holds 53 significant bits. */
  const SIGNIFICAND: nat := 0x20_0000_0000_0000

  /** 2 to the power of 52: the nearest binary64 to 1.4 is TENTHS_14 of these. */
  const UNIT: nat := 0x10_0000_0000_0000
  const TENTHS_14: nat := 6305039478318694

  /** How many low bits of n do not fit. */
  function Excess(n: nat): nat {
    if n < SIGNIFICAND then 0 else 1 + Excess(n / 2)
  }

  /** n / q, to the nearest integer, and to the even one of two. */
  function Nearest(n: nat, q: nat): nat
    requires q > 0
  {
    var low, rest := n / q, n % q;
    if 2 * rest < q || (2 * rest == q && low % 2 == 0) then low else low + 1
  }

  /** The binary64 nearest to n. */
  function Rounded(n: nat): nat {
    PowPositive(Excess(n));
    Nearest(n, Pow2(Excess(n))) * Pow2(Excess(n))
  }

  /** int(gold * 1.4): the product of the two floats, rounded, and cut. */
  function Times14(gold: nat): nat {
    Rounded(Rounded(gold) * TENTHS_14) / UNIT
  }

  lemma PowersOfTwo()
    ensures Pow2(1) == 2 && Pow2(5) == 32
  {
    assert Pow2(0) == 1;
    assert Pow2(1) == 2 * Pow2(0);
    assert Pow2(2) == 2 * Pow2(1);
    assert Pow2(3) == 2 * Pow2(2);
    assert Pow2(4) == 2 * Pow2(3);
    assert Pow2(5) == 2 * Pow2(4);
  }

  lemma {:induction false} ExcessSize(n: nat)
    ensures n < SIGNIFICAND || UNIT * Pow2(Excess(n)) <= n
  {
    if n < SIGNIFICAND {
    } else {
      ExcessSize(n / 2);
      if n / 2 < SIGNIFICAND {
        PowersOfTwo();
        assert Excess(n) == 1;
      } else {
        assert UNIT * Pow2(Excess(n)) == 2 * (UNIT * Pow2(Excess(n / 2)));
      }
    }
  }

  /** The error is at most half a step, and of two multiples equally near the even one is taken. */
  lemma NearestError(n: nat, q: nat)
    requires q > 0
    ensures var near := 2 * (Nearest(n, q) * q);
      2 * n - q <= near <= 2 * n + q && (near == 2 * n - q || near == 2 * n + q ==> Nearest(n, q) % 2 == 0)
  {
    var low := n / q;
    assert n == low * q + n % q;
    assert (low + 1) * q == low * q + q;
  }

  /** Rounding errs by at most one part in 2 to the power of 53, and not at all on small numbers. */
  lemma RoundedError(n: nat)
    ensures n < SIGNIFICAND ==> Rounded(n) == n
    ensures UNIT * (2 * n - 2 * Rounded(n)) <= n && UNIT * (2 * Rounded(n) - 2 * n) <= n
  {
    var q := Pow2(Excess(n));
    PowPositive(Excess(n));
    ExcessSize(n);
    if n < SIGNIFICAND {
      assert q == 1 && n / 1 == n && n % 1 == 0;
    } else {
      NearestError(n, q);
    }
  }

  /** The error of the product and the cut, as linear arithmetic. */
  lemma CutBounds(gold: nat, product: nat, rounded: nat, cut: nat)
    requires gold < 0x1_0000_0000_0000 && product == gold * TENTHS_14
    requires UNIT * (2 * product - 2 * rounded) <= product && UNIT * (2 * rounded - 2 * product) <= product
    requires UNIT * cut <= rounded < UNIT * cut + UNIT
    ensures 14 * gold - 10 <= 10 * cut <= 14 * gold
  {
  }

  /** For any gold a mob could have, that is 1.4 times as much, rounded down, or one less. */
  lemma Times14Bounds(gold: nat)
    requires gold < 0x1_0000_0000_0000
    ensures 14 * gold - 10 <= 10 * Times14(gold) <= 14 * gold
  {
    RoundedError(gold);
    RoundedError(gold * TENTHS_14);
    CutBounds(gold, gold * TENTHS_14, Rounded(gold * TENTHS_14), Times14(gold));
  }

  /** The lower value does occur: 45 times 1.4 is 62, not 63. */
  lemma {:induction false} FortyFive()
    ensures Times14(45) == 62
  {
    var n := 45 * TENTHS_14;
    assert Excess(n / 32) == 0;
    assert Excess(n / 16) == 1 + Excess(n / 32);
    assert Excess(n / 8) == 1 + Excess(n / 16);
    assert Excess(n / 4) == 1 + Excess(n / 8);
    assert Excess(n / 2) == 1 + Excess(n / 4);
    assert Excess(n) == 5;
    PowersOfTwo();
  }
}
