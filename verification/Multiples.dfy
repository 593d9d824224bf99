/** Greatest common divisor and least common multiple (gcd, lcm; nfold.go). */
module Multiples {

  function Times(a: int, b: int): int {
    a * b
  }

  /** Euclid's algorithm. */
  function Gcd(x: nat, y: nat): (g: nat)
    ensures x > 0 || y > 0 ==> g > 0
    decreases y
  {
    if y == 0 then x else Gcd(y, x % y)
  }

  method ComputeGcd(x0: nat, y0: nat) returns (g: nat)
    ensures g == Gcd(x0, y0)
  {
    var x, y := x0, y0;
    while y != 0
      invariant Gcd(x, y) == Gcd(x0, y0)
      decreases y
    {
      x, y := y, x % y;
    }
    g := x;
  }

  /** x as a multiple of d. */
  ghost predicate IsTimes(x: int, d: int, k: int) {
    x == Times(d, k)
  }

  lemma {:induction false} SumOfTimes(d: int, a: int, b: int, q: int)
    ensures Times(d, a) + Times(Times(d, b), q) == Times(d, a + Times(b, q))
  {
    assert d * a + (d * b) * q == d * (a + b * q);
  }

  lemma {:induction false} DividesBack(g: nat, x: nat, y: nat, c: nat, r: nat) returns (a: nat)
    requires y > 0 && IsTimes(y, g, c) && IsTimes(x % y, g, r)
    ensures IsTimes(x, g, a)
  {
    var q := x / y;
    SumOfTimes(g, r, c, q);
    assert x == Times(y, q) + x % y;
    NatTimes(c, q);
    a := r + Times(c, q);
  }

  lemma {:induction false} NatTimes(a: nat, b: nat)
    ensures Times(a, b) >= 0
  {
  }

  /** The gcd divides both. */
  lemma {:induction false} GcdDivides(x: nat, y: nat) returns (a: nat, b: nat)
    requires x > 0 || y > 0
    ensures Gcd(x, y) > 0 && IsTimes(x, Gcd(x, y), a) && IsTimes(y, Gcd(x, y), b)
    decreases y
  {
    if y == 0 {
      a, b := 1, 0;
    } else {
      var c, r := GcdDivides(y, x % y);
      a := DividesBack(Gcd(x, y), x, y, c, r);
      b := c;
    }
  }

  lemma {:induction false} BezoutBack(x: int, y: int, c: int, r: int, q: int)
    ensures Times(c, y) + Times(r, x - Times(y, q)) == Times(r, x) + Times(c - Times(r, q), y)
  {
    assert r * (x - y * q) == r * x - r * (y * q);
    assert r * (y * q) == (r * q) * y;
    assert (c - r * q) * y == c * y - (r * q) * y;
  }

  /** The gcd is a combination of both. */
  lemma {:induction false} Bezout(x: nat, y: nat) returns (u: int, v: int)
    ensures Gcd(x, y) == Times(u, x) + Times(v, y)
    decreases y
  {
    if y == 0 {
      u, v := 1, 0;
    } else {
      var c, r := Bezout(y, x % y);
      u, v := r, c - Times(r, x / y);
      assert x % y == x - Times(y, x / y);
      BezoutBack(x, y, c, r, x / y);
    }
  }

  /** lcm. */
  function Lcm(x: nat, y: nat): nat
    requires x > 0 && y > 0
  {
    x * y / Gcd(x, y)
  }

  method ComputeLcm(x: nat, y: nat) returns (l: nat)
    requires x > 0 && y > 0
    ensures l == Lcm(x, y)
  {
    var g := ComputeGcd(x, y);
    l := x * y / g;
  }

  lemma {:induction false} TimesGrows(g: nat, k: int)
    ensures k >= 1 ==> Times(g, k) >= g
    ensures k <= -1 ==> Times(g, k) <= 0 - g
  {
    if k >= 1 {
      NatTimes(g, k - 1);
      assert g * k == g * (k - 1) + g;
    } else if k <= -1 {
      NatTimes(g, 0 - k - 1);
      assert g * k == 0 - g * (0 - k - 1) - g;
    }
  }

  lemma {:induction false} ExactQuotient(g: nat, q: nat)
    requires g > 0
    ensures Times(g, q) / g == q
  {
    var x := Times(g, q);
    var d := x / g;
    assert x == Times(g, d) + x % g;
    assert Times(g, q) - Times(g, d) == Times(g, q - d) by { assert g * q - g * d == g * (q - d); }
    TimesGrows(g, q - d);
  }

  /** lcm is a common multiple. */
  lemma {:induction false} LcmIsMultiple(x: nat, y: nat) returns (a: nat, b: nat)
    requires x > 0 && y > 0
    ensures Lcm(x, y) == Times(x, b) == Times(y, a) && a > 0 && b > 0
  {
    var g := Gcd(x, y);
    a, b := GcdDivides(x, y);
    assert x * y == Times(g, Times(a, y)) by { assert (g * a) * y == g * (a * y); }
    assert x * y == Times(g, Times(b, x)) by { assert x * (g * b) == g * (b * x); }
    ExactQuotient(g, Times(a, y));
    ExactQuotient(g, Times(b, x));
  }

  /** lcm is the least one. */
  lemma {:induction false} LcmIsLeast(x: nat, y: nat, m: nat, p: nat, q: nat)
    requires x > 0 && y > 0 && m > 0 && m == Times(x, p) == Times(y, q)
    ensures Lcm(x, y) <= m
  {
    hide Gcd;
    var g, l := Gcd(x, y), Lcm(x, y);
    var a, b := GcdDivides(x, y);
    var u, v := Bezout(x, y);
    assert x * y == Times(g, Times(a, y)) by { assert (g * a) * y == g * (a * y); }
    ExactQuotient(g, Times(a, y));
    var t := Times(u, q) + Times(v, p);
    CommonMultiple(x, y, m, p, q, u, v, g);
    assert Times(m, g) == Times(Times(l, g), t);
    Cancel(m, l, t, g);
  }

  lemma {:induction false} CommonMultiple(x: int, y: int, m: int, p: int, q: int, u: int, v: int, g: int)
    requires m == Times(x, p) == Times(y, q) && g == Times(u, x) + Times(v, y)
    ensures Times(m, g) == Times(Times(x, y), Times(u, q) + Times(v, p))
  {
    calc {
      m * (u * x + v * y);
      m * (u * x) + m * (v * y);
      { assert m * (u * x) == (y * q) * (u * x); assert m * (v * y) == (x * p) * (v * y); }
      (y * q) * (u * x) + (x * p) * (v * y);
      { assert (y * q) * (u * x) == (x * y) * (u * q); assert (x * p) * (v * y) == (x * y) * (v * p); }
      (x * y) * (u * q + v * p);
    }
  }

  lemma {:induction false} Positive(l: nat, t: int)
    requires l * t > 0
    ensures l * t >= l
  {
    assert t > 0;
  }

  lemma {:induction false} Cancel(m: nat, l: nat, t: int, g: nat)
    requires g > 0 && m > 0 && Times(m, g) == Times(Times(l, g), t)
    ensures l <= m
  {
    assert (l * g) * t == (l * t) * g;
    assert m == l * t;
    Positive(l, t);
  }
}
