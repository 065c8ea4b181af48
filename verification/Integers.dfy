/** The number theory that the exact rate bounds rest on. */
module Integers {

  /** Euclid's algorithm: a common divisor, the cofactors, and how it is combined from the two numbers. */
  lemma {:induction false} Euclid(p: int, q: int) returns (g: int, a: int, b: int, u: int, v: int)
    requires p > 0 && q >= 0
    ensures g > 0 && p == g * a && q == g * b && u * p + v * q == g
    decreases q
  {
    if q == 0 {
      g, a, b, u, v := p, 1, 0, 1, 0;
    } else if p % q == 0 {
      g, a, b, u, v := q, p / q, 1, 0, 1;
    } else {
      var c, r := p / q, p % q;
      var h, x, y, s, t := Euclid(q, r);
      g, a, b, u, v := h, c * x + y, x, t, s - c * t;
      Combine(p, q, c, r, h, x, y, s, t);
    }
  }

  lemma Combine(p: int, q: int, c: int, r: int, h: int, x: int, y: int, s: int, t: int)
    requires p == c * q + r && q == h * x && r == h * y && s * q + t * r == h
    ensures p == h * (c * x + y) && t * p + (s - c * t) * q == h
  {
    assert c * q == c * (h * x) == h * (c * x);
    assert t * p == t * (c * q) + t * r;
    assert (s - c * t) * q == s * q - c * t * q;
    assert t * (c * q) == c * t * q;
  }

  /** Cancelling the common divisor. */
  lemma Cancels(g: int, a: int, b: int, u: int, v: int, p: int, q: int)
    requires g > 0 && p == g * a && q == g * b && u * p + v * q == g && p > 0 && q > 0
    ensures a > 0 && b > 0 && u * a + v * b == 1
  {
    assert u * p == g * (u * a) && v * q == g * (v * b);
    assert g * (u * a + v * b) == g * 1;
    assert a <= 0 ==> g * a <= 0;
    assert b <= 0 ==> g * b <= 0;
  }

  /** Without a common divisor some multiple of p is one short of a multiple of q. */
  lemma OneShort(p: int, q: int, u: int, v: int) returns (j: nat)
    requires p > 0 && q > 0 && u * p + v * q == 1
    ensures (j * p) % q == q - 1
  {
    var k: nat := if u < 0 then -u else u;
    AtLeast(k, q);
    j := k * q - u;
    OneShortOf(p, q, u, v, k);
    Remainder(j * p, q, k * p + v - 1, q - 1);
  }

  lemma AtLeast(k: nat, q: int)
    requires q > 0
    ensures k * q >= k
  {
  }

  lemma OneShortOf(p: int, q: int, u: int, v: int, k: int)
    requires u * p + v * q == 1
    ensures (k * q - u) * p == q * (k * p + v - 1) + (q - 1)
  {
    calc {
      (k * q - u) * p;
      (k * q) * p - u * p;
      (k * q) * p + v * q - 1;
      q * (k * p) + q * v - 1;
      q * (k * p + v - 1) + (q - 1);
    }
  }

  lemma Remainder(x: int, q: int, m: int, r: int)
    requires q > 0 && 0 <= r < q && x == q * m + r
    ensures x % q == r && x / q == m
  {
    var d := x / q - m;
    assert q * d == r - x % q;
    assert d >= 1 ==> q * d >= q;
    assert d <= -1 ==> q * d <= -q;
  }

  /** Rounding multiples of p down to multiples of q: what is rounded off. */
  lemma RoundedOff(x: int, p: int, q: int)
    requires q > 0
    ensures (((x + p) / q) - x / q) * q == p + x % q - (x + p) % q
  {
    assert x == (x / q) * q + x % q;
    assert x + p == ((x + p) / q) * q + (x + p) % q;
  }

  lemma DivisionGrows(x: int, p: int, q: int)
    requires x >= 0 && p >= 0 && q > 0
    ensures 0 <= x / q <= (x + p) / q
  {
    var d := (x + p) / q - x / q;
    RoundedOff(x, p, q);
    assert d <= -1 ==> d * q <= -q;
  }

  /** What starts below b * p cannot come to b + j, counted in p, when j * p is one short of a multiple of q. */
  lemma OneShortOfAll(a: int, b: int, j: nat, p: int, q: int, k: int)
    requires p > 0 && q > 0 && k < b * p && (j * p) % q == q - 1
    requires a * p < k + (j * p / q + 1) * q
    ensures a < b + j
  {
    assert (j * p / q + 1) * q == j * p - (q - 1) + q;
    assert a * p < b * p + j * p == (b + j) * p;
    assert a >= b + j ==> a * p >= (b + j) * p;
  }

  lemma OneShortExactly(b: int, j: nat, p: int, q: int, d: int)
    requires q > 0 && (j * p) % q == q - 1 && d == j * p / q
    ensures (b + j) * p == b * p + d * q + q - 1
  {
    assert (b + j) * p == b * p + j * p;
    assert j * p == d * q + (j * p) % q;
  }

  lemma FilledUp(k: int, waited: int, idle: int, p: int, q: int, b: int)
    requires q > 0 && k >= 1 - q && waited >= idle + 1 && b * p <= idle * q + 1
    ensures b * p <= k + waited * q
  {
    assert waited * q >= (idle + 1) * q == idle * q + q;
  }
}
