/**
 * Powers of two and the division/remainder facts that the bit-field
 * extractors rely on. Everything here is about non-negative integers,
 * where Dafny's Euclidean `/` and `%` agree with C's unsigned operators.
 */
module Arith {

  /** 2^n. */
  function Pow2(n: nat): (p: nat)
    ensures p >= 1
  {
    if n == 0 then 1 else 2 * Pow2(n - 1)
  }

  lemma {:induction false} Pow2Add(a: nat, b: nat)
    ensures Pow2(a + b) == Pow2(a) * Pow2(b)
  {
    if a > 0 {
      Pow2Add(a - 1, b);
      assert Pow2(a + b) == 2 * Pow2(a - 1 + b);
    }
  }

  lemma {:induction false} Pow2Monotone(a: nat, b: nat)
    requires a <= b
    ensures Pow2(a) <= Pow2(b)
  {
    if a < b {
      Pow2Monotone(a, b - 1);
    }
  }

  lemma MulAtLeast(a: int, d: int)
    requires a >= 1 && d > 0
    ensures a * d >= d
  {
  }

  /** Euclidean division is unique: any quotient/remainder pair is the one. */
  lemma DivModUnique(x: int, d: int, q: int, r: int)
    requires d > 0 && 0 <= r < d && x == q * d + r
    ensures x / d == q && x % d == r
  {
    var q', r' := x / d, x % d;
    assert (q - q') * d == r' - r;
    if q > q' {
      MulAtLeast(q - q', d);
    } else if q < q' {
      MulAtLeast(q' - q, d);
    }
  }

  /** (x * a) % (a * b) keeps the low part of x, scaled by a. */
  lemma MulModScaled(x: nat, a: nat, b: nat)
    requires a > 0 && b > 0
    ensures (x * a) % (a * b) == (x % b) * a
  {
    var q, r := x / b, x % b;
    assert x == q * b + r;
    assert x * a == q * (a * b) + r * a;
    assert r * a < a * b by {
      MulAtLeast(b - r, a);
      assert (b - r) * a == b * a - r * a;
    }
    DivModUnique(x * a, a * b, q, r * a);
  }

  /** Dividing by a * b is dividing by a and then by b. */
  lemma DivDiv(x: nat, a: nat, b: nat)
    requires a > 0 && b > 0
    ensures x / (a * b) == (x / a) / b
  {
    var q1, r1 := x / a, x % a;
    var q2, r2 := q1 / b, q1 % b;
    assert x == q1 * a + r1;
    assert q1 == q2 * b + r2;
    assert x == q2 * (a * b) + (r2 * a + r1);
    assert r2 * a + r1 < a * b by {
      MulAtLeast(b - r2, a);
      assert (b - r2) * a == b * a - r2 * a;
    }
    DivModUnique(x, a * b, q2, r2 * a + r1);
  }

  /** Scaling up by a and dividing by a * c is dividing by c. */
  lemma MulDivCancel(y: nat, a: nat, c: nat)
    requires a > 0 && c > 0
    ensures (y * a) / (a * c) == y / c
  {
    DivDiv(y * a, a, c);
    DivModUnique(y * a, a, y, 0);
  }

  /** Taking the remainder by a * b and dividing by a is dividing by a and taking the remainder by b. */
  lemma ModDiv(x: nat, a: nat, b: nat)
    requires a > 0 && b > 0
    ensures (x % (a * b)) / a == (x / a) % b
  {
    var q1, r1 := x / a, x % a;
    var q2, r2 := q1 / b, q1 % b;
    assert x == q1 * a + r1;
    assert q1 == q2 * b + r2;
    assert x == q2 * (a * b) + (r2 * a + r1);
    assert r2 * a + r1 < a * b by {
      MulAtLeast(b - r2, a);
      assert (b - r2) * a == b * a - r2 * a;
    }
    DivModUnique(x, a * b, q2, r2 * a + r1);
    DivModUnique(r2 * a + r1, a, r2, r1);
  }

  lemma MulLeMono(a: int, b: int, c: int)
    requires a <= b && c >= 0
    ensures a * c <= b * c
  {
  }

  lemma MulDistrib(a: int, b: int, c: int)
    ensures (a + b) * c == a * c + b * c
  {
  }

  lemma MulAssoc(a: int, b: int, c: int)
    ensures (a * b) * c == a * (b * c)
  {
  }

  /** A number splits into what lies above P * Q, the digit in [0, Q) at P, and the part below P. */
  lemma SplitThree(w: nat, P: nat, Q: nat)
    requires P > 0 && Q > 0
    ensures w == (w / (P * Q)) * (P * Q) + ((w / P) % Q) * P + w % P
  {
    var q, l := w / P, w % P;
    var h, f := q / Q, q % Q;
    assert w == q * P + l;
    assert q == h * Q + f;
    DivDiv(w, P, Q);
    MulDistrib(h * Q, f, P);
    MulAssoc(h, Q, P);
    assert Q * P == P * Q;
  }

  /** Reading the three parts back out of a number assembled from them. */
  lemma JoinThree(h: nat, v: nat, l: nat, P: nat, Q: nat)
    requires P > 0 && Q > 0 && v < Q && l < P
    ensures var x := h * (P * Q) + v * P + l;
      (x / P) % Q == v && x % P == l && x / (P * Q) == h
  {
    var x := h * (P * Q) + v * P + l;
    var q := h * Q + v;
    MulDistrib(h * Q, v, P);
    MulAssoc(h, Q, P);
    assert Q * P == P * Q;
    assert x == q * P + l;
    DivModUnique(x, P, q, l);
    DivModUnique(q, Q, h, v);
    DivDiv(x, P, Q);
  }

  /** A number assembled from parts that each fit stays below R * (P * Q). */
  lemma JoinThreeBound(h: nat, v: nat, l: nat, P: nat, Q: nat, R: nat)
    requires P > 0 && Q > 0 && v < Q && l < P && h < R
    ensures h * (P * Q) + v * P + l < R * (P * Q)
  {
    MulLeMono(v, Q - 1, P);
    MulDistrib(Q, -1, P);
    MulLeMono(h, R - 1, P * Q);
    MulDistrib(R, -1, P * Q);
  }

  /** x / d stays below b when x stays below b * d. */
  lemma DivBelow(x: nat, d: nat, b: nat)
    requires d > 0 && x < b * d
    ensures x / d < b
  {
    if x / d >= b {
      MulLeMono(b, x / d, d);
    }
  }

  lemma RewriteDigit(w: nat, P: nat, Q: nat, v: nat)
    requires P > 0 && Q > 0
    ensures w - ((w / P) % Q) * P + v * P == (w / (P * Q)) * (P * Q) + v * P + w % P
  {
    SplitThree(w, P, Q);
  }

  /** Replacing the digit in [0, Q) at P keeps everything above and below it. */
  lemma ReplaceDigit(w: nat, P: nat, Q: nat, v: nat)
    requires P > 0 && Q > 0 && v < Q
    ensures var r := w - ((w / P) % Q) * P + v * P;
      r >= 0 && (r / P) % Q == v && r % P == w % P && r / (P * Q) == w / (P * Q)
  {
    var PQ := P * Q;
    var h, l := w / PQ, w % P;
    var r := w - ((w / P) % Q) * P + v * P;
    RewriteDigit(w, P, Q, v);
    assert r == h * PQ + v * P + l;
    assert h * PQ >= 0 && v * P >= 0;
    JoinThree(h, v, l, P, Q);
  }

  /** ... and keeps the number below R * (P * Q) when it was. */
  lemma ReplaceDigitBound(w: nat, P: nat, Q: nat, R: nat, v: nat)
    requires P > 0 && Q > 0 && v < Q && w < R * (P * Q)
    ensures w - ((w / P) % Q) * P + v * P < R * (P * Q)
  {
    var PQ := P * Q;
    var h, l := w / PQ, w % P;
    RewriteDigit(w, P, Q, v);
    assert w - ((w / P) % Q) * P + v * P == h * PQ + v * P + l;
    DivBelow(w, PQ, R);
    assert h < R;
    JoinThreeBound(h, v, l, P, Q, R);
  }

  /** Integer division of naturals is the floor: q * d <= x < (q + 1) * d. */
  lemma DivFloor(x: nat, d: nat)
    requires d > 0
    ensures (x / d) * d <= x < (x / d + 1) * d
  {
    assert x == (x / d) * d + x % d;
    MulDistrib(x / d, 1, d);
  }
}
