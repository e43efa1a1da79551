/** A little non-linear arithmetic. */
module Arith {

  function Abs(a: int): nat {
    if a < 0 then -a else a
  }

  /** One digit of a mixed-radix number. */
  lemma Digit(q: int, n: nat, r: int)
    requires 0 <= r < n
    ensures (q * n + r) / n == q
    ensures (q * n + r) % n == r
  {
    var v := q * n + r;
    var d: int := v / n - q;
    assert v == n * (v / n) + v % n;
    assert n * d == r - v % n by {
      assert n * d == n * (v / n) - n * q;
    }
    if d >= 1 {
      MulMono(1, d, n);
    } else if d <= -1 {
      MulMono(d, -1, n);
    }
  }

  lemma Regrouped(p: int, s: int, r: int, m: int, n: int)
    ensures n * (m * p + s) + r == p * (m * n) + (s * n + r)
  {
  }

  /** Dividing by a product is dividing twice, and the remainder has two digits. */
  lemma TwoDigits(a: nat, m: nat, n: nat)
    requires m > 0 && n > 0
    ensures m * n > 0
    ensures a / (m * n) == a / n / m
    ensures a % (m * n) == a / n % m * n + a % n
  {
    var q, r := a / n, a % n;
    var p, s := q / m, q % m;
    assert a == n * q + r && q == m * p + s;
    Bounded(s, m, n, r);
    Regrouped(p, s, r, m, n);
    Digit(p, m * n, s * n + r);
  }

  lemma MulMono(x: int, y: int, n: nat)
    requires x <= y
    ensures x * n <= y * n
  {
    assert (y - x) * n >= 0;
  }

  lemma Bounded(q: int, m: nat, n: nat, r: int)
    requires 0 <= q < m && 0 <= r < n
    ensures 0 <= q * n + r < m * n
  {
    MulMono(0, q, n);
    MulMono(q + 1, m, n);
    assert (q + 1) * n == q * n + n;
  }

  function Pow2(k: nat): nat {
    if k == 0 then 1 else 2 * Pow2(k - 1)
  }

  lemma {:induction false} Pow2Positive(k: nat)
    ensures Pow2(k) > 0
  {
    if k > 0 {
      Pow2Positive(k - 1);
    }
  }

  lemma {:induction false} Pow2Add(m: nat, n: nat)
    ensures Pow2(m + n) == Pow2(m) * Pow2(n)
  {
    if n > 0 {
      Pow2Add(m, n - 1);
    }
  }
}
