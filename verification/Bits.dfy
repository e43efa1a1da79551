/** The bits of a number, by division and remainder. */
module Bits {
  import opened Arith

  function Quotient(x: nat, n: nat): nat
    requires n > 0
  {
    x / n
  }

  /** x without its lowest k bits. */
  function Above(x: nat, k: nat): nat {
    Pow2Positive(k);
    Quotient(x, Pow2(k))
  }

  /** Bit k, counted from the low end. */
  function Bit(x: nat, k: nat): nat {
    Above(x, k) % 2
  }

  lemma BitHalf(x: nat, k: nat)
    requires k > 0
    ensures Bit(x, k) == Bit(x / 2, k - 1)
  {
    Pow2Positive(k - 1);
    TwoDigits(x, Pow2(k - 1), 2);
  }

  lemma BitZero(x: nat)
    ensures Bit(x, 0) == x % 2
  {
  }

  lemma {:induction false} BitOfDiv(x: nat, k: nat, m: nat)
    ensures Bit(Above(x, m), k) == Bit(x, k + m)
  {
    hide Bit;
    Pow2Positive(m);
    if m > 0 {
      Pow2Positive(m - 1);
      TwoDigits(x, Pow2(m - 1), 2);
      BitOfDiv(x / 2, k, m - 1);
      BitHalf(x, k + m);
    }
  }

  lemma HalfOfMod(x: nat, n: nat)
    requires n > 0
    ensures x % (2 * n) % 2 == x % 2 && x % (2 * n) / 2 == x / 2 % n
  {
    var q, r := x / (2 * n), x % (2 * n);
    assert x == 2 * (n * q) + r;
    assert x / 2 == q * n + r / 2;
    Digit(q, n, r / 2);
  }

  lemma {:induction false} BitOfMod(x: nat, k: nat, m: nat)
    requires k < m
    ensures Pow2(m) > 0 && Bit(x % Pow2(m), k) == Bit(x, k)
  {
    hide Bit;
    Pow2Positive(m);
    Pow2Positive(m - 1);
    HalfOfMod(x, Pow2(m - 1));
    if k == 0 {
      BitZero(x);
      BitZero(x % Pow2(m));
    } else {
      BitHalf(x, k);
      BitHalf(x % Pow2(m), k);
      BitOfMod(x / 2, k - 1, m - 1);
    }
  }

  /** Two numbers put side by side keep their bits. */
  lemma BitOfJoin(high: nat, low: nat, n: nat, k: nat)
    requires low < Pow2(n)
    ensures Bit(high * Pow2(n) + low, k) == if k < n then Bit(low, k) else Bit(high, k - n)
  {
    hide Bit;
    Pow2Positive(n);
    Digit(high, Pow2(n), low);
    if k < n {
      BitOfMod(high * Pow2(n) + low, k, n);
    } else {
      BitOfDiv(high * Pow2(n) + low, k - n, n);
    }
  }

  lemma BitAbove(x: nat, n: nat, k: nat)
    requires x < Pow2(n) && n <= k
    ensures Bit(x, k) == 0
  {
    Pow2Positive(k);
    Pow2Grows(n, k);
    NothingAbove(x, Pow2(k));
  }

  lemma NothingAbove(x: nat, n: nat)
    requires x < n
    ensures x / n == 0
  {
  }

  lemma {:induction false} Pow2Grows(m: nat, n: nat)
    requires m <= n
    ensures Pow2(m) <= Pow2(n)
  {
    if m < n {
      Pow2Grows(m, n - 1);
    }
  }

  /** The bits determine the number. */
  lemma {:induction false} BitsDetermine(x: nat, y: nat, n: nat)
    requires x < Pow2(n) && y < Pow2(n) && forall k: nat :: k < n ==> Bit(x, k) == Bit(y, k)
    ensures x == y
  {
    hide Bit;
    if n > 0 {
      BitZero(x);
      BitZero(y);
      forall k: nat | k < n - 1
        ensures Bit(x / 2, k) == Bit(y / 2, k)
      {
        BitHalf(x, k + 1);
        BitHalf(y, k + 1);
      }
      BitsDetermine(x / 2, y / 2, n - 1);
    }
  }
}
