/** The 64-bit linear congruential generator of common/src/playground_util/random.c and its full period. */
module Random {
  import opened Words
  import opened Arith

  const MODULUS: int := 0x1_0000_0000_0000_0000
  const MULTIPLIER: int := 6364136223846793005
  const INCREMENT: int := 1442695040888963407

  type State = u: int | 0 <= u < 0x1_0000_0000_0000_0000

  /** The generator's recurrence on the 64 bits of the state. */
  function Step(u: State): State {
    (u * MULTIPLIER + INCREMENT) % MODULUS
  }

  /** Bits 28 to 59 of the state. */
  function Output(u: State): Word {
    u / 0x1000_0000 % 0x1_0000_0000
  }

  function Bits64(r: int): State {
    r % MODULUS
  }

  /** Two's complement reading of 64 bits, the type the C code keeps the state in. */
  function Signed64(u: State): int {
    if u < 0x8000_0000_0000_0000 then u else u - MODULUS
  }

  /** The variable behind the pointer argument. */
  class Seed {
    var r: int

    constructor (start: int)
      ensures r == start
    {
      r := start;
    }

    /** `*r = *r * a + c; return *r >> 28;` with wrapping int64_t arithmetic. */
    method NextPseudoRandom() returns (v: Int32)
      modifies this
      ensures -0x8000_0000_0000_0000 <= r < 0x8000_0000_0000_0000
      ensures (r - (old(r) * 6364136223846793005 + 1442695040888963407)) % 0x1_0000_0000_0000_0000 == 0
      ensures (v as int - r / 0x1000_0000) % 0x1_0000_0000 == 0
      ensures Bits64(r) == Step(Bits64(old(r)))
      ensures v == Signed32(Output(Bits64(r)))
    {
      WrappedProduct(r);
      SameRemainder(r * MULTIPLIER + INCREMENT);
      r := Signed64((r * MULTIPLIER + INCREMENT) % MODULUS);
      ShiftedOut(r);
      v := Signed32(Wrap(r / 0x1000_0000));
      SameLowBits(r / 0x1000_0000);
    }
  }

  /** Wrapping to 64 bits changes a number by a multiple of 2^64. */
  lemma SameRemainder(x: int)
    ensures (Signed64(x % MODULUS) - x) % MODULUS == 0
  {
    var q := x / MODULUS;
    assert x == MODULUS * q + x % MODULUS;
    if x % MODULUS < 0x8000_0000_0000_0000 {
      ModShift(0, -q);
    } else {
      ModShift(0, -q - 1);
    }
  }

  lemma SameLowBits(x: int)
    ensures (Signed32(Wrap(x)) as int - x) % 0x1_0000_0000 == 0
  {
  }

  lemma WrappedProduct(r: int)
    ensures Step(Bits64(r)) == (r * MULTIPLIER + INCREMENT) % MODULUS
  {
    var q := r / MODULUS;
    assert r == MODULUS * q + Bits64(r);
    ModShift(Bits64(r) * MULTIPLIER + INCREMENT, MULTIPLIER * q);
    assert r * MULTIPLIER + INCREMENT == Bits64(r) * MULTIPLIER + INCREMENT + MODULUS * (MULTIPLIER * q);
  }

  lemma ModShift(x: int, q: int)
    ensures (x + MODULUS * q) % MODULUS == x % MODULUS
  {
  }

  /** The arithmetic shift of the signed state keeps the same 32 bits. */
  lemma ShiftedOut(r: int)
    requires -0x8000_0000_0000_0000 <= r < 0x8000_0000_0000_0000
    ensures Wrap(r / 0x1000_0000) == Output(Bits64(r))
    ensures Signed64(Bits64(r)) == r
  {
    if r < 0 {
      assert Bits64(r) == r + MODULUS;
      assert (r + MODULUS) / 0x1000_0000 == r / 0x1000_0000 + 0x10_0000_0000;
    }
  }

  // ----- divisibility by powers of two -----

  /** 2^k divides x. */
  predicate Pow2Divides(k: nat, x: int) {
    k == 0 || (x % 2 == 0 && Pow2Divides(k - 1, x / 2))
  }

  lemma HalfMultiple(x: int, m: nat)
    requires m > 0
    ensures x % (2 * m) == 0 <==> x % 2 == 0 && x / 2 % m == 0
  {
    if x % 2 == 0 && x / 2 % m == 0 {
      var q := x / 2 / m;
      assert x / 2 == m * q;
      assert x == q * (2 * m) + 0;
      Digit(q, 2 * m, 0);
    }
    if x % (2 * m) == 0 {
      var q := x / (2 * m);
      assert x == 2 * m * q;
      assert x == 2 * (q * m);
      Digit(q, m, 0);
    }
  }

  lemma {:induction false} Pow2DividesMod(k: nat, x: int)
    ensures Pow2(k) > 0
    ensures Pow2Divides(k, x) <==> x % Pow2(k) == 0
  {
    Pow2Positive(k);
    if k > 0 {
      Pow2DividesMod(k - 1, x / 2);
      HalfMultiple(x, Pow2(k - 1));
    }
  }

  lemma ModulusIsPow2()
    ensures Pow2(64) == MODULUS
  {
    assert Pow2(8) == 0x100;
    Pow2Add(8, 8);
    Pow2Add(16, 16);
    Pow2Add(32, 32);
  }

  /** An odd factor changes nothing. */
  lemma {:induction false} OddFactor(k: nat, g: int, w: int)
    requires w % 2 == 1
    ensures Pow2Divides(k, g * w) <==> Pow2Divides(k, g)
  {
    if k > 0 {
      Parity(g, w);
      if g % 2 == 0 {
        var h := g / 2;
        assert g * w == 2 * (h * w);
        OddFactor(k - 1, h, w);
      }
    }
  }

  lemma TimesOdd(g: int, v: int)
    ensures g * (2 * v + 1) == 2 * (g * v) + g
  {
  }

  lemma EvenPlus(z: int, g: int)
    ensures (2 * z + g) % 2 == g % 2
  {
  }

  lemma Parity(g: int, w: int)
    requires w % 2 == 1
    ensures g * w % 2 == g % 2
  {
    var v := w / 2;
    assert w == 2 * v + 1;
    TimesOdd(g, v);
    EvenPlus(g * v, g);
  }

  // ----- the geometric sum 1 + a + ... + a^(n-1) -----

  function Power(a: int, n: nat): int {
    if n == 0 then 1 else a * Power(a, n - 1)
  }

  function Geometric(a: int, n: nat): int {
    if n == 0 then 0 else a * Geometric(a, n - 1) + 1
  }

  lemma Regroup(a: int, p: int, g: int, h: int)
    ensures a * (p * g + h) == (a * p) * g + a * h
  {
  }

  lemma {:induction false} GeometricSplit(a: int, m: nat, n: nat)
    ensures Geometric(a, m + n) == Power(a, n) * Geometric(a, m) + Geometric(a, n)
  {
    if n > 0 {
      GeometricSplit(a, m, n - 1);
      Regroup(a, Power(a, n - 1), Geometric(a, m), Geometric(a, n - 1));
      assert Geometric(a, m + n) == a * Geometric(a, m + (n - 1)) + 1;
      assert Power(a, n) == a * Power(a, n - 1);
      assert Geometric(a, n) == a * Geometric(a, n - 1) + 1;
      hide Geometric, Power;
    }
  }

  lemma OneModFour(x: int, y: int)
    requires x % 4 == 1 && y % 4 == 1
    ensures x * y % 4 == 1
  {
    var q, r := x / 4, y / 4;
    assert x == 4 * q + 1 && y == 4 * r + 1;
    assert x * y == 4 * (q * y + r) + 1;
  }

  lemma {:induction false} PowerOneModFour(a: int, n: nat)
    requires a % 4 == 1
    ensures Power(a, n) % 4 == 1
  {
    if n > 0 {
      PowerOneModFour(a, n - 1);
      OneModFour(a, Power(a, n - 1));
    }
  }

  lemma NextParity(a: int, g: int)
    requires a % 2 == 1
    ensures (a * g + 1) % 2 == (g % 2 + 1) % 2
  {
    Parity(g, a);
    assert a * g == g * a;
    SuccParity(g * a, g);
  }

  lemma SuccParity(x: int, g: int)
    requires x % 2 == g % 2
    ensures (x + 1) % 2 == (g % 2 + 1) % 2
  {
  }

  lemma {:induction false} GeometricParity(a: int, n: nat)
    requires a % 2 == 1
    ensures Geometric(a, n) % 2 == n % 2
  {
    if n > 0 {
      GeometricParity(a, n - 1);
      NextParity(a, Geometric(a, n - 1));
      assert Geometric(a, n) == a * Geometric(a, n - 1) + 1;
      hide Geometric;
    }
  }

  lemma DoubleSum(p: int, g: int) returns (w: int)
    requires p % 4 == 1
    ensures w % 2 == 1 && p * g + g == 2 * (g * w)
  {
    var r := p / 4;
    w := 2 * r + 1;
    assert p == 4 * r + 1;
    assert (4 * r + 1) * g + g == 2 * (g * (2 * r + 1));
  }

  /** Doubling the length doubles the sum, up to an odd factor. */
  lemma GeometricDouble(a: int, m: nat) returns (w: int)
    requires a % 4 == 1
    ensures w % 2 == 1 && Geometric(a, 2 * m) == 2 * (Geometric(a, m) * w)
  {
    hide Geometric, Power;
    GeometricSplit(a, m, m);
    PowerOneModFour(a, m);
    w := DoubleSum(Power(a, m), Geometric(a, m));
  }

  lemma Halve(k: nat, y: int)
    requires k > 0
    ensures Pow2Divides(k, 2 * y) <==> Pow2Divides(k - 1, y)
  {
    assert 2 * y % 2 == 0 && 2 * y / 2 == y;
  }

  lemma OddDividesNot(k: nat, x: int)
    requires k > 0 && x % 2 == 1
    ensures !Pow2Divides(k, x)
  {
  }

  /** For a = 1 mod 4 the geometric sum has exactly as many factors of two as its length. */
  lemma {:induction false} GeometricDivides(a: int, k: nat, n: nat)
    requires a % 4 == 1
    ensures Pow2Divides(k, Geometric(a, n)) <==> Pow2Divides(k, n)
  {
    if k > 0 {
      GeometricParity(a, n);
      if n % 2 == 0 {
        var m := n / 2;
        var w := GeometricDouble(a, m);
        Halve(k, Geometric(a, m) * w);
        Halve(k, m);
        OddFactor(k - 1, Geometric(a, m), w);
        GeometricDivides(a, k - 1, m);
      } else {
        OddDividesNot(k, n);
        OddDividesNot(k, Geometric(a, n));
      }
      hide Geometric, Pow2Divides;
    }
  }

  // ----- the orbit -----

  function Steps(u: State, n: nat): State {
    if n == 0 then u else Step(Steps(u, n - 1))
  }

  lemma {:induction false} StepsAdd(u: State, m: nat, n: nat)
    ensures Steps(u, m + n) == Steps(Steps(u, m), n)
  {
    hide Step;
    if n > 0 {
      StepsAdd(u, m, n - 1);
    }
  }

  /** The state after n steps in closed form. */
  lemma {:induction false} ClosedForm(u: State, n: nat)
    ensures Steps(u, n) == Bits64(u + Geometric(MULTIPLIER, n) * ((MULTIPLIER - 1) * u + INCREMENT))
  {
    if n == 0 {
      assert Geometric(MULTIPLIER, 0) * ((MULTIPLIER - 1) * u + INCREMENT) == 0;
    } else {
      ClosedForm(u, n - 1);
      var g, k := Geometric(MULTIPLIER, n - 1), (MULTIPLIER - 1) * u + INCREMENT;
      WrappedProduct(u + g * k);
      ClosedStep(u, g, k);
    }
  }

  lemma ClosedStep(u: int, g: int, k: int)
    requires k == (MULTIPLIER - 1) * u + INCREMENT
    ensures (u + g * k) * MULTIPLIER + INCREMENT == u + (MULTIPLIER * g + 1) * k
  {
    assert (MULTIPLIER * g + 1) * k == MULTIPLIER * (g * k) + k;
  }

  lemma SameState(u: State, x: int)
    ensures Bits64(u + x) == u <==> x % MODULUS == 0
  {
  }

  lemma OddOffset(e: int, u: int, c: int)
    requires c % 2 == 1
    ensures (2 * e * u + c) % 2 == 1
  {
    assert 2 * e * u == 2 * (e * u);
  }

  lemma SameMultiples(g: int, k: int, n: nat)
    requires k % 2 == 1 && (Pow2Divides(64, g) <==> Pow2Divides(64, n))
    ensures g * k % MODULUS == 0 <==> n % MODULUS == 0
  {
    hide Pow2, Pow2Divides;
    ModulusIsPow2();
    Pow2DividesMod(64, g * k);
    Pow2DividesMod(64, n);
    OddFactor(64, g, k);
  }

  /** The orbit returns to its start exactly at the multiples of 2^64. */
  lemma ReturnIff(u: State, n: nat)
    ensures Steps(u, n) == u <==> n % MODULUS == 0
  {
    hide Step, Steps, Bits64, Geometric, Pow2Divides;
    var g, k := Geometric(MULTIPLIER, n), (MULTIPLIER - 1) * u + INCREMENT;
    ClosedForm(u, n);
    SameState(u, g * k);
    OddOffset((MULTIPLIER - 1) / 2, u, INCREMENT);
    GeometricDivides(MULTIPLIER, 64, n);
    SameMultiples(g, k, n);
  }

  lemma CoincideOrdered(u: State, m: nat, n: nat)
    requires m <= n
    ensures Steps(u, m) == Steps(u, n) <==> (n - m) % MODULUS == 0
  {
    hide Steps;
    StepsAdd(u, m, n - m);
    ReturnIff(Steps(u, m), n - m);
  }

  /** Full period: two positions of the orbit hold the same state only a multiple of 2^64 apart. */
  lemma FullPeriod(u: State, m: nat, n: nat)
    requires m < MODULUS && n < MODULUS
    ensures Steps(u, m) == Steps(u, n) <==> m == n
  {
    hide Steps;
    if m <= n {
      CoincideOrdered(u, m, n);
    } else {
      CoincideOrdered(u, n, m);
    }
  }

  // ----- counting -----

  ghost function Image(f: int -> int, n: nat): set<int> {
    set i | 0 <= i < n :: f(i)
  }

  ghost predicate Injective(f: int -> int, n: nat) {
    forall i, j :: 0 <= i < n && 0 <= j < n && f(i) == f(j) ==> i == j
  }

  lemma {:induction false} ImageSize(f: int -> int, n: nat)
    requires Injective(f, n)
    ensures |Image(f, n)| == n
  {
    if n > 0 {
      ImageSize(f, n - 1);
      assert Image(f, n) == Image(f, n - 1) + {f(n - 1)};
      assert f(n - 1) !in Image(f, n - 1);
    }
  }

  /** Pigeonhole: an injection of 0..n into itself reaches everything. */
  lemma InjectionIsOnto(f: int -> int, n: nat, v: nat)
    requires Injective(f, n) && v < n && forall i :: 0 <= i < n ==> 0 <= f(i) < n
    ensures exists i :: 0 <= i < n && f(i) == v
  {
    var identity := (i: int) => i;
    ImageSize(f, n);
    ImageSize(identity, n);
    var all := Image(identity, n);
    forall x | 0 <= x < n
      ensures x in all
    {
      assert identity(x) == x;
    }
    if v !in Image(f, n) {
      Subsets(Image(f, n) + {v}, all);
    }
  }

  lemma Subsets(a: set<int>, b: set<int>)
    requires a <= b
    ensures |a| <= |b|
  {
    assert b == a + (b - a);
  }

  function Orbit(u: State): int -> int {
    n => if n < 0 then u else Steps(u, n)
  }

  /** Every one of the 2^64 states appears in one period. */
  lemma VisitsEveryState(u: State, v: State)
    ensures exists n :: 0 <= n < MODULUS && Orbit(u)(n) == v
  {
    hide Steps;
    forall m, n | 0 <= m < MODULUS && 0 <= n < MODULUS && Orbit(u)(m) == Orbit(u)(n)
      ensures m == n
    {
      FullPeriod(u, m, n);
    }
    InjectionIsOnto(Orbit(u), MODULUS, v);
  }

  /** When the orbit of u is at v. */
  ghost function IndexOf(u: State, v: State): (n: nat)
    ensures n < MODULUS && Steps(u, n) == v
  {
    VisitsEveryState(u, v);
    var n :| 0 <= n < MODULUS && Orbit(u)(n) == v;
    n
  }

  /** The t-th state whose output is w: t supplies the four bits above and the 28 bits below it. */
  function WithOutput(w: Word, t: int): State
    requires 0 <= t < 0x1_0000_0000
  {
    t / 0x1000_0000 * 0x1000_0000_0000_0000 + w * 0x1000_0000 + t % 0x1000_0000
  }

  lemma OutputOf(w: Word, h: nat, l: nat)
    requires h < 16 && l < 0x1000_0000
    ensures Output(h * 0x1000_0000_0000_0000 + w * 0x1000_0000 + l) == w
  {
    var u := h * 0x1000_0000_0000_0000 + w * 0x1000_0000 + l;
    assert u / 0x1000_0000 == h * 0x1_0000_0000 + w;
  }

  lemma WithOutputIsInjective(w: Word, s: int, t: int)
    requires 0 <= s < 0x1_0000_0000 && 0 <= t < 0x1_0000_0000
    ensures Output(WithOutput(w, t)) == w
    ensures WithOutput(w, s) == WithOutput(w, t) ==> s == t
  {
    OutputOf(w, t / 0x1000_0000, t % 0x1000_0000);
  }

  lemma OutputSplits(u: State) returns (t: int)
    ensures 0 <= t < 0x1_0000_0000 && WithOutput(Output(u), t) == u
  {
    var q := u / 0x1000_0000;
    var h, l := q / 0x1_0000_0000, u % 0x1000_0000;
    t := h * 0x1000_0000 + l;
    assert t / 0x1000_0000 == h && t % 0x1000_0000 == l;
  }

  /** The positions of one period at which the generator returns w. */
  ghost function Occurrences(u: State, w: Word): set<int> {
    set n | 0 <= n < MODULUS && Output(Orbit(u)(n)) == w
  }

  /** Over one full period every 32-bit output occurs exactly 2^32 times. */
  lemma OutputsEquidistributed(u: State, w: Word)
    ensures |Occurrences(u, w)| == 0x1_0000_0000
  {
    hide Output, WithOutput, Steps;
    var f := t => if 0 <= t < 0x1_0000_0000 then IndexOf(u, WithOutput(w, t)) else 0;
    forall s, t | 0 <= s < 0x1_0000_0000 && 0 <= t < 0x1_0000_0000 && f(s) == f(t)
      ensures s == t
    {
      WithOutputIsInjective(w, s, t);
    }
    ImageSize(f, 0x1_0000_0000);
    forall n | n in Occurrences(u, w)
      ensures n in Image(f, 0x1_0000_0000)
    {
      var t := OutputSplits(Steps(u, n));
      FullPeriod(u, f(t), n);
    }
    forall n | n in Image(f, 0x1_0000_0000)
      ensures n in Occurrences(u, w)
    {
      var t :| 0 <= t < 0x1_0000_0000 && f(t) == n;
      WithOutputIsInjective(w, t, t);
    }
    assert Image(f, 0x1_0000_0000) == Occurrences(u, w);
  }
}
