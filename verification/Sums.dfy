/** Finite sums and the two reorderings the accelerator relies on. */
module Sums {

  /** f(0) + ... + f(n-1) */
  ghost function Sum(n: nat, f: int -> int): int {
    if n == 0 then 0 else Sum(n - 1, f) + f(n - 1)
  }

  lemma {:induction false} SumCong(n: nat, f: int -> int, g: int -> int)
    requires forall i :: 0 <= i < n ==> f(i) == g(i)
    ensures Sum(n, f) == Sum(n, g)
  {
    if n > 0 {
      SumCong(n - 1, f, g);
    }
  }

  lemma {:induction false} SumZero(n: nat, f: int -> int)
    requires forall i :: 0 <= i < n ==> f(i) == 0
    ensures Sum(n, f) == 0
  {
    if n > 0 {
      SumZero(n - 1, f);
    }
  }

  lemma {:induction false} SumBound(n: nat, f: int -> int, bound: int)
    requires bound >= 0
    requires forall i :: 0 <= i < n ==> -bound <= f(i) <= bound
    ensures 0 - n * bound <= Sum(n, f) <= n * bound
  {
    if n > 0 {
      SumBound(n - 1, f, bound);
      assert n * bound == (n - 1) * bound + bound;
    }
  }

  lemma {:induction false} SumConstant(n: nat, f: int -> int, c: int)
    requires forall i :: 0 <= i < n ==> f(i) == c
    ensures Sum(n, f) == n * c
  {
    if n > 0 {
      SumConstant(n - 1, f, c);
      assert n * c == (n - 1) * c + c;
    }
  }

  /** f from its k-th term on. */
  ghost function Shift(f: int -> int, k: int): int -> int {
    i => f(k + i)
  }

  ghost function Row(f: (int, int) -> int, i: int): int -> int {
    j => f(i, j)
  }

  ghost function Column(f: (int, int) -> int, j: int): int -> int {
    i => f(i, j)
  }

  lemma {:induction false} SumAdd(n: nat, f: int -> int, g: int -> int, h: int -> int)
    requires forall i :: 0 <= i < n ==> h(i) == f(i) + g(i)
    ensures Sum(n, h) == Sum(n, f) + Sum(n, g)
  {
    if n > 0 {
      SumAdd(n - 1, f, g, h);
    }
  }

  /** A sum splits after its first m terms. */
  lemma {:induction false} SumSplit(m: nat, n: nat, f: int -> int)
    ensures Sum(m + n, f) == Sum(m, f) + Sum(n, Shift(f, m))
  {
    if n > 0 {
      SumSplit(m, n - 1, f);
    }
  }

  /** Two nested sums may be exchanged. */
  lemma {:induction false} SumSwap(m: nat, n: nat, f: (int, int) -> int, rows: int -> int, columns: int -> int)
    requires forall i :: 0 <= i < m ==> rows(i) == Sum(n, Row(f, i))
    requires forall j :: 0 <= j < n ==> columns(j) == Sum(m, Column(f, j))
    ensures Sum(m, rows) == Sum(n, columns)
  {
    if m == 0 {
      SumZero(n, columns);
    } else {
      var shorter := j => Sum(m - 1, Column(f, j));
      SumSwap(m - 1, n, f, rows, shorter);
      SumAdd(n, shorter, Row(f, m - 1), columns);
    }
  }

  /** The i-th block of n terms. */
  ghost function Block(f: int -> int, n: int, i: int): int -> int {
    Shift(f, n * i)
  }

  /** A sum over m*n terms is m blocks of n terms. */
  lemma {:induction false} SumBlocks(m: nat, n: nat, f: int -> int, blocks: int -> int)
    requires forall i :: 0 <= i < m ==> blocks(i) == Sum(n, Block(f, n, i))
    ensures Sum(m * n, f) == Sum(m, blocks)
  {
    hide Shift, Block;
    if m > 0 {
      var k := (m - 1) * n;
      SumBlocks(m - 1, n, f, blocks);
      SumSplit(k, n, f);
      LastBlock(m, n, f);
    } else {
      assert m * n == 0;
    }
  }

  lemma LastBlock(m: nat, n: nat, f: int -> int)
    requires m > 0
    ensures m * n == (m - 1) * n + n
    ensures Block(f, n, m - 1) == Shift(f, (m - 1) * n)
  {
  }
}
