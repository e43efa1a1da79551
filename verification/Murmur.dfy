/**
 MurmurHash3 (32 bit, seed 0) of common/src/playground_util/murmurhash.cc: every
 step is a bijection on words, so one changed chunk always changes the hash.
 */
module Murmur {
  import opened Words
  import opened Arith

  const M: int := 0x1_0000_0000
  const C1: Word := 0xcc9e_2d51
  const C2: Word := 0x1b87_3593
  const N: Word := 0xe654_6b64
  const F1: Word := 0x85eb_ca6b
  const F2: Word := 0xc2b2_ae35

  // ----- exclusive or -----

  /** Bitwise exclusive or. */
  function Xor(x: nat, y: nat): nat {
    if x == 0 && y == 0 then 0 else 2 * Xor(x / 2, y / 2) + (x + y) % 2
  }

  lemma LowBit(z: nat, bit: nat)
    requires bit < 2
    ensures (2 * z + bit) / 2 == z && (2 * z + bit) % 2 == bit
  {
  }

  lemma ParityBack(x: nat, y: nat)
    ensures ((x + y) % 2 + y) % 2 == x % 2
  {
  }

  lemma XorParts(x: nat, y: nat)
    ensures Xor(x, y) / 2 == Xor(x / 2, y / 2)
    ensures Xor(x, y) % 2 == (x + y) % 2
  {
    if x != 0 || y != 0 {
      var z, bit := Xor(x / 2, y / 2), (x + y) % 2;
      assert Xor(x, y) == 2 * z + bit;
      hide Xor;
      LowBit(z, bit);
    }
  }

  lemma SumParity(x: nat, y: nat)
    ensures (x + y) % 2 == (x % 2 + y) % 2
  {
  }

  lemma {:induction false} XorBack(x: nat, y: nat)
    ensures Xor(Xor(x, y), y) == x
  {
    if x != 0 || y != 0 {
      XorBack(x / 2, y / 2);
      hide Xor;
      var w := Xor(x, y);
      XorParts(x, y);
      XorParts(w, y);
      SumParity(w, y);
      ParityBack(x, y);
    }
  }

  lemma {:induction false} XorCommutes(x: nat, y: nat)
    ensures Xor(x, y) == Xor(y, x)
  {
    if x != 0 || y != 0 {
      XorCommutes(x / 2, y / 2);
    }
  }

  lemma {:induction false} XorBound(x: nat, y: nat, n: nat)
    requires x < Pow2(n) && y < Pow2(n)
    ensures Xor(x, y) < Pow2(n)
  {
    if n > 0 && (x != 0 || y != 0) {
      XorBound(x / 2, y / 2, n - 1);
    }
  }

  lemma WordBound()
    ensures Pow2(32) == M
  {
    assert Pow2(8) == 0x100;
    assert Pow2(16) == 0x1_0000;
    assert Pow2(24) == 0x100_0000;
  }

  function XorWord(x: Word, y: Word): Word {
    WordBound();
    XorBound(x, y, 32);
    Xor(x, y)
  }

  /** x >> s */
  function Shift(x: nat, s: nat): nat {
    if s == 0 then x else Shift(x / 2, s - 1)
  }

  lemma {:induction false} ShiftXor(x: nat, y: nat, s: nat)
    ensures Shift(Xor(x, y), s) == Xor(Shift(x, s), Shift(y, s))
  {
    if s > 0 {
      XorParts(x, y);
      hide Xor;
      ShiftXor(x / 2, y / 2, s - 1);
    }
  }

  lemma {:induction false} ShiftSmaller(x: nat, s: nat)
    ensures Shift(x, s) <= x
    ensures s > 0 && x > 0 ==> Shift(x, s) < x
  {
    if s > 0 {
      ShiftSmaller(x / 2, s - 1);
    }
  }

  /** x ^ (x >> s) determines x. */
  lemma {:induction false} FoldInjective(x: nat, y: nat, s: nat)
    requires s > 0 && Xor(x, Shift(x, s)) == Xor(y, Shift(y, s))
    ensures x == y
    decreases x + y
  {
    hide Xor, Shift;
    if x == 0 && y == 0 {
      return;
    }
    ShiftXor(x, Shift(x, s), s);
    ShiftXor(y, Shift(y, s), s);
    ShiftSmaller(x, s);
    ShiftSmaller(y, s);
    FoldInjective(Shift(x, s), Shift(y, s), s);
    XorBack(x, Shift(x, s));
    XorBack(y, Shift(y, s));
  }

  /** h ^ (h >> s) on words. */
  function Fold(h: Word, s: nat): Word {
    ShiftSmaller(h, s);
    XorWord(h, Shift(h, s))
  }

  // ----- multiplication and rotation -----

  function Times(x: Word, c: Word): Word {
    Wrap(x * c)
  }

  /** Multiplying by c is undone by multiplying by its inverse modulo 2^32. */
  lemma TimesBack(x: Word, c: Word, d: Word)
    requires c * d % M == 1
    ensures Times(Times(x, c), d) == x
  {
    var t := c * d / M;
    var q, r := x * c / M, Times(x, c);
    assert c * d == M * t + 1 && x * c == M * q + r;
    assert r * d == (x * t - q * d) * M + x by {
      assert x * c * d == x * (c * d);
      assert (M * q + r) * d == M * (q * d) + r * d;
      assert x * (M * t + 1) == M * (x * t) + x;
    }
    Digit(x * t - q * d, M, x);
  }

  lemma OddMultipliers()
    ensures C1 * 0xdee1_3bb1 % M == 1
    ensures C2 * 0x56ed_309b % M == 1
    ensures 5 * 0xcccc_cccd % M == 1
    ensures F1 * 0xa5cb_9243 % M == 1
    ensures F2 * 0x7ed1_b41d % M == 1
  {
  }

  /** (x << n) | (x >> (32 - n)) with up == 2^n and down == 2^(32-n): the two parts share no bit. */
  function Rotate(x: Word, up: nat, down: nat): Word
    requires up * down == M && up > 0 && down > 0
  {
    RotateDigits(x, up, down);
    Wrap(x * up) + x / down
  }

  lemma RotateDigits(x: Word, up: nat, down: nat)
    requires up * down == M && up > 0 && down > 0
    ensures Wrap(x * up) == x % down * up && x / down < up
    ensures Wrap(x * up) + x / down < M
  {
    var h, l := x / down, x % down;
    assert x == down * h + l;
    assert x * up == h * M + l * up by {
      assert (down * h) * up == h * (up * down);
    }
    Bounded(l, down, up, 0);
    Digit(h, M, l * up);
    if h >= up {
      MulMono(up, h, down);
    }
    Bounded(l, down, up, h);
    assert down * up == M;
  }

  /** Rotating back by the complementary amount. */
  lemma RotateBack(x: Word, up: nat, down: nat)
    requires up * down == M && up > 0 && down > 0
    ensures down * up == M && Rotate(Rotate(x, up, down), down, up) == x
  {
    var y := Rotate(x, up, down);
    RotateDigits(x, up, down);
    RotateDigits(y, down, up);
    Digit(x % down, up, x / down);
    assert x == x / down * down + x % down;
  }

  function Rol15(x: Word): Word {
    Rotate(x, 0x8000, 0x2_0000)
  }

  function Rol13(x: Word): Word {
    Rotate(x, 0x2000, 0x8_0000)
  }

  // ----- the steps of the hash -----

  /** What happens to a chunk (or to the tail) before it meets the hash. */
  function Scramble(k: Word): Word {
    Times(Rol15(Times(k, C1)), C2)
  }

  function Stir(m: Word): Word {
    Wrap(Times(Rol13(m), 5) + N)
  }

  /** One chunk of the loop. */
  function Round(h: Word, k: Word): Word {
    Stir(XorWord(h, Scramble(k)))
  }

  /** The finaliser. */
  function Avalanche(h: Word): Word {
    Fold(Times(Fold(Times(Fold(h, 16), F1), 13), F2), 16)
  }

  function Unscramble(x: Word): Word {
    Times(Rotate(Times(x, 0x56ed_309b), 0x2_0000, 0x8000), 0xdee1_3bb1)
  }

  function Unstir(h: Word): Word {
    Rotate(Times(Wrap(h - N), 0xcccc_cccd), 0x8_0000, 0x2000)
  }

  /** The chunk that takes the hash from `before` to h. */
  function Unround(h: Word, before: Word): Word {
    Unscramble(XorWord(Unstir(h), before))
  }

  lemma ScrambleBijective(k: Word)
    ensures Unscramble(Scramble(k)) == k
    ensures Scramble(Unscramble(k)) == k
  {
    hide Times, Rotate;
    OddMultipliers();
    var a := Times(k, C1);
    TimesBack(k, C1, 0xdee1_3bb1);
    RotateBack(a, 0x8000, 0x2_0000);
    TimesBack(Rol15(a), C2, 0x56ed_309b);
    var b := Times(k, 0x56ed_309b);
    TimesBack(k, 0x56ed_309b, C2);
    RotateBack(b, 0x2_0000, 0x8000);
    TimesBack(Rotate(b, 0x2_0000, 0x8000), 0xdee1_3bb1, C1);
  }

  lemma AddBack(x: Word)
    ensures Wrap(Wrap(x + N) - N) == x && Wrap(Wrap(x - N) + N) == x
  {
  }

  lemma StirBijective(m: Word)
    ensures Unstir(Stir(m)) == m
    ensures Stir(Unstir(m)) == m
  {
    hide Times, Rotate, Wrap;
    OddMultipliers();
    RotateBack(m, 0x2000, 0x8_0000);
    TimesBack(Rol13(m), 5, 0xcccc_cccd);
    AddBack(Times(Rol13(m), 5));
    var a := Wrap(m - N);
    TimesBack(a, 0xcccc_cccd, 5);
    RotateBack(Times(a, 0xcccc_cccd), 0x8_0000, 0x2000);
    AddBack(m);
  }

  /** For a fixed hash a round permutes the chunks: exactly one chunk leads to each next hash. */
  lemma RoundBijective(h: Word, k: Word)
    ensures Unround(Round(h, k), h) == k
    ensures Round(h, Unround(k, h)) == k
  {
    hide Stir, Unstir, Scramble, Unscramble, Xor;
    StirBijective(XorWord(h, Scramble(k)));
    XorCommutes(h, Scramble(k));
    XorBack(Scramble(k), h);
    ScrambleBijective(k);
    var x := XorWord(Unstir(k), h);
    ScrambleBijective(x);
    XorCommutes(h, x);
    XorBack(Unstir(k), h);
    StirBijective(k);
  }

  /** For a fixed chunk a round keeps different hashes different. */
  lemma RoundKeepsDifference(g: Word, h: Word, k: Word)
    requires g != h
    ensures Round(g, k) != Round(h, k)
  {
    hide Stir, Unstir, Scramble, Xor;
    StirBijective(XorWord(g, Scramble(k)));
    StirBijective(XorWord(h, Scramble(k)));
    XorBack(g, Scramble(k));
    XorBack(h, Scramble(k));
  }

  lemma FoldKeepsDifference(g: Word, h: Word, s: nat)
    requires g != h && s > 0
    ensures Fold(g, s) != Fold(h, s)
  {
    hide Xor, Shift;
    if Xor(g, Shift(g, s)) == Xor(h, Shift(h, s)) {
      FoldInjective(g, h, s);
    }
  }

  lemma TimesKeepsDifference(g: Word, h: Word, c: Word, d: Word)
    requires g != h && c * d % M == 1
    ensures Times(g, c) != Times(h, c)
  {
    hide Times;
    TimesBack(g, c, d);
    TimesBack(h, c, d);
  }

  lemma AvalancheKeepsDifference(g: Word, h: Word)
    requires g != h
    ensures Avalanche(g) != Avalanche(h)
  {
    hide Times, Fold;
    OddMultipliers();
    var a, b := Fold(g, 16), Fold(h, 16);
    FoldKeepsDifference(g, h, 16);
    TimesKeepsDifference(a, b, F1, 0xa5cb_9243);
    var c, d := Fold(Times(a, F1), 13), Fold(Times(b, F1), 13);
    FoldKeepsDifference(Times(a, F1), Times(b, F1), 13);
    TimesKeepsDifference(c, d, F2, 0x7ed1_b41d);
    FoldKeepsDifference(Times(c, F2), Times(d, F2), 16);
  }

  // ----- byte strings -----

  /** The i-th 32-bit little-endian load. */
  function Chunk(data: seq<Byte>, i: nat): Word
    requires 4 * i + 4 <= |data|
  {
    FromLanes(Lanes(data[4 * i], data[4 * i + 1], data[4 * i + 2], data[4 * i + 3]))
  }

  /** The hash after the first n chunks. */
  function Rounds(data: seq<Byte>, n: nat): Word
    requires 4 * n <= |data|
  {
    if n == 0 then 0 else Round(Rounds(data, n - 1), Chunk(data, n - 1))
  }

  function ByteWeight(i: nat): nat {
    if i == 0 then 1 else if i == 1 then 0x100 else 0x1_0000
  }

  /** The first n bytes after the last whole chunk. */
  function TailBytes(data: seq<Byte>, n: nat): (w: Word)
    requires n <= |data| % 4
    ensures w < if n == 0 then 1 else 0x100 * ByteWeight(n - 1)
  {
    if n == 0 then 0 else TailBytes(data, n - 1) + data[|data| / 4 * 4 + n - 1] * ByteWeight(n - 1)
  }

  function Finish(h: Word, tail: Word, length: nat): Word {
    Avalanche(XorWord(XorWord(h, Scramble(tail)), Wrap(length)))
  }

  function Hash(data: seq<Byte>): Word {
    Finish(Rounds(data, |data| / 4), TailBytes(data, |data| % 4), |data|)
  }

  /** The C function. */
  method MurmurHash3(data: seq<Byte>) returns (result: Int32)
    ensures result == Signed32(Hash(data))
  {
    hide Xor, Shift, Rotate, Chunk;
    var hash: Word := 0;
    for i := 0 to |data| / 4
      invariant hash == Rounds(data, i)
    {
      var k := Chunk(data, i);
      k := Wrap(k * C1);
      k := Rol15(k);
      k := Wrap(k * C2);
      hash := XorWord(hash, k);
      hash := Rol13(hash);
      hash := Wrap(Wrap(hash * 5) + N);
    }
    var remaining: Word := 0;
    for i := 0 to |data| % 4
      invariant remaining == TailBytes(data, i)
    {
      remaining := remaining + data[|data| / 4 * 4 + i] * ByteWeight(i);
    }
    remaining := Wrap(remaining * C1);
    remaining := Rol15(remaining);
    remaining := Wrap(remaining * C2);
    hash := XorWord(hash, remaining);
    hash := XorWord(hash, Wrap(|data|));
    hash := Fold(hash, 16);
    hash := Wrap(hash * F1);
    hash := Fold(hash, 13);
    hash := Wrap(hash * F2);
    hash := Fold(hash, 16);
    result := Signed32(hash);
  }

  // ----- no collisions -----

  lemma FinishDiffers(g: Word, h: Word, j: Word, k: Word, n: nat)
    requires (g == h) != (j == k)
    ensures Finish(g, j, n) != Finish(h, k, n)
  {
    hide Avalanche, Scramble, Unscramble, Xor, Wrap;
    ScrambleBijective(j);
    ScrambleBijective(k);
    var x, y, z := XorWord(g, Scramble(j)), XorWord(h, Scramble(k)), Wrap(n);
    XorBack(g, Scramble(j));
    XorBack(h, Scramble(k));
    XorCommutes(g, Scramble(j));
    XorCommutes(h, Scramble(k));
    XorBack(Scramble(j), g);
    XorBack(Scramble(k), h);
    XorBack(x, z);
    XorBack(y, z);
    AvalancheKeepsDifference(XorWord(x, z), XorWord(y, z));
  }

  /** Chunk by chunk: equal before i, different at i, equal after i. */
  lemma {:induction false} RoundsDiffer(a: seq<Byte>, b: seq<Byte>, i: nat, n: nat)
    requires |a| == |b| && 4 * n <= |a|
    requires forall m :: 0 <= m < n && m != i ==> Chunk(a, m) == Chunk(b, m)
    requires i < n ==> Chunk(a, i) != Chunk(b, i)
    ensures if i < n then Rounds(a, n) != Rounds(b, n) else Rounds(a, n) == Rounds(b, n)
  {
    hide Round, Chunk, Unround;
    if n > 0 {
      RoundsDiffer(a, b, i, n - 1);
      var g, h := Rounds(a, n - 1), Rounds(b, n - 1);
      var j, k := Chunk(a, n - 1), Chunk(b, n - 1);
      if i == n - 1 {
        RoundBijective(g, j);
        RoundBijective(g, k);
      } else if i < n - 1 {
        RoundKeepsDifference(g, h, j);
      }
    }
  }

  lemma {:induction false} SameTail(a: seq<Byte>, b: seq<Byte>, n: nat)
    requires |a| == |b| && n <= |a| % 4
    requires forall m :: |a| / 4 * 4 <= m < |a| / 4 * 4 + n ==> a[m] == b[m]
    ensures TailBytes(a, n) == TailBytes(b, n)
  {
    if n > 0 {
      SameTail(a, b, n - 1);
    }
  }

  /** The tail word determines its bytes. */
  lemma {:induction false} TailDetermines(a: seq<Byte>, b: seq<Byte>, n: nat)
    requires |a| == |b| && n <= |a| % 4 && TailBytes(a, n) == TailBytes(b, n)
    ensures forall m :: |a| / 4 * 4 <= m < |a| / 4 * 4 + n ==> a[m] == b[m]
  {
    if n > 0 {
      var s := |a| / 4 * 4 + n - 1;
      var w := ByteWeight(n - 1);
      assert TailBytes(a, n - 1) < w && TailBytes(b, n - 1) < w;
      Digit(a[s], w, TailBytes(a, n - 1));
      Digit(b[s], w, TailBytes(b, n - 1));
      TailDetermines(a, b, n - 1);
    }
  }

  lemma ChunkBytes(a: seq<Byte>, b: seq<Byte>, i: nat)
    requires |a| == |b| && 4 * i + 4 <= |a| && Chunk(a, i) == Chunk(b, i)
    requires forall m :: 0 <= m < |a| && !(4 * i <= m < 4 * i + 4) ==> a[m] == b[m]
    ensures a == b
  {
    hide FromLanes, LanesOf;
    LanesBack(Lanes(a[4 * i], a[4 * i + 1], a[4 * i + 2], a[4 * i + 3]));
    LanesBack(Lanes(b[4 * i], b[4 * i + 1], b[4 * i + 2], b[4 * i + 3]));
  }

  /** Two strings of one length that differ in exactly one four-byte chunk never collide. */
  lemma OneChunkNeverCollides(a: seq<Byte>, b: seq<Byte>, i: nat)
    requires |a| == |b| && 4 * i + 4 <= |a| && a != b
    requires forall m :: 0 <= m < |a| && !(4 * i <= m < 4 * i + 4) ==> a[m] == b[m]
    ensures Hash(a) != Hash(b)
  {
    hide Round, Finish, FromLanes;
    var n := |a| / 4;
    if Chunk(a, i) == Chunk(b, i) {
      ChunkBytes(a, b, i);
    }
    RoundsDiffer(a, b, i, n);
    SameTail(a, b, |a| % 4);
    FinishDiffers(Rounds(a, n), Rounds(b, n), TailBytes(a, |a| % 4), TailBytes(b, |a| % 4), |a|);
  }

  lemma SamePrefixAndTail(a: seq<Byte>, b: seq<Byte>)
    requires |a| == |b| && TailBytes(a, |a| % 4) == TailBytes(b, |a| % 4)
    requires forall m :: 0 <= m < |a| / 4 * 4 ==> a[m] == b[m]
    ensures a == b
  {
    TailDetermines(a, b, |a| % 4);
  }

  /** Nor do two that differ only after the last whole chunk. */
  lemma TailNeverCollides(a: seq<Byte>, b: seq<Byte>)
    requires |a| == |b| && a != b
    requires forall m :: 0 <= m < |a| / 4 * 4 ==> a[m] == b[m]
    ensures Hash(a) != Hash(b)
  {
    hide Round, Finish, TailBytes, FromLanes;
    var n := |a| / 4;
    RoundsDiffer(a, b, n, n);
    if TailBytes(a, |a| % 4) == TailBytes(b, |a| % 4) {
      SamePrefixAndTail(a, b);
    }
    FinishDiffers(Rounds(a, n), Rounds(b, n), TailBytes(a, |a| % 4), TailBytes(b, |a| % 4), |a|);
  }
}
