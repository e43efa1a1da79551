/**
 MurmurHash3 as bits and bytes: the hash of common/src/playground_util/murmurhash.cc described by
 relations between words, and the proof that the model computes exactly that hash.
 */
module MurmurBits {
  import opened Words
  import opened Arith
  import opened Bits
  import opened Murmur

  // ----- the description -----

  /** y is x * c modulo 2^32. */
  predicate IsProduct(x: Word, c: int, y: Word) {
    (x * c - y) % 0x1_0000_0000 == 0
  }

  /** y is x rotated left by n: bit k of x is bit (k + n) % 32 of y. */
  ghost predicate IsRotated(x: Word, n: nat, y: Word) {
    forall k: nat :: k < 32 ==> Bit(x, k) == Bit(y, (k + n) % 32)
  }

  /** z is the exclusive or of x and y, bit by bit. */
  ghost predicate IsXor(x: Word, y: Word, z: Word) {
    forall k: nat :: k < 32 ==> Bit(z, k) == (Bit(x, k) + Bit(y, k)) % 2
  }

  /** y is x ^ (x >> n): above bit 32 - n nothing is shifted in. */
  ghost predicate IsFolded(x: Word, n: nat, y: Word) {
    forall k: nat :: k < 32 ==> Bit(y, k) == FoldedBit(x, n, k)
  }

  function FoldedBit(x: Word, n: nat, k: nat): nat {
    if k + n < 32 then (Bit(x, k) + Bit(x, k + n)) % 2 else Bit(x, k)
  }

  /** w is the little-endian load of up to four bytes. */
  predicate IsLoad(bytes: seq<Byte>, w: Word) {
    && (w % 0x100 == if |bytes| > 0 then bytes[0] else 0)
    && (w / 0x100 % 0x100 == if |bytes| > 1 then bytes[1] else 0)
    && (w / 0x1_0000 % 0x100 == if |bytes| > 2 then bytes[2] else 0)
    && (w / 0x100_0000 == if |bytes| > 3 then bytes[3] else 0)
  }

  /** k becomes m: times c1, rotated by r1, times c2. */
  ghost predicate IsMixed(k: Word, m: Word) {
    exists a: Word, b: Word :: IsProduct(k, 0xcc9e_2d51, a) && IsRotated(a, 15, b) && IsProduct(b, 0x1b87_3593, m)
  }

  /** One turn of the loop takes the hash from h to g. */
  ghost predicate IsRound(h: Word, k: Word, g: Word) {
    exists m: Word, x: Word, r: Word ::
      IsMixed(k, m) && IsXor(h, m, x) && IsRotated(x, 13, r) && (r * 5 + 0xe654_6b64 - g) % 0x1_0000_0000 == 0
  }

  /** The last three lines of folding and multiplying. */
  ghost predicate IsFinal(h: Word, g: Word) {
    exists a: Word, b: Word, c: Word, d: Word ::
      && IsFolded(h, 16, a) && IsProduct(a, 0x85eb_ca6b, b)
      && IsFolded(b, 13, c) && IsProduct(c, 0xc2b2_ae35, d) && IsFolded(d, 16, g)
  }

  /** The remaining bytes, the length and the finaliser. */
  ghost predicate IsFinish(h: Word, tail: Word, length: nat, g: Word) {
    exists m: Word, x: Word, y: Word ::
      IsMixed(tail, m) && IsXor(h, m, x) && IsXor(x, length % 0x1_0000_0000, y) && IsFinal(y, g)
  }

  /** The four bytes of chunk i take the hash from h to g. */
  ghost predicate IsTurn(data: seq<Byte>, i: nat, h: Word, g: Word)
    requires 4 * i + 4 <= |data|
  {
    exists k: Word :: IsLoad(data[4 * i..4 * i + 4], k) && IsRound(h, k, g)
  }

  /** The hash before each chunk and after the last. */
  ghost predicate IsChain(data: seq<Byte>, hashes: seq<Word>) {
    && |hashes| == |data| / 4 + 1 && hashes[0] == 0
    && forall i: nat :: i < |data| / 4 ==> IsTurn(data, i, hashes[i], hashes[i + 1])
  }

  ghost predicate IsHash(data: seq<Byte>, g: Word) {
    exists hashes: seq<Word>, tail: Word ::
      && |hashes| == |data| / 4 + 1 && IsChain(data, hashes) && IsLoad(data[|data| / 4 * 4..], tail)
      && IsFinish(hashes[|data| / 4], tail, |data|, g)
  }

  // ----- words are their bits -----

  lemma SameBits(x: Word, y: Word)
    requires forall k: nat :: k < 32 ==> Bit(x, k) == Bit(y, k)
    ensures x == y
  {
    hide Bit;
    WordBound();
    BitsDetermine(x, y, 32);
  }

  lemma {:induction false} XorBit(x: nat, y: nat, k: nat)
    ensures Bit(Xor(x, y), k) == (Bit(x, k) + Bit(y, k)) % 2
  {
    XorParts(x, y);
    hide Xor, Bit;
    if k == 0 {
      BitZero(x);
      BitZero(y);
      BitZero(Xor(x, y));
    } else {
      BitHalf(x, k);
      BitHalf(y, k);
      BitHalf(Xor(x, y), k);
      XorBit(x / 2, y / 2, k - 1);
    }
  }

  lemma {:induction false} ShiftBit(x: nat, s: nat, k: nat)
    ensures Bit(Shift(x, s), k) == Bit(x, k + s)
  {
    hide Bit;
    if s > 0 {
      ShiftBit(x / 2, s - 1, k);
      BitHalf(x, k + s);
    }
  }

  lemma XorIff(x: Word, y: Word, z: Word)
    ensures IsXor(x, y, z) <==> z == XorWord(x, y)
  {
    hide Bit, Xor;
    forall k: nat | k < 32
      ensures Bit(XorWord(x, y), k) == (Bit(x, k) + Bit(y, k)) % 2
    {
      XorBit(x, y, k);
    }
    if IsXor(x, y, z) {
      SameBits(z, XorWord(x, y));
    }
  }

  lemma FoldBit(x: Word, n: nat, k: nat)
    requires k < 32
    ensures Bit(Fold(x, n), k) == FoldedBit(x, n, k)
  {
    hide Bit, Xor, Shift;
    WordBound();
    XorBit(x, Shift(x, n), k);
    ShiftBit(x, n, k);
    BitBelow2(x, k);
    if k + n >= 32 {
      BitAbove(x, 32, k + n);
    }
  }

  lemma FoldIff(x: Word, n: nat, y: Word)
    ensures IsFolded(x, n, y) <==> y == Fold(x, n)
  {
    hide Bit, Fold, FoldedBit;
    forall k: nat | k < 32
      ensures Bit(Fold(x, n), k) == FoldedBit(x, n, k)
    {
      FoldBit(x, n, k);
    }
    if IsFolded(x, n, y) {
      SameBits(y, Fold(x, n));
    }
  }

  lemma BitBelow2(x: nat, k: nat)
    ensures 0 <= Bit(x, k) < 2
  {
  }

  /** A rotated word is its low part above its high part. */
  lemma RotateJoins(x: Word, n: nat)
    requires 0 < n < 32 && Pow2(n) * Pow2(32 - n) == M && Pow2(n) > 0 && Pow2(32 - n) > 0
    ensures Above(x, 32 - n) < Pow2(n)
    ensures Rotate(x, Pow2(n), Pow2(32 - n)) == x % Pow2(32 - n) * Pow2(n) + Above(x, 32 - n)
  {
    RotateDigits(x, Pow2(n), Pow2(32 - n));
  }

  lemma RotateBit(x: Word, n: nat, k: nat)
    requires 0 < n < 32 && k < 32 && Pow2(n) * Pow2(32 - n) == M && Pow2(n) > 0 && Pow2(32 - n) > 0
    ensures Bit(Rotate(x, Pow2(n), Pow2(32 - n)), (k + n) % 32) == Bit(x, k)
  {
    hide Bit, Above, Rotate, Pow2;
    RotateJoins(x, n);
    BitOfJoin(x % Pow2(32 - n), Above(x, 32 - n), n, (k + n) % 32);
    if k + n < 32 {
      BitOfMod(x, k, 32 - n);
    } else {
      BitOfDiv(x, k + n - 32, 32 - n);
    }
  }

  lemma RotationAmounts()
    ensures Pow2(13) == 0x2000 && Pow2(15) == 0x8000 && Pow2(17) == 0x2_0000 && Pow2(19) == 0x8_0000
  {
    assert Pow2(8) == 0x100;
  }

  lemma RotatedIff(x: Word, n: nat, y: Word)
    requires n == 13 || n == 15
    ensures IsRotated(x, n, y) <==> y == if n == 15 then Rol15(x) else Rol13(x)
  {
    hide Bit, Rotate;
    RotationAmounts();
    hide Pow2;
    var z := if n == 15 then Rol15(x) else Rol13(x);
    forall k: nat | k < 32
      ensures Bit(x, k) == Bit(z, (k + n) % 32)
    {
      RotateBit(x, n, k);
    }
    if IsRotated(x, n, y) {
      forall j: nat | j < 32
        ensures Bit(y, j) == Bit(z, j)
      {
        var k: nat := (j + 32 - n) % 32;
        assert (k + n) % 32 == j;
        assert Bit(x, k) == Bit(y, (k + n) % 32);
      }
      SameBits(y, z);
    }
  }

  lemma ProductIff(x: Word, c: Word, y: Word)
    ensures IsProduct(x, c, y) <==> y == Times(x, c)
  {
    var p := x * c;
    assert (p - y) % 0x1_0000_0000 == 0 <==> y == Wrap(p);
  }

  // ----- the steps -----

  lemma MixedIff(k: Word, m: Word)
    ensures IsMixed(k, m) <==> m == Scramble(k)
  {
    hide IsProduct, IsRotated, Times, Rol15;
    forall x: Word, c: Word, y: Word
      ensures IsProduct(x, c, y) <==> y == Times(x, c)
    {
      ProductIff(x, c, y);
    }
    forall x: Word, y: Word
      ensures IsRotated(x, 15, y) <==> y == Rol15(x)
    {
      RotatedIff(x, 15, y);
    }
    var a := Times(k, C1);
    assert IsProduct(k, 0xcc9e_2d51, a) && IsRotated(a, 15, Rol15(a));
  }

  lemma StirredIff(x: Word, g: Word)
    ensures (Rol13(x) * 5 + 0xe654_6b64 - g) % 0x1_0000_0000 == 0 <==> g == Stir(x)
  {
    hide Rol13;
    var r: int := Rol13(x);
    WrapAdd(r * 5, N);
    assert Stir(x) == Wrap(r * 5 + 0xe654_6b64);
  }

  /** One turn of the loop, in both directions. */
  lemma RoundIff(h: Word, k: Word, g: Word)
    ensures IsRound(h, k, g) <==> g == Round(h, k)
  {
    hide IsMixed, IsXor, IsRotated, Scramble, XorWord, Rol13, Stir;
    forall m: Word
      ensures IsMixed(k, m) <==> m == Scramble(k)
    {
      MixedIff(k, m);
    }
    var m := Scramble(k);
    forall x: Word
      ensures IsXor(h, m, x) <==> x == XorWord(h, m)
    {
      XorIff(h, m, x);
    }
    var x := XorWord(h, m);
    forall r: Word
      ensures IsRotated(x, 13, r) <==> r == Rol13(x)
    {
      RotatedIff(x, 13, r);
    }
    StirredIff(x, g);
    assert IsMixed(k, m) && IsXor(h, m, x) && IsRotated(x, 13, Rol13(x));
  }

  /** The finaliser, in both directions. */
  lemma FinalIff(h: Word, g: Word)
    ensures IsFinal(h, g) <==> g == Avalanche(h)
  {
    hide IsProduct, IsFolded, Times, Fold;
    forall x: Word, c: Word, y: Word
      ensures IsProduct(x, c, y) <==> y == Times(x, c)
    {
      ProductIff(x, c, y);
    }
    forall x: Word, n: nat, y: Word
      ensures IsFolded(x, n, y) <==> y == Fold(x, n)
    {
      FoldIff(x, n, y);
    }
    var a := Fold(h, 16);
    var b := Times(a, F1);
    var c := Fold(b, 13);
    var d := Times(c, F2);
    assert IsFolded(h, 16, a) && IsProduct(a, 0x85eb_ca6b, b) && IsFolded(b, 13, c) && IsProduct(c, 0xc2b2_ae35, d);
  }

  lemma FinishIff(h: Word, tail: Word, length: nat, g: Word)
    ensures IsFinish(h, tail, length, g) <==> g == Finish(h, tail, length)
  {
    hide IsMixed, IsXor, IsFinal, Scramble, XorWord, Avalanche;
    forall m: Word
      ensures IsMixed(tail, m) <==> m == Scramble(tail)
    {
      MixedIff(tail, m);
    }
    forall x: Word, y: Word, z: Word
      ensures IsXor(x, y, z) <==> z == XorWord(x, y)
    {
      XorIff(x, y, z);
    }
    var m := Scramble(tail);
    var x := XorWord(h, m);
    var y := XorWord(x, length % 0x1_0000_0000);
    FinalIff(y, g);
    assert IsMixed(tail, m) && IsXor(h, m, x) && IsXor(x, length % 0x1_0000_0000, y);
  }

  // ----- the bytes -----

  lemma LoadUnique(bytes: seq<Byte>, v: Word, w: Word)
    requires IsLoad(bytes, v) && IsLoad(bytes, w)
    ensures v == w
  {
    LaneBytes(v);
    LaneBytes(w);
    hide LanesOf, FromLanes;
    LanesForth(v);
    LanesForth(w);
  }

  lemma LanesAreLoad(bytes: seq<Byte>, l: Lanes)
    requires l.l0 == if |bytes| > 0 then bytes[0] else 0
    requires l.l1 == if |bytes| > 1 then bytes[1] else 0
    requires l.l2 == if |bytes| > 2 then bytes[2] else 0
    requires l.l3 == if |bytes| > 3 then bytes[3] else 0
    ensures IsLoad(bytes, FromLanes(l))
  {
    hide LanesOf, FromLanes;
    LanesBack(l);
    LaneBytes(FromLanes(l));
  }

  /** The four bytes of the i-th chunk, lowest first. */
  lemma ChunkIsLoad(data: seq<Byte>, i: nat)
    requires 4 * i + 4 <= |data|
    ensures IsLoad(data[4 * i..4 * i + 4], Chunk(data, i))
  {
    hide IsLoad, FromLanes;
    LanesAreLoad(data[4 * i..4 * i + 4], Lanes(data[4 * i], data[4 * i + 1], data[4 * i + 2], data[4 * i + 3]));
  }

  /** The bytes after the last chunk, lowest first, and zeros. */
  lemma TailIsLoad(data: seq<Byte>)
    ensures IsLoad(data[|data| / 4 * 4..], TailBytes(data, |data| % 4))
  {
    hide IsLoad;
    var bytes := data[|data| / 4 * 4..];
    var n := |bytes|;
    var l := Lanes(if n > 0 then bytes[0] else 0, if n > 1 then bytes[1] else 0, if n > 2 then bytes[2] else 0, 0);
    TailSum(data);
    LanesAreLoad(bytes, l);
  }

  lemma TailSum(data: seq<Byte>)
    ensures var t, n := |data| / 4 * 4, |data| % 4;
            TailBytes(data, n) as int
            == (if n > 0 then data[t] as int else 0) + (if n > 1 then 0x100 * data[t + 1] as int else 0)
               + (if n > 2 then 0x1_0000 * data[t + 2] as int else 0)
  {
    var n := |data| % 4;
    if n > 2 {
      assert TailBytes(data, 1) as int == TailBytes(data, 0) as int + data[|data| / 4 * 4] as int;
    }
  }

  // ----- the whole hash -----

  lemma {:induction false} ChainIsRounds(data: seq<Byte>, hashes: seq<Word>, n: nat)
    requires IsChain(data, hashes) && n <= |data| / 4
    ensures hashes[n] == Rounds(data, n)
  {
    hide Round, IsTurn, Chunk;
    if n > 0 {
      ChainIsRounds(data, hashes, n - 1);
      TurnIsRound(data, n - 1, hashes[n - 1], hashes[n]);
    }
  }

  lemma TurnIsRound(data: seq<Byte>, i: nat, h: Word, g: Word)
    requires 4 * i + 4 <= |data|
    ensures IsTurn(data, i, h, g) <==> g == Round(h, Chunk(data, i))
  {
    hide Round, IsRound, IsLoad, Chunk;
    ChunkIsLoad(data, i);
    RoundIff(h, Chunk(data, i), g);
    if IsTurn(data, i, h, g) {
      var k: Word :| IsLoad(data[4 * i..4 * i + 4], k) && IsRound(h, k, g);
      LoadUnique(data[4 * i..4 * i + 4], k, Chunk(data, i));
    }
  }

  lemma RoundsAreChain(data: seq<Byte>, hashes: seq<Word>)
    requires |hashes| == |data| / 4 + 1 && forall i :: 0 <= i < |hashes| ==> hashes[i] == Rounds(data, i)
    ensures IsChain(data, hashes)
  {
    hide Round, IsTurn, Chunk;
    forall i: nat | i < |data| / 4
      ensures IsTurn(data, i, hashes[i], hashes[i + 1])
    {
      TurnIsRound(data, i, hashes[i], hashes[i + 1]);
    }
  }

  /** For every byte string the model's hash is the described one, and nothing else is. */
  lemma HashIff(data: seq<Byte>, g: Word)
    ensures IsHash(data, g) <==> g == Hash(data)
  {
    hide IsChain, IsLoad, IsFinish, Finish, Rounds, TailBytes;
    var n := |data| / 4;
    TailIsLoad(data);
    if IsHash(data, g) {
      var hashes: seq<Word>, tail: Word :|
        && |hashes| == n + 1 && IsChain(data, hashes) && IsLoad(data[n * 4..], tail)
        && IsFinish(hashes[n], tail, |data|, g);
      ChainIsRounds(data, hashes, n);
      LoadUnique(data[n * 4..], tail, TailBytes(data, |data| % 4));
      FinishIff(hashes[n], tail, |data|, g);
    }
    if g == Hash(data) {
      var hashes: seq<Word> := seq(n + 1, i requires 0 <= i < n + 1 => Rounds(data, i));
      RoundsAreChain(data, hashes);
      FinishIff(hashes[n], TailBytes(data, |data| % 4), |data|, g);
      assert IsChain(data, hashes) && IsLoad(data[n * 4..], TailBytes(data, |data| % 4));
    }
  }
}
