/**
 From scratchpad words back to the convolution: padding by value, four channels
 per word, and the reordering of the reference sum into channel blocks.
 */
module Tiles {
  import opened Words
  import opened Sums
  import opened Mac
  import opened Cfu
  import opened Pipeline
  import opened Conv

  /** The word the driver sends where the tile leaves the image. */
  const PADDING: Word := 0x8080_8080

  /** Four channels of one input position. */
  function TileWord(cv: Conv, inY: int, inX: int, c: int): Word {
    if Inside(cv, inY, inX) then
      Load32(Pixel(cv, 0, inY, inX, c), Pixel(cv, 0, inY, inX, c + 1),
             Pixel(cv, 0, inY, inX, c + 2), Pixel(cv, 0, inY, inX, c + 3))
    else PADDING
  }

  /** Four channels of one filter tap. */
  function FilterWord(cv: Conv, ch: int, fy: int, fx: int, c: int): Word {
    Load32(Weight(cv, ch, fy, fx, c), Weight(cv, ch, fy, fx, c + 1),
           Weight(cv, ch, fy, fx, c + 2), Weight(cv, ch, fy, fx, c + 3))
  }

  /** The 6x6 input words behind the 4x4 outputs at (y, x), channels c to c+3. */
  function Tile(cv: Conv, y: int, x: int, c: int): (t: seq<Word>)
    ensures |t| == 36
  {
    seq(36, j requires 0 <= j < 36 => TileWord(cv, y - cv.padH + j / 6, x - cv.padW + j % 6, c))
  }

  /** The nine filter words of output channel ch, channels c to c+3. */
  function FilterBlock(cv: Conv, ch: int, c: int): (ws: seq<Word>)
    ensures |ws| == 9
  {
    seq(9, k requires 0 <= k < 9 => FilterWord(cv, ch, k / 3, k % 3, c))
  }

  /** What the driver assumes about the layer. */
  predicate Accelerable(cv: Conv) {
    && cv.batches == 1 && cv.filterH == 3 && cv.filterW == 3
    && cv.strideH == 1 && cv.strideW == 1 && cv.dilationH == 1 && cv.dilationW == 1
    && cv.inputOffset == 128 && cv.outputOffset == -128
  }

  lemma ActivationByte(p: Int8)
    ensures (Bits8(p) + 128) % 0x100 == p + 128
    ensures Signed8(Bits8(p)) == p
  {
  }

  lemma PaddingLanes()
    ensures Offset128(PADDING) == ZeroLanes
  {
  }

  lemma PaddingAddsNothing(w: Lanes)
    ensures Dot(ZeroLanes, w) == 0
  {
  }

  lemma PackedDot(p0: Int8, p1: Int8, p2: Int8, p3: Int8, w0: Int8, w1: Int8, w2: Int8, w3: Int8)
    ensures Dot(Offset128(Load32(p0, p1, p2, p3)), LanesOf(Load32(w0, w1, w2, w3)))
         == w0 * (p0 + 128) + w1 * (p1 + 128) + w2 * (p2 + 128) + w3 * (p3 + 128)
  {
    hide FromLanes, LanesOf, Dot;
    LanesBack(Lanes(Bits8(p0), Bits8(p1), Bits8(p2), Bits8(p3)));
    LanesBack(Lanes(Bits8(w0), Bits8(w1), Bits8(w2), Bits8(w3)));
    ActivationByte(p0); ActivationByte(p1); ActivationByte(p2); ActivationByte(p3);
    assert Offset128(Load32(p0, p1, p2, p3)) == Lanes(p0 + 128, p1 + 128, p2 + 128, p3 + 128);
    LaneDot(p0, p1, p2, p3, w0, w1, w2, w3);
  }

  lemma LaneDot(p0: Int8, p1: Int8, p2: Int8, p3: Int8, w0: Int8, w1: Int8, w2: Int8, w3: Int8)
    ensures Dot(Lanes(p0 + 128, p1 + 128, p2 + 128, p3 + 128), Lanes(Bits8(w0), Bits8(w1), Bits8(w2), Bits8(w3)))
         == w0 * (p0 + 128) + w1 * (p1 + 128) + w2 * (p2 + 128) + w3 * (p3 + 128)
  {
    ActivationByte(w0); ActivationByte(w1); ActivationByte(w2); ActivationByte(w3);
    hide Signed8, Bits8;
  }

  lemma SumOfFour(f: int -> int)
    ensures Sum(4, f) == f(0) + f(1) + f(2) + f(3)
  {
    assert Sum(3, f) == Sum(2, f) + f(2);
    assert Sum(1, f) == Sum(0, f) + f(0);
  }

  /** Four consecutive channels of one tap, starting at channel c. */
  ghost function Quad(cv: Conv, y: int, x: int, ch: int, fy: int, fx: int, c: int): int {
    Sum(4, Shift(TapTerms(cv, 0, y, x, ch, fy, fx), c))
  }

  /** One tap of one channel block: the padding word stands in for the skipped taps. */
  lemma TapOfBlock(cv: Conv, y: int, x: int, ch: int, fy: int, fx: int, c: int)
    requires Accelerable(cv)
    ensures Dot(Offset128(TileWord(cv, y - cv.padH + fy, x - cv.padW + fx, c)), LanesOf(FilterWord(cv, ch, fy, fx, c)))
         == Quad(cv, y, x, ch, fy, fx, c)
  {
    hide Dot, Offset128, LanesOf, Load32, Pixel, Weight;
    var inY, inX := y - cv.padH + fy, x - cv.padW + fx;
    SumOfFour(Shift(TapTerms(cv, 0, y, x, ch, fy, fx), c));
    if Inside(cv, inY, inX) {
      PackedDot(Pixel(cv, 0, inY, inX, c), Pixel(cv, 0, inY, inX, c + 1),
                Pixel(cv, 0, inY, inX, c + 2), Pixel(cv, 0, inY, inX, c + 3),
                Weight(cv, ch, fy, fx, c), Weight(cv, ch, fy, fx, c + 1),
                Weight(cv, ch, fy, fx, c + 2), Weight(cv, ch, fy, fx, c + 3));
    } else {
      PaddingLanes();
      PaddingAddsNothing(LanesOf(FilterWord(cv, ch, fy, fx, c)));
    }
  }

  lemma TileIndex(u: nat, k: nat)
    requires u < UNITS && k < 9
    ensures Tap(u, k) < 36 && Tap(u, k) / 6 == u / 4 + k / 3 && Tap(u, k) % 6 == u % 4 + k % 3
  {
  }

  /** Unit u of the array works on output (y + u/4, x + u%4). */
  lemma TileTap(cv: Conv, y: int, x: int, ch: int, c: int, u: nat, k: nat)
    requires Accelerable(cv) && u < UNITS && k < 9
    ensures TapDot(Tile(cv, y, x, c), FilterBlock(cv, ch, c), u, k)
         == Quad(cv, y + u / 4, x + u % 4, ch, k / 3, k % 3, c)
  {
    hide Dot, Offset128, LanesOf, TileWord, FilterWord, Quad, Tap;
    TileIndex(u, k);
    assert Tile(cv, y, x, c)[Tap(u, k)]
        == TileWord(cv, y + u / 4 - cv.padH + k / 3, x + u % 4 - cv.padW + k % 3, c);
    TapOfBlock(cv, y + u / 4, x + u % 4, ch, k / 3, k % 3, c);
  }

  /** Sum over channel block n, in the array's order. */
  ghost function BlockDot(cv: Conv, y: int, x: int, ch: int, u: nat, n: int): int
    requires u < UNITS
  {
    TileDot(Tile(cv, y, x, 4 * n), FilterBlock(cv, ch, 4 * n), u)
  }

  ghost function BlockDots(cv: Conv, y: int, x: int, ch: int, u: nat): int -> int
    requires u < UNITS
  {
    n => BlockDot(cv, y, x, ch, u, n)
  }

  /** Unit u after its first n channel blocks. */
  ghost function BlockSum(cv: Conv, y: int, x: int, ch: int, u: nat, n: nat): int
    requires u < UNITS
  {
    Sum(n, BlockDots(cv, y, x, ch, u))
  }

  /** Channel block n at tap k. */
  ghost function Quads(cv: Conv, y: int, x: int, ch: int): (int, int) -> int {
    (n, k) => Quad(cv, y, x, ch, k / 3, k % 3, 4 * n)
  }

  ghost function TapChannels(cv: Conv, y: int, x: int, ch: int): int -> int {
    k => ChannelSum(cv, 0, y, x, ch, k / 3, k % 3, cv.inD)
  }

  lemma BlockByTaps(cv: Conv, y: int, x: int, ch: int, u: nat, n: int)
    requires Accelerable(cv) && u < UNITS
    ensures BlockDot(cv, y, x, ch, u, n) == Sum(9, Row(Quads(cv, y + u / 4, x + u % 4, ch), n))
  {
    hide Tile, FilterBlock, Quad, TapDot;
    var taps := TapDots(Tile(cv, y, x, 4 * n), FilterBlock(cv, ch, 4 * n), u);
    var quads := Row(Quads(cv, y + u / 4, x + u % 4, ch), n);
    forall k | 0 <= k < 9
      ensures taps(k) == quads(k)
    {
      TileTap(cv, y, x, ch, 4 * n, u, k);
    }
    SumCong(9, taps, quads);
  }

  /** All channels of tap k, gathered from its blocks of four. */
  lemma TapByQuads(cv: Conv, y: int, x: int, ch: int, k: nat, n: nat)
    requires cv.inD == n * 4
    ensures TapChannels(cv, y, x, ch)(k) == Sum(n, Column(Quads(cv, y, x, ch), k))
  {
    hide TapTerms;
    SumBlocks(n, 4, TapTerms(cv, 0, y, x, ch, k / 3, k % 3), Column(Quads(cv, y, x, ch), k));
  }

  lemma TapsMakePatch(cv: Conv, y: int, x: int, ch: int)
    requires Accelerable(cv)
    ensures Sum(9, TapChannels(cv, y, x, ch)) == RefAcc(cv, 0, y, x, ch)
  {
    hide ChannelSum;
    var rows := PatchTerms(cv, 0, y, x, ch);
    forall fy | 0 <= fy < 3
      ensures rows(fy) == Sum(3, Block(TapChannels(cv, y, x, ch), 3, fy))
    {
      SumCong(3, Block(TapChannels(cv, y, x, ch), 3, fy), RowTerms(cv, 0, y, x, ch, fy));
    }
    SumBlocks(3, 3, TapChannels(cv, y, x, ch), rows);
  }

  /**
   The array's order (channel block, tap, lane) and the reference's order (filter row,
   filter column, channel) add up to the same accumulator.
   */
  lemma BlocksMakeReference(cv: Conv, y: int, x: int, ch: int, u: nat)
    requires Accelerable(cv) && cv.inD % 4 == 0 && u < UNITS
    ensures BlockSum(cv, y, x, ch, u, cv.inD / 4) == RefAcc(cv, 0, y + u / 4, x + u % 4, ch)
  {
    hide BlockDot, Quads, TapChannels, RefAcc, Sum;
    var n := cv.inD / 4;
    var oy, ox := y + u / 4, x + u % 4;
    forall i | 0 <= i < n
      ensures BlockDots(cv, y, x, ch, u)(i) == Sum(9, Row(Quads(cv, oy, ox, ch), i))
    {
      BlockByTaps(cv, y, x, ch, u, i);
    }
    forall k | 0 <= k < 9
      ensures TapChannels(cv, oy, ox, ch)(k) == Sum(n, Column(Quads(cv, oy, ox, ch), k))
    {
      TapByQuads(cv, oy, ox, ch, k, n);
    }
    SumSwap(n, 9, Quads(cv, oy, ox, ch), BlockDots(cv, y, x, ch, u), TapChannels(cv, oy, ox, ch));
    TapsMakePatch(cv, oy, ox, ch);
  }
}
