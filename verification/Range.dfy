/**
 The range of the 32-bit accumulators: every value one takes while the driver runs, command by
 command on the array's own state, and exactly which layers overflow it.
 */
module Range {
  import opened Words
  import opened Sums
  import opened Mac
  import opened Cfu
  import opened Pipeline
  import opened Conv
  import opened Tiles
  import opened Kernel
  import opened Writeback

  // ----- the array in the middle of a weight block -----

  /** How many taps have reached the accumulator once a block has sent j commands. */
  function TapsIn(j: nat): nat {
    if j < 3 then 0 else j - 3
  }

  /** Before the first tap arrives a quiet pipeline adds three zeros. */
  lemma QuietTerms(s: Arch, ws: seq<Word>, sel: nat, u: nat)
    requires s.Valid() && |ws| == 9 && sel < 8 && u < UNITS
    requires Drained(s.pe[u]) && s.tileW == 0
    ensures forall i :: 0 <= i < 3 ==> Terms(s, u, WeightBlock(ws, sel))(i) == 0
  {
    ZeroWeight(s.pe[u].im);
    ZeroWeight(Offset128(s.tile[s.addr[u]]));
    hide Dot, Offset128, LanesOf;
  }

  lemma PrefixTerms(s: Arch, ws: seq<Word>, sel: nat, u: nat, j: nat)
    requires s.Valid() && |ws| == 9 && sel < 8 && u < UNITS && j <= 12
    requires Drained(s.pe[u]) && s.tileW == 0
    ensures Sum(j, Terms(s, u, WeightBlock(ws, sel))) == Sum(TapsIn(j), TapDots(s.tile, ws, u))
  {
    hide Dot, Offset128, LanesOf, TapId, Off, Tap;
    var f := Terms(s, u, WeightBlock(ws, sel));
    QuietTerms(s, ws, sel, u);
    if j < 3 {
      SumZero(j, f);
    } else {
      SumZero(3, f);
      SumSplit(3, j - 3, f);
      forall k | 0 <= k < j - 3
        ensures f(3 + k) == TapDot(s.tile, ws, u, k)
      {
        TapAddress(u, k);
      }
      SumCong(j - 3, Shift(f, 3), TapDots(s.tile, ws, u));
    }
  }

  /** From a quiet array, j commands of a block leave the sum of the first j-3 taps in accumulator sel. */
  lemma BlockPrefix(s: Arch, ws: seq<Word>, sel: nat, u: nat, j: nat)
    requires s.Valid() && s.ctr == 0 && |ws| == 9 && sel < 8 && u < UNITS && j <= 12
    requires AllDrained(s) && s.tileW == 0
    ensures Run(s, WeightBlock(ws, sel), j).pe[u].acc
         == AddTo(s.pe[u].acc, sel, Sum(TapsIn(j), TapDots(s.tile, ws, u)))
  {
    hide Dot, Exec, Run, TapDots, Terms, StageIm, Sum;
    StreamUnit(s, WeightBlock(ws, sel), sel, u, j);
    PrefixTerms(s, ws, sel, u, j);
  }

  /** The accumulators only look at the 36 words of the tile. */
  lemma PrefixOfTile(tile: seq<Word>, ws: seq<Word>, u: nat, k: nat)
    requires |tile| >= 36 && |ws| == 9 && u < UNITS && k <= 9
    ensures Sum(k, TapDots(tile, ws, u)) == Sum(k, TapDots(tile[..36], ws, u))
  {
    hide Dot, Offset128, LanesOf, Tap;
    forall j | 0 <= j < 9
      ensures TapDots(tile, ws, u)(j) == TapDots(tile[..36], ws, u)(j)
    {
      TileIndex(u, j);
    }
    SumCong(k, TapDots(tile, ws, u), TapDots(tile[..36], ws, u));
  }

  /** A block is about to be sent: the array is quiet and its counter restarted. */
  ghost predicate Ready(s: Arch) {
    s.Valid() && AllDrained(s) && s.ctr == 0 && s.tileW == 0
  }

  /** func 4 makes a drained array ready and keeps its units and its scratchpad. */
  lemma RewindReady(s: Arch)
    requires s.Valid() && AllDrained(s)
    ensures Ready(Exec(s, REWIND)) && Exec(s, REWIND).pe == s.pe && Exec(s, REWIND).tile == s.tile
  {
    hide Exec;
    RewindKeeps(s);
  }

  // ----- several channels -----

  lemma QuadInRange(cv: Conv, y: int, x: int, ch: int, fy: int, fx: int, c: int)
    requires -127 <= cv.inputOffset <= 128
    ensures -(4 * PRODUCT_BOUND) <= Quad(cv, y, x, ch, fy, fx, c) <= 4 * PRODUCT_BOUND
  {
    hide TapTerm;
    forall l
      ensures -PRODUCT_BOUND <= Shift(TapTerms(cv, 0, y, x, ch, fy, fx), c)(l) <= PRODUCT_BOUND
    {
      TermBound(cv, 0, y, x, ch, fy, fx, c + l);
    }
    SumBound(4, Shift(TapTerms(cv, 0, y, x, ch, fy, fx), c), PRODUCT_BOUND);
  }

  /** The first k taps of channel block n, in unit u. */
  ghost function TapPrefix(cv: Conv, y: int, x: int, ch: int, u: nat, n: nat, k: nat): int
    requires u < UNITS
  {
    Sum(k, TapDots(Tile(cv, y, x, 4 * n), FilterBlock(cv, ch, 4 * n), u))
  }

  lemma TapPrefixInRange(cv: Conv, y: int, x: int, ch: int, u: nat, n: nat, k: nat)
    requires Accelerable(cv) && u < UNITS && k <= 9
    ensures -(k * (4 * PRODUCT_BOUND)) <= TapPrefix(cv, y, x, ch, u, n, k) <= k * (4 * PRODUCT_BOUND)
    ensures BlockDot(cv, y, x, ch, u, n) == TapPrefix(cv, y, x, ch, u, n, 9)
  {
    hide Tile, FilterBlock, TapDot, Quad;
    forall j | 0 <= j < k
      ensures -(4 * PRODUCT_BOUND) <= TapDots(Tile(cv, y, x, 4 * n), FilterBlock(cv, ch, 4 * n), u)(j) <= 4 * PRODUCT_BOUND
    {
      TileTap(cv, y, x, ch, 4 * n, u, j);
      QuadInRange(cv, y + u / 4, x + u % 4, ch, j / 3, j % 3, 4 * n);
    }
    SumBound(k, TapDots(Tile(cv, y, x, 4 * n), FilterBlock(cv, ch, 4 * n), u), 4 * PRODUCT_BOUND);
  }

  lemma BlockSumInRange(cv: Conv, y: int, x: int, ch: int, u: nat, n: nat)
    requires Accelerable(cv) && u < UNITS
    ensures -(n * (36 * PRODUCT_BOUND)) <= BlockSum(cv, y, x, ch, u, n) <= n * (36 * PRODUCT_BOUND)
  {
    hide BlockDot, TapPrefix;
    forall i | 0 <= i < n
      ensures -(36 * PRODUCT_BOUND) <= BlockDots(cv, y, x, ch, u)(i) <= 36 * PRODUCT_BOUND
    {
      TapPrefixInRange(cv, y, x, ch, u, i, 9);
    }
    SumBound(n, BlockDots(cv, y, x, ch, u), 36 * PRODUCT_BOUND);
  }

  lemma DepthBound(cv: Conv)
    requires Accelerable(cv) && cv.AccumulatorFits()
    ensures 9 * cv.inD * PRODUCT_BOUND < 0x8000_0000
  {
    assert cv.filterH * cv.filterW == 9;
  }

  /** Whole blocks and part of the next one, all within the depth of the layer. */
  lemma RunningSumFits(cv: Conv, y: int, x: int, ch: int, u: nat, n: nat, k: nat)
    requires Accelerable(cv) && cv.AccumulatorFits() && u < UNITS && k <= 9
    requires 4 * n <= cv.inD && (k > 0 ==> 4 * n + 4 <= cv.inD)
    ensures -0x8000_0000 <= BlockSum(cv, y, x, ch, u, n) + TapPrefix(cv, y, x, ch, u, n, k) < 0x8000_0000
  {
    hide BlockSum, TapPrefix;
    DepthBound(cv);
    BlockSumInRange(cv, y, x, ch, u, n);
    TapPrefixInRange(cv, y, x, ch, u, n, k);
    hide Accelerable, cv.AccumulatorFits;
    PrefixFits(BlockSum(cv, y, x, ch, u, n), TapPrefix(cv, y, x, ch, u, n, k), n, k, cv.inD);
  }

  lemma PrefixFits(blocks: int, taps: int, n: nat, k: nat, depth: nat)
    requires -(n * (36 * PRODUCT_BOUND)) <= blocks <= n * (36 * PRODUCT_BOUND)
    requires -(k * (4 * PRODUCT_BOUND)) <= taps <= k * (4 * PRODUCT_BOUND)
    requires k <= 9 && 4 * n <= depth && (k > 0 ==> 4 * n + 4 <= depth) && 9 * depth * PRODUCT_BOUND < 0x8000_0000
    ensures -0x8000_0000 <= blocks + taps < 0x8000_0000
  {
  }

  lemma WholeBlocksFit(cv: Conv, y: int, x: int, ch: int, u: nat, n: nat)
    requires Accelerable(cv) && cv.AccumulatorFits() && u < UNITS && 4 * n <= cv.inD
    ensures Signed32(Wrap(BlockSum(cv, y, x, ch, u, n))) as int == BlockSum(cv, y, x, ch, u, n)
  {
    hide BlockSum, Wrap, Signed32;
    RunningSumFits(cv, y, x, ch, u, n, 0);
    WrapFits(BlockSum(cv, y, x, ch, u, n));
  }

  /** Accumulator i of unit u after j commands of channel block n. */
  lemma SelectedFits(s: Arch, cv: Conv, oc: nat, y: nat, x: nat, n: nat, i: nat, u: nat, j: nat)
    requires Accelerable(cv) && cv.AccumulatorFits() && i < L && u < UNITS && j <= 12 && 4 * n + 4 <= cv.inD
    requires Ready(s) && s.tile[..36] == Tile(cv, y, x, 4 * n) && Accumulated(s, cv, oc, y, x, n, i)
    ensures Signed32(Run(s, WeightBlock(FilterBlock(cv, oc + i, 4 * n), i), j).pe[u].acc[i]) as int
         == BlockSum(cv, y, x, oc + i, u, n) + TapPrefix(cv, y, x, oc + i, u, n, TapsIn(j))
  {
    hide Exec, Run, Tile, FilterBlock, TapDots, Sum, BlockSum, Wrap, Signed32, Accelerable;
    var ws := FilterBlock(cv, oc + i, 4 * n);
    BlockPrefix(s, ws, i, u, j);
    PrefixOfTile(s.tile, ws, u, TapsIn(j));
    WrapAdd(BlockSum(cv, y, x, oc + i, u, n), TapPrefix(cv, y, x, oc + i, u, n, TapsIn(j)));
    RunningSumFits(cv, y, x, oc + i, u, n, TapsIn(j));
    WrapFits(BlockSum(cv, y, x, oc + i, u, n) + TapPrefix(cv, y, x, oc + i, u, n, TapsIn(j)));
  }

  /**
   Multi-channel branch: after every single command of every weight block, all eight accumulators of
   every unit hold, as signed registers, exactly the partial sum they stand for. None ever wraps.
   */
  lemma EveryAccumulatorValueFits(s: Arch, cv: Conv, oc: nat, y: nat, x: nat, n: nat, i: nat, u: nat, j: nat)
    requires Accelerable(cv) && cv.AccumulatorFits() && i < L && u < UNITS && j <= 12 && 4 * n + 4 <= cv.inD
    requires Ready(s) && s.tile[..36] == Tile(cv, y, x, 4 * n) && Accumulated(s, cv, oc, y, x, n, i)
    ensures var acc := Run(s, WeightBlock(FilterBlock(cv, oc + i, 4 * n), i), j).pe[u].acc;
            && |acc| == L
            && Signed32(acc[i]) as int
               == BlockSum(cv, y, x, oc + i, u, n) + TapPrefix(cv, y, x, oc + i, u, n, TapsIn(j))
            && forall k :: 0 <= k < L && k != i ==>
                 Signed32(acc[k]) as int == BlockSum(cv, y, x, oc + k, u, if k < i then n + 1 else n)
  {
    hide Exec, Run, Tile, FilterBlock, TapPrefix, Sum, BlockSum, Wrap, Signed32, Accelerable, cv.AccumulatorFits;
    SelectedFits(s, cv, oc, y, x, n, i, u, j);
    BlockPrefix(s, FilterBlock(cv, oc + i, 4 * n), i, u, j);
    var acc := Run(s, WeightBlock(FilterBlock(cv, oc + i, 4 * n), i), j).pe[u].acc;
    forall k | 0 <= k < L && k != i
      ensures Signed32(acc[k]) as int == BlockSum(cv, y, x, oc + k, u, if k < i then n + 1 else n)
    {
      assert acc[k] == s.pe[u].acc[k];
      WholeBlocksFit(cv, y, x, oc + k, u, if k < i then n + 1 else n);
    }
  }

  // ----- a single channel -----

  /** The first k taps of the single-channel branch. */
  ghost function SinglePrefix(cv: Conv, y: int, x: int, ch: int, u: nat, k: nat): int
    requires u < UNITS
  {
    Sum(k, TapDots(SingleTile(cv, y, x), SingleFilter(cv, ch), u))
  }

  lemma SinglePrefixInRange(cv: Conv, y: int, x: int, ch: int, u: nat, k: nat)
    requires Supported(cv) && cv.inD == 1 && u < UNITS && k <= 9
    ensures -0x8000_0000 <= SinglePrefix(cv, y, x, ch, u, k) < 0x8000_0000
    ensures SinglePrefix(cv, y, x, ch, u, 9) == RefAcc(cv, 0, y + u / 4, x + u % 4, ch)
  {
    hide SingleTile, SingleFilter, TapDot, RefAcc, TapTerm;
    var oy, ox := y + u / 4, x + u % 4;
    forall j | 0 <= j < k
      ensures -PRODUCT_BOUND <= TapDots(SingleTile(cv, y, x), SingleFilter(cv, ch), u)(j) <= PRODUCT_BOUND
    {
      SingleTap(cv, y, x, ch, u, j);
      TermBound(cv, 0, oy, ox, ch, j / 3, j % 3, 0);
      var f := TapTerms(cv, 0, oy, ox, ch, j / 3, j % 3);
      assert Sum(1, f) == Sum(0, f) + f(0);
    }
    SumBound(k, TapDots(SingleTile(cv, y, x), SingleFilter(cv, ch), u), PRODUCT_BOUND);
    SingleSum(cv, y, x, ch, u);
  }

  lemma SingleSelectedFits(s: Arch, cv: Conv, oc: nat, y: nat, x: nat, i: nat, u: nat, j: nat)
    requires Supported(cv) && cv.inD == 1 && i < L && u < UNITS && j <= 12
    requires Ready(s) && s.tile[..36] == SingleTile(cv, y, x) && SingleDone(s, cv, oc, y, x, i)
    ensures Signed32(Run(s, WeightBlock(SingleFilter(cv, oc + i), i), j).pe[u].acc[i]) as int
         == SinglePrefix(cv, y, x, oc + i, u, TapsIn(j))
  {
    hide Exec, Run, SingleTile, SingleFilter, TapDots, Sum, Wrap, Signed32, RefAcc, Supported;
    BlockPrefix(s, SingleFilter(cv, oc + i), i, u, j);
    PrefixOfTile(s.tile, SingleFilter(cv, oc + i), u, TapsIn(j));
    SinglePrefixInRange(cv, y, x, oc + i, u, TapsIn(j));
    WrapFits(SinglePrefix(cv, y, x, oc + i, u, TapsIn(j)));
  }

  /** Single-channel branch: the same after every command, here without any condition on the layer's size. */
  lemma EverySingleValueFits(s: Arch, cv: Conv, oc: nat, y: nat, x: nat, i: nat, u: nat, j: nat)
    requires Supported(cv) && cv.inD == 1 && i < L && u < UNITS && j <= 12
    requires Ready(s) && s.tile[..36] == SingleTile(cv, y, x) && SingleDone(s, cv, oc, y, x, i)
    ensures var acc := Run(s, WeightBlock(SingleFilter(cv, oc + i), i), j).pe[u].acc;
            && |acc| == L
            && Signed32(acc[i]) as int == SinglePrefix(cv, y, x, oc + i, u, TapsIn(j))
            && forall k :: 0 <= k < L && k != i ==>
                 Signed32(acc[k]) as int == if k < i then RefAcc(cv, 0, y + u / 4, x + u % 4, oc + k) else 0
  {
    hide Exec, Run, SingleTile, SingleFilter, SinglePrefix, Sum, Wrap, Signed32, RefAcc, Supported;
    SingleSelectedFits(s, cv, oc, y, x, i, u, j);
    BlockPrefix(s, SingleFilter(cv, oc + i), i, u, j);
    ZeroRegister();
    var acc := Run(s, WeightBlock(SingleFilter(cv, oc + i), i), j).pe[u].acc;
    forall k | 0 <= k < L && k != i
      ensures Signed32(acc[k]) as int == if k < i then RefAcc(cv, 0, y + u / 4, x + u % 4, oc + k) else 0
    {
      assert acc[k] == s.pe[u].acc[k];
      SinglePrefixInRange(cv, y, x, oc + k, u, 9);
      WrapFits(RefAcc(cv, 0, y + u / 4, x + u % 4, oc + k));
    }
  }

  lemma ZeroRegister()
    ensures Signed32(0) == 0
  {
  }

  // ----- which layers overflow -----

  /** The same layer with another image and other weights. */
  function With(cv: Conv, image: seq<Int8>, filter: seq<Int8>): Conv {
    cv.(input := image, filter := filter)
  }

  /** All nine taps of output (y, x) lie inside the image. */
  predicate Interior(cv: Conv, y: int, x: int) {
    && Inside(cv, y - cv.padH, x - cv.padW)
    && Inside(cv, y - cv.padH + 2, x - cv.padW + 2)
  }

  /** The most negative layer of this shape: every byte of the image 127, every weight -128. */
  function Extreme(cv: Conv): Conv {
    With(cv, seq(|cv.input|, _ => 127), seq(|cv.filter|, _ => -128))
  }

  lemma ExtremeTerm(cv: Conv, y: int, x: int, ch: nat, fy: int, fx: int, c: int)
    requires cv.Valid() && Accelerable(cv) && Interior(cv, y, x) && ch < cv.outD
    requires 0 <= fy < 3 && 0 <= fx < 3 && 0 <= c < cv.inD
    ensures TapTerm(Extreme(cv), 0, y, x, ch, fy, fx, c) == -PRODUCT_BOUND
  {
    var inY, inX := y - cv.padH + fy, x - cv.padW + fx;
    assert Inside(cv, inY, inX);
    OffsetBounds(1, cv.inH, cv.inW, cv.inD, 0, inY, inX, c);
    OffsetBounds(cv.outD, 3, 3, cv.inD, ch, fy, fx, c);
    hide Offset;
    assert Pixel(Extreme(cv), 0, inY, inX, c) == 127;
    assert Weight(Extreme(cv), ch, fy, fx, c) == -128;
  }

  lemma ExtremeSum(cv: Conv, y: int, x: int, ch: nat)
    requires cv.Valid() && Accelerable(cv) && Interior(cv, y, x) && ch < cv.outD
    ensures RefAcc(Extreme(cv), 0, y, x, ch) == -(9 * cv.inD * PRODUCT_BOUND)
  {
    hide TapTerm, Interior;
    var e := Extreme(cv);
    var perTap := cv.inD * -PRODUCT_BOUND;
    forall fy, fx | 0 <= fy < 3 && 0 <= fx < 3
      ensures ChannelSum(e, 0, y, x, ch, fy, fx, e.inD) == perTap
    {
      forall c | 0 <= c < cv.inD
        ensures TapTerms(e, 0, y, x, ch, fy, fx)(c) == -PRODUCT_BOUND
      {
        ExtremeTerm(cv, y, x, ch, fy, fx, c);
      }
      SumConstant(cv.inD, TapTerms(e, 0, y, x, ch, fy, fx), -PRODUCT_BOUND);
    }
    forall fy | 0 <= fy < 3
      ensures RowSum(e, 0, y, x, ch, fy, 3) == 3 * perTap
    {
      SumConstant(3, RowTerms(e, 0, y, x, ch, fy), perTap);
    }
    SumConstant(3, PatchTerms(e, 0, y, x, ch), 3 * perTap);
  }

  /** Reading an output's accumulator back gives its sum for every image and every set of weights. */
  ghost predicate AlwaysExact(cv: Conv, y: int, x: int, ch: nat) {
    forall image: seq<Int8>, filter: seq<Int8> | |image| == |cv.input| && |filter| == |cv.filter| ::
      ReadBack(With(cv, image, filter), y, x, ch) as int == RefAcc(With(cv, image, filter), 0, y, x, ch)
  }

  /**
   Whether a layer can overflow is a matter of its depth: an output whose taps all lie inside the image
   reads back exactly for every image and filter if and only if 9 * inD products of -32640 fit 32 bits.
   */
  lemma ReadBackExactIff(cv: Conv, y: int, x: int, ch: nat)
    requires cv.Valid() && Accelerable(cv) && Interior(cv, y, x) && ch < cv.outD
    ensures AlwaysExact(cv, y, x, ch) <==> 9 * cv.inD * PRODUCT_BOUND <= 0x8000_0000
  {
    hide RefAcc, Interior, Wrap, Signed32;
    if 9 * cv.inD * PRODUCT_BOUND <= 0x8000_0000 {
      forall image: seq<Int8>, filter: seq<Int8> | |image| == |cv.input| && |filter| == |cv.filter|
        ensures ReadBack(With(cv, image, filter), y, x, ch) as int == RefAcc(With(cv, image, filter), 0, y, x, ch)
      {
        ShallowFits(With(cv, image, filter), y, x, ch);
      }
    } else {
      var e := Extreme(cv);
      ExtremeSum(cv, y, x, ch);
      WrapFits(RefAcc(e, 0, y, x, ch));
      assert ReadBack(e, y, x, ch) as int != RefAcc(e, 0, y, x, ch);
    }
  }

  lemma ShallowFits(cv: Conv, y: int, x: int, ch: nat)
    requires Accelerable(cv) && 9 * cv.inD * PRODUCT_BOUND <= 0x8000_0000
    ensures ReadBack(cv, y, x, ch) as int == RefAcc(cv, 0, y, x, ch)
  {
    hide RefAcc, ReadBack;
    SumInRange(cv, 0, y, x, ch);
    assert cv.FilterSize() == 9 * cv.inD;
    hide cv.FilterSize;
    ReadBackFits(cv, y, x, ch);
  }

  /** A layer the driver takes and gets wrong: depth 7312, every byte of the image 127, every weight -128. */
  function DeepLayer(): Conv {
    Conv(1, 4, 4, 7312, 4, 4, 8, 3, 3, 1, 1, 1, 1, 1, 1, 128, -128, -128, 127,
         seq(116992, _ => 127), seq(526464, _ => -128), None, seq(8, _ => 0), seq(8, _ => 0))
  }

  lemma DeepLayerOverflows()
    ensures Supported(DeepLayer())
    ensures RefAcc(DeepLayer(), 0, 1, 1, 0) == -0x8007_7800
    ensures ReadBack(DeepLayer(), 1, 1, 0) == 0x7ff8_8800
  {
    hide RefAcc;
    var cv := DeepLayer();
    assert Extreme(cv) == cv;
    ExtremeSum(cv, 1, 1, 0);
  }
}
