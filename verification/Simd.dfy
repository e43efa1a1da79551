/**
 The depth-12 convolution of
 proj/example_renode/src/tensorflow/lite/kernels/internal/reference/integer_ops/conv_simd.h,
 driving the clocked CFU of `Renode`.
 */
module Simd {
  import opened Words
  import opened Sums
  import opened Conv
  import opened Tiles
  import opened Renode
  import Kernel
  import Writeback

  /** What the kernel assumes: depth 12, a 3x3 filter, stride and dilation 1, no padding. */
  ghost predicate Supported(cv: Conv) {
    && cv.Valid() && cv.inD == 12 && cv.filterH == 3 && cv.filterW == 3
    && cv.strideH == 1 && cv.strideW == 1 && cv.dilationH == 1 && cv.dilationW == 1
    && cv.padH == 0 && cv.padW == 0 && cv.inputOffset == 128 && cv.outputOffset == -128
  }

  lemma PackedProducts(p0: Int8, p1: Int8, p2: Int8, p3: Int8, w0: Int8, w1: Int8, w2: Int8, w3: Int8)
    ensures FourProducts(Load32(p0, p1, p2, p3), Load32(w0, w1, w2, w3))
         == w0 * (p0 + 128) + w1 * (p1 + 128) + w2 * (p2 + 128) + w3 * (p3 + 128)
  {
    hide FromLanes, LanesOf, LaneProduct;
    LanesBack(Lanes(Bits8(p0), Bits8(p1), Bits8(p2), Bits8(p3)));
    LanesBack(Lanes(Bits8(w0), Bits8(w1), Bits8(w2), Bits8(w3)));
    OneLane(p0, w0);
    OneLane(p1, w1);
    OneLane(p2, w2);
    OneLane(p3, w3);
  }

  lemma OneLane(p: Int8, w: Int8)
    ensures LaneProduct(Bits8(p), Bits8(w)) == w * (p + 128)
  {
    LaneFits(Bits8(p), Bits8(w));
    ActivationByte(p);
    ActivationByte(w);
    hide Bits8, Signed8, LaneProduct;
  }

  ghost function Loaded(cv: Conv, b: int, y: int, x: int, c: int): Word {
    Load32(Pixel(cv, b, y, x, c), Pixel(cv, b, y, x, c + 1), Pixel(cv, b, y, x, c + 2), Pixel(cv, b, y, x, c + 3))
  }

  /** Four channels of one tap. */
  lemma FourChannels(cv: Conv, b: int, y: int, x: int, ch: int, fy: int, fx: int, c: nat)
    requires Supported(cv) && Inside(cv, y + fy, x + fx)
    ensures ChannelSum(cv, b, y, x, ch, fy, fx, c + 4)
         == ChannelSum(cv, b, y, x, ch, fy, fx, c)
            + FourProducts(Loaded(cv, b, y + fy, x + fx, c), FilterWord(cv, ch, fy, fx, c))
  {
    hide FourProducts, Load32, Pixel, Weight;
    var f := TapTerms(cv, b, y, x, ch, fy, fx);
    SumSplit(c, 4, f);
    SumOfFour(Shift(f, c));
    PackedProducts(Pixel(cv, b, y + fy, x + fx, c), Pixel(cv, b, y + fy, x + fx, c + 1),
                   Pixel(cv, b, y + fy, x + fx, c + 2), Pixel(cv, b, y + fy, x + fx, c + 3),
                   Weight(cv, ch, fy, fx, c), Weight(cv, ch, fy, fx, c + 1),
                   Weight(cv, ch, fy, fx, c + 2), Weight(cv, ch, fy, fx, c + 3));
  }

  /** `cfu_op0`: funct3 is zero. */
  method CfuOp0(cfu: SimdCfu, funct7: nat, in0: Word, in1: Word) returns (rd: Word)
    requires cfu.Valid() && cfu.CmdReady() && funct7 < 128
    modifies cfu.Repr
    ensures cfu.Valid() && cfu.CmdReady()
    ensures rd == cfu.mac.output == Renode.Accumulated(old(cfu.mac.output), funct7, in0, in1)
  {
    hide Renode.Accumulated;
    var c := Cmd(8 * funct7, in0, in1);
    assert c.functionId % 8 == 0 && c.Funct7() == funct7;
    rd := cfu.CfuOp(c);
  }

  /** The channel loop of one tap inside the image. */
  method AddTap(cfu: SimdCfu, cv: Conv, b: nat, y: nat, x: nat, ch: nat, fy: nat, fx: nat, ghost start: int)
    returns (acc: Word)
    requires Supported(cv) && b < cv.batches && ch < cv.outD && fy < 3 && fx < 3
    requires Inside(cv, y + fy, x + fx)
    requires cfu.Valid() && cfu.CmdReady() && cfu.mac.output == Wrap(start)
    modifies cfu.Repr
    ensures cfu.Valid() && cfu.CmdReady() && acc == cfu.mac.output == Wrap(start + ChannelSum(cv, b, y, x, ch, fy, fx, 12))
  {
    hide ChannelSum, FourProducts, Load32, Offset, Wrap;
    acc := cfu.mac.output;
    ghost var total := start;
    NoChannels(cv, b, y, x, ch, fy, fx);
    var c := 0;
    while c < cv.inD
      invariant cfu.Valid() && cfu.CmdReady() && c % 4 == 0 && c <= 12 && acc == cfu.mac.output == Wrap(total)
      invariant total == start + ChannelSum(cv, b, y, x, ch, fy, fx, c)
    {
      OffsetBounds(cv.batches, cv.inH, cv.inW, cv.inD, b, y + fy, x + fx, c);
      OffsetBounds(cv.batches, cv.inH, cv.inW, cv.inD, b, y + fy, x + fx, c + 3);
      OffsetBounds(cv.outD, 3, 3, cv.inD, ch, fy, fx, c);
      OffsetBounds(cv.outD, 3, 3, cv.inD, ch, fy, fx, c + 3);
      Kernel.NextChannels(cv.inH, cv.inW, cv.inD, b, y + fy, x + fx, c);
      Kernel.NextChannels(3, 3, cv.inD, ch, fy, fx, c);
      var inputVal := Kernel.LoadWord(cv.input, Offset(cv.inH, cv.inW, cv.inD, b, y + fy, x + fx, c));
      var filterVal := Kernel.LoadWord(cv.filter, Offset(3, 3, cv.inD, ch, fy, fx, c));
      FourChannels(cv, b, y, x, ch, fy, fx, c);
      WrapAdd(total, FourProducts(inputVal, filterVal));
      acc := CfuOp0(cfu, 0, inputVal, filterVal);
      total := total + FourProducts(inputVal, filterVal);
      c := c + 4;
    }
  }

  lemma NoChannels(cv: Conv, b: int, y: int, x: int, ch: int, fy: int, fx: int)
    ensures ChannelSum(cv, b, y, x, ch, fy, fx, 0) == 0
  {
  }

  /** Reset, then every tap inside the image. */
  method Accumulate(cfu: SimdCfu, cv: Conv, b: nat, y: nat, x: nat, ch: nat) returns (acc: Word)
    requires Supported(cv) && b < cv.batches && ch < cv.outD
    requires cfu.Valid() && cfu.CmdReady()
    modifies cfu.Repr
    ensures cfu.Valid() && cfu.CmdReady()
    ensures acc == Wrap(RefAcc(cv, b, y, x, ch))
  {
    hide ChannelSum, RowSum, PatchSum, RefAcc, FourProducts, Wrap;
    acc := CfuOp0(cfu, 1, 0, 0);
    ZeroWraps();
    SumSteps(cv, b, y, x, ch, 0, 0);
    for fy := 0 to 3
      invariant cfu.Valid() && cfu.CmdReady() && acc == cfu.mac.output == Wrap(PatchSum(cv, b, y, x, ch, fy))
    {
      SumSteps(cv, b, y, x, ch, fy, 0);
      for fx := 0 to 3
        invariant cfu.Valid() && cfu.CmdReady() && acc == cfu.mac.output
        invariant acc == Wrap(PatchSum(cv, b, y, x, ch, fy) + RowSum(cv, b, y, x, ch, fy, fx))
      {
        SumSteps(cv, b, y, x, ch, fy, fx);
        var inY, inX := y + fy, x + fx;
        var isPointInsideImage := 0 <= inX < cv.inW && 0 <= inY < cv.inH;
        if !isPointInsideImage {
          SkippedHere(cv, b, y, x, ch, fy, fx);
          continue;
        }
        acc := AddTap(cfu, cv, b, y, x, ch, fy, fx, PatchSum(cv, b, y, x, ch, fy) + RowSum(cv, b, y, x, ch, fy, fx));
      }
    }
  }

  lemma SkippedHere(cv: Conv, b: int, y: int, x: int, ch: int, fy: int, fx: int)
    requires Supported(cv) && !Inside(cv, y + fy, x + fx)
    ensures ChannelSum(cv, b, y, x, ch, fy, fx, cv.inD) == 0
  {
    hide TapTerm, ChannelSum, TapTerms;
    SkippedTap(cv, b, y, x, ch, fy, fx);
  }

  lemma SumSteps(cv: Conv, b: int, y: int, x: int, ch: int, fy: int, fx: nat)
    requires Supported(cv)
    ensures RowSum(cv, b, y, x, ch, fy, 0) == 0 && PatchSum(cv, b, y, x, ch, 0) == 0
    ensures RowSum(cv, b, y, x, ch, fy, fx + 1)
         == RowSum(cv, b, y, x, ch, fy, fx) + ChannelSum(cv, b, y, x, ch, fy, fx, cv.inD)
    ensures fy >= 0 ==> PatchSum(cv, b, y, x, ch, fy + 1) == PatchSum(cv, b, y, x, ch, fy) + RowSum(cv, b, y, x, ch, fy, 3)
    ensures RefAcc(cv, b, y, x, ch) == PatchSum(cv, b, y, x, ch, 3)
  {
    hide ChannelSum;
  }

  lemma ZeroWraps()
    ensures Wrap(0) == 0
  {
  }

  lemma AccumulatorReads(cv: Conv, b: int, y: int, x: int, ch: int)
    requires Supported(cv)
    ensures Signed32(Wrap(RefAcc(cv, b, y, x, ch))) as int == RefAcc(cv, b, y, x, ch)
  {
    hide RefAcc;
    AccumulatorInRange(cv, b, y, x, ch);
    WrapFits(RefAcc(cv, b, y, x, ch));
  }

  /** The SIMD kernel writes exactly the reference tensor, for every image, filter and batch count. */
  method SimdConvPerChannel(cfu: SimdCfu, cv: Conv, rescale: Rescale, output: array<Int8>)
    requires cfu.Valid() && cfu.CmdReady() && output !in cfu.Repr
    requires Supported(cv) && output.Length == cv.OutputSize()
    modifies cfu.Repr, output
    ensures cfu.Valid() && cfu.CmdReady()
    ensures output[..] == RefOutput(cv, rescale)
  {
    hide RefOutput, WrittenBefore, RefAcc, Offset, Place, CoordOf, Wrap, Signed32;
    ghost var expected := RefOutput(cv, rescale);
    NothingWritten(cv, expected, output[..]);
    for b := 0 to cv.batches
      invariant cfu.Valid() && cfu.CmdReady()
      invariant WrittenBefore(cv, expected, output[..], b, 0, 0, 0)
    {
      for y := 0 to cv.outH
        invariant cfu.Valid() && cfu.CmdReady()
        invariant WrittenBefore(cv, expected, output[..], b, y, 0, 0)
      {
        for x := 0 to cv.outW
          invariant cfu.Valid() && cfu.CmdReady()
          invariant WrittenBefore(cv, expected, output[..], b, y, x, 0)
        {
          for ch := 0 to cv.outD
            invariant cfu.Valid() && cfu.CmdReady()
            invariant WrittenBefore(cv, expected, output[..], b, y, x, ch)
          {
            var acc := Accumulate(cfu, cv, b, y, x, ch);
            AccumulatorReads(cv, b, y, x, ch);
            var byte := Writeback.Requantise(cv, rescale, acc, ch, ch);
            var k := Coord(b, y, x, ch);
            PlaceThenCoord(cv, k);
            ExpectedAt(cv, rescale, k);
            WrittenNext(cv, expected, output[..], k);
            ghost var before := output[..];
            output[Place(cv, k)] := byte;
            assert output[..] == before[Place(cv, k) := expected[Place(cv, k)]];
          }
          RowMajor(cv, expected, output[..], b, y, x);
        }
        RowMajor(cv, expected, output[..], b, y, 0);
      }
      RowMajor(cv, expected, output[..], b, 0, 0);
    }
    EverythingWritten(cv, expected, output[..]);
  }
}
