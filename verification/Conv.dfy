/**
 The int8 per-channel convolution: what it means, and the reference loops of
 proj/baseline/src/tensorflow/lite/kernels/internal/reference/integer_ops/conv.h.
 */
module Conv {
  import opened Words
  import opened Sums
  import opened Arith

  /** The largest magnitude of one product: 128 * 255. */
  const PRODUCT_BOUND := 32640

  /** MultiplyByQuantizedMultiplier, the same unknown function for every kernel. */
  type Rescale = (Int32, Int32, Int32) -> Int32

  /** Parameters and constant tensors of one call. */
  datatype Conv = Conv(
    batches: nat,
    inH: nat, inW: nat, inD: nat,
    outH: nat, outW: nat, outD: nat,
    filterH: nat, filterW: nat,
    strideH: int, strideW: int, dilationH: int, dilationW: int,
    padH: int, padW: int,
    inputOffset: int, outputOffset: Int32, actMin: Int32, actMax: Int32,
    input: seq<Int8>, filter: seq<Int8>, bias: Option<seq<Int32>>,
    multiplier: seq<Int32>, shift: seq<Int32>)
  {
    ghost predicate Valid() {
      && |input| == batches * inH * inW * inD
      && |filter| == outD * filterH * filterW * inD
      && (bias.Some? ==> |bias.value| == outD)
      && |multiplier| == outD && |shift| == outD
      && actMin <= actMax
    }

    function OutputSize(): nat {
      batches * outH * outW * outD
    }

    /** How many products one accumulator takes. */
    function FilterSize(): nat {
      filterH * filterW * inD
    }

    /** The largest possible sum of products stays inside int32_t. */
    ghost predicate AccumulatorFits() {
      FilterSize() * PRODUCT_BOUND < 0x8000_0000 && -127 <= inputOffset <= 128
    }
  }

  /** Row-major index into a tensor whose last three dimensions are h, w, d. */
  function Offset(h: int, w: int, d: int, b: int, y: int, x: int, c: int): int {
    ((b * h + y) * w + x) * d + c
  }

  function At(s: seq<Int8>, i: int): Int8 {
    if 0 <= i < |s| then s[i] else 0
  }

  function Inside(cv: Conv, y: int, x: int): bool {
    0 <= x < cv.inW && 0 <= y < cv.inH
  }

  function Pixel(cv: Conv, b: int, y: int, x: int, c: int): Int8 {
    At(cv.input, Offset(cv.inH, cv.inW, cv.inD, b, y, x, c))
  }

  function Weight(cv: Conv, ch: int, fy: int, fx: int, c: int): Int8 {
    At(cv.filter, Offset(cv.filterH, cv.filterW, cv.inD, ch, fy, fx, c))
  }

  /** One product of the reference sum; a tap outside the image is skipped. */
  function TapTerm(cv: Conv, b: int, y: int, x: int, ch: int, fy: int, fx: int, c: int): int {
    var inY := y * cv.strideH - cv.padH + cv.dilationH * fy;
    var inX := x * cv.strideW - cv.padW + cv.dilationW * fx;
    if Inside(cv, inY, inX) then Weight(cv, ch, fy, fx, c) * (Pixel(cv, b, inY, inX, c) + cv.inputOffset) else 0
  }

  ghost function TapTerms(cv: Conv, b: int, y: int, x: int, ch: int, fy: int, fx: int): int -> int {
    c => TapTerm(cv, b, y, x, ch, fy, fx, c)
  }

  ghost function ChannelSum(cv: Conv, b: int, y: int, x: int, ch: int, fy: int, fx: int, n: nat): int {
    Sum(n, TapTerms(cv, b, y, x, ch, fy, fx))
  }

  ghost function RowTerms(cv: Conv, b: int, y: int, x: int, ch: int, fy: int): int -> int {
    fx => ChannelSum(cv, b, y, x, ch, fy, fx, cv.inD)
  }

  ghost function RowSum(cv: Conv, b: int, y: int, x: int, ch: int, fy: int, n: nat): int {
    Sum(n, RowTerms(cv, b, y, x, ch, fy))
  }

  ghost function PatchTerms(cv: Conv, b: int, y: int, x: int, ch: int): int -> int {
    fy => RowSum(cv, b, y, x, ch, fy, cv.filterW)
  }

  ghost function PatchSum(cv: Conv, b: int, y: int, x: int, ch: int, n: nat): int {
    Sum(n, PatchTerms(cv, b, y, x, ch))
  }

  /** The mathematical accumulator of output (b, y, x, ch), before bias. */
  ghost function RefAcc(cv: Conv, b: int, y: int, x: int, ch: int): int {
    PatchSum(cv, b, y, x, ch, cv.filterH)
  }

  function Clamp(v: Int32, lo: Int32, hi: Int32): Int32 {
    var raised := if v < lo then lo else v;
    if hi < raised then hi else raised
  }

  /** Bias, rescale, output offset, clamp, store: `scale` is the channel whose multiplier is used. */
  function Finish(cv: Conv, rescale: Rescale, acc: Int32, ch: nat, scale: nat): Int8
    requires cv.Valid() && ch < cv.outD && scale < cv.outD
  {
    var biased := if cv.bias.Some? then Add32(acc, cv.bias.value[ch]) else acc;
    var scaled := Add32(rescale(biased, cv.multiplier[scale], cv.shift[scale]), cv.outputOffset);
    ToInt8(Clamp(scaled, cv.actMin, cv.actMax) as int)
  }

  // ----- the accumulator bound -----

  lemma TermBound(cv: Conv, b: int, y: int, x: int, ch: int, fy: int, fx: int, c: int)
    requires -127 <= cv.inputOffset <= 128
    ensures -PRODUCT_BOUND <= TapTerm(cv, b, y, x, ch, fy, fx, c) <= PRODUCT_BOUND
  {
    hide Weight, Pixel;
    var inY := y * cv.strideH - cv.padH + cv.dilationH * fy;
    var inX := x * cv.strideW - cv.padW + cv.dilationW * fx;
    ProductBound(Weight(cv, ch, fy, fx, c), Pixel(cv, b, inY, inX, c) + cv.inputOffset);
  }

  lemma ProductBound(w: Int8, a: int)
    requires -255 <= a <= 255
    ensures -PRODUCT_BOUND <= w * a <= PRODUCT_BOUND
  {
    var m: int := if w < 0 then -(w as int) else w;
    var n: nat := if a < 0 then -a else a;
    MulMono(m, 128, n);
    MulMono(0, m, n);
    assert w * a == if (w < 0) == (a < 0) then m * n else -(m * n);
  }

  /** The limit the source documents, 2^16 products, is enough. */
  lemma DocumentedLimit(cv: Conv)
    requires cv.FilterSize() <= 0x1_0000 && -127 <= cv.inputOffset <= 128
    ensures cv.AccumulatorFits()
  {
    MulMono(cv.FilterSize(), 0x1_0000, PRODUCT_BOUND);
  }

  lemma SumInRange(cv: Conv, b: int, y: int, x: int, ch: int)
    requires -127 <= cv.inputOffset <= 128
    ensures 0 - cv.FilterSize() * PRODUCT_BOUND <= RefAcc(cv, b, y, x, ch) <= cv.FilterSize() * PRODUCT_BOUND
  {
    hide TapTerm;
    var perTap := cv.inD * PRODUCT_BOUND;
    forall fy, fx
      ensures -perTap <= ChannelSum(cv, b, y, x, ch, fy, fx, cv.inD) <= perTap
    {
      forall c
        ensures -PRODUCT_BOUND <= TapTerms(cv, b, y, x, ch, fy, fx)(c) <= PRODUCT_BOUND
      {
        TermBound(cv, b, y, x, ch, fy, fx, c);
      }
      SumBound(cv.inD, TapTerms(cv, b, y, x, ch, fy, fx), PRODUCT_BOUND);
    }
    var perRow := cv.filterW * perTap;
    forall fy
      ensures -perRow <= RowSum(cv, b, y, x, ch, fy, cv.filterW) <= perRow
    {
      SumBound(cv.filterW, RowTerms(cv, b, y, x, ch, fy), perTap);
    }
    SumBound(cv.filterH, PatchTerms(cv, b, y, x, ch), perRow);
    Associate(cv.filterH, cv.filterW, cv.inD, PRODUCT_BOUND);
  }

  lemma Associate(a: int, b: int, c: int, d: int)
    ensures a * (b * (c * d)) == (a * b * c) * d
  {
  }

  /** The whole sum fits an int32_t. */
  lemma AccumulatorInRange(cv: Conv, b: int, y: int, x: int, ch: int)
    requires cv.AccumulatorFits()
    ensures -0x8000_0000 <= RefAcc(cv, b, y, x, ch) < 0x8000_0000
  {
    hide RefAcc, cv.FilterSize;
    SumInRange(cv, b, y, x, ch);
  }

  /** Inside that bound no running sum leaves int32_t either. */
  lemma CountFits(cv: Conv, fy: nat, fx: nat, c: nat)
    requires cv.AccumulatorFits() && fy < cv.filterH && fx < cv.filterW && c < cv.inD
    ensures PRODUCT_BOUND * (TapCount(cv, fy, fx, 0) + c + 1) < 0x8000_0000
  {
    Bounded(fy, cv.filterH, cv.filterW, fx);
    Bounded(fy * cv.filterW + fx, cv.filterH * cv.filterW, cv.inD, c);
    var count := TapCount(cv, fy, fx, 0) + c + 1;
    assert count <= cv.FilterSize();
    hide TapCount, cv.FilterSize;
    MulMono(count, cv.FilterSize(), PRODUCT_BOUND);
  }

  /** How many products come before channel c of tap (fy, fx). */
  function TapCount(cv: Conv, fy: nat, fx: nat, c: nat): nat {
    (fy * cv.filterW + fx) * cv.inD + c
  }

  /** One byte of the reference output. */
  ghost function RefOut(cv: Conv, rescale: Rescale, b: int, y: int, x: int, ch: nat): Int8
    requires cv.Valid() && cv.AccumulatorFits() && ch < cv.outD
  {
    AccumulatorInRange(cv, b, y, x, ch);
    Finish(cv, rescale, RefAcc(cv, b, y, x, ch) as Int32, ch, ch)
  }

  // ----- row-major coordinates -----

  datatype Coord = Coord(b: nat, y: nat, x: nat, c: nat)

  ghost predicate InRange(cv: Conv, k: Coord) {
    k.b < cv.batches && k.y < cv.outH && k.x < cv.outW && k.c < cv.outD
  }

  function Place(cv: Conv, k: Coord): int {
    Offset(cv.outH, cv.outW, cv.outD, k.b, k.y, k.x, k.c)
  }

  lemma OffsetBounds(m: nat, h: nat, w: nat, d: nat, b: int, y: int, x: int, c: int)
    requires 0 <= b < m && 0 <= y < h && 0 <= x < w && 0 <= c < d
    ensures 0 <= Offset(h, w, d, b, y, x, c) < m * h * w * d
  {
    Bounded(b, m, h, y);
    Bounded(b * h + y, m * h, w, x);
    Bounded((b * h + y) * w + x, m * h * w, d, c);
  }

  lemma Dims(m: nat, h: nat, w: nat, d: nat)
    ensures m * h * w * d > 0 ==> h > 0 && w > 0 && d > 0
  {
    if d == 0 {
      assert m * h * w * d == 0;
    } else if w == 0 {
      assert m * h * w == 0;
    } else if h == 0 {
      assert m * h == 0;
    }
  }

  function Unflatten(h: nat, w: nat, d: nat, i: nat): Coord
    requires h > 0 && w > 0 && d > 0
  {
    var column: nat := i / d;
    var row: nat := column / w;
    Coord(row / h, row % h, column % w, i % d)
  }

  /** The output coordinates stored at index i. */
  function CoordOf(cv: Conv, i: nat): Coord
    requires i < cv.OutputSize()
  {
    Dims(cv.batches, cv.outH, cv.outW, cv.outD);
    Unflatten(cv.outH, cv.outW, cv.outD, i)
  }

  lemma PlaceThenCoord(cv: Conv, k: Coord)
    requires InRange(cv, k)
    ensures 0 <= Place(cv, k) < cv.OutputSize() && CoordOf(cv, Place(cv, k)) == k
  {
    OffsetBounds(cv.batches, cv.outH, cv.outW, cv.outD, k.b, k.y, k.x, k.c);
    var row := k.b * cv.outH + k.y;
    Digit(row * cv.outW + k.x, cv.outD, k.c);
    Digit(row, cv.outW, k.x);
    Digit(k.b, cv.outH, k.y);
  }

  lemma FlattenBack(h: nat, w: nat, d: nat, i: nat)
    requires h > 0 && w > 0 && d > 0
    ensures var k := Unflatten(h, w, d, i); Offset(h, w, d, k.b, k.y, k.x, k.c) == i
  {
    var column := i / d;
    var row := column / w;
    assert i == column * d + i % d;
    assert column == row * w + column % w;
    assert row == row / h * h + row % h;
  }

  lemma CoordThenPlace(cv: Conv, i: nat)
    requires i < cv.OutputSize()
    ensures InRange(cv, CoordOf(cv, i)) && Place(cv, CoordOf(cv, i)) == i
  {
    Dims(cv.batches, cv.outH, cv.outW, cv.outD);
    FlattenBack(cv.outH, cv.outW, cv.outD, i);
    hide Offset;
    DivBelow(i, cv.batches * cv.outH * cv.outW, cv.outD);
    DivBelow(i / cv.outD, cv.batches * cv.outH, cv.outW);
    DivBelow(i / cv.outD / cv.outW, cv.batches, cv.outH);
  }

  lemma DivBelow(i: nat, m: nat, n: nat)
    requires n > 0
    ensures i < m * n ==> i / n < m
  {
    assert i == n * (i / n) + i % n;
    if m <= i / n {
      MulMono(m, i / n, n);
    }
  }

  /** The output tensor the reference kernel writes. */
  ghost function RefOutput(cv: Conv, rescale: Rescale): (out: seq<Int8>)
    requires cv.Valid() && cv.AccumulatorFits()
    ensures |out| == cv.OutputSize()
  {
    seq(cv.OutputSize(), i requires 0 <= i < cv.OutputSize() =>
      CoordThenPlace(cv, i);
      var k := CoordOf(cv, i);
      RefOut(cv, rescale, k.b, k.y, k.x, k.c))
  }

  // ----- the reference loops -----

  ghost predicate InBound(acc: int, count: int) {
    -PRODUCT_BOUND * count <= acc <= PRODUCT_BOUND * count
  }

  /** The innermost loop. `Int32` arithmetic makes every prefix sum prove that it does not overflow. */
  method AddChannels(cv: Conv, b: nat, y: nat, x: nat, ch: nat, fy: nat, fx: nat, inY: int, inX: int, start: Int32)
    returns (acc: Int32)
    requires cv.Valid() && cv.AccumulatorFits()
    requires b < cv.batches && ch < cv.outD && fy < cv.filterH && fx < cv.filterW
    requires inY == y * cv.strideH - cv.padH + cv.dilationH * fy && inX == x * cv.strideW - cv.padW + cv.dilationW * fx
    requires Inside(cv, inY, inX)
    requires InBound(start as int, TapCount(cv, fy, fx, 0))
    ensures acc as int == start as int + ChannelSum(cv, b, y, x, ch, fy, fx, cv.inD)
    ensures InBound(acc as int, TapCount(cv, fy, fx, cv.inD))
  {
    hide TapCount, Offset;
    acc := start;
    for c := 0 to cv.inD
      invariant acc as int == start as int + ChannelSum(cv, b, y, x, ch, fy, fx, c)
      invariant InBound(acc as int, TapCount(cv, fy, fx, 0) + c)
    {
      OffsetBounds(cv.batches, cv.inH, cv.inW, cv.inD, b, inY, inX, c);
      OffsetBounds(cv.outD, cv.filterH, cv.filterW, cv.inD, ch, fy, fx, c);
      TermBound(cv, b, y, x, ch, fy, fx, c);
      CountFits(cv, fy, fx, c);
      var inputVal := cv.input[Offset(cv.inH, cv.inW, cv.inD, b, inY, inX, c)];
      var filterVal := cv.filter[Offset(cv.filterH, cv.filterW, cv.inD, ch, fy, fx, c)];
      var product := filterVal * (inputVal + cv.inputOffset);
      assert product == TapTerm(cv, b, y, x, ch, fy, fx, c);
      acc := acc + product as Int32;
    }
    CountAdd(cv, fy, fx);
  }

  lemma CountAdd(cv: Conv, fy: nat, fx: nat)
    ensures TapCount(cv, fy, fx, cv.inD) == TapCount(cv, fy, fx, 0) + cv.inD == TapCount(cv, fy, fx + 1, 0)
    ensures TapCount(cv, fy, cv.filterW, 0) == TapCount(cv, fy + 1, 0, 0)
  {
  }

  /** The filter loops around it; a tap outside the image is skipped. */
  method ReferenceAcc(cv: Conv, b: nat, y: nat, x: nat, ch: nat) returns (acc: Int32)
    requires cv.Valid() && cv.AccumulatorFits()
    requires b < cv.batches && y < cv.outH && x < cv.outW && ch < cv.outD
    ensures acc as int == RefAcc(cv, b, y, x, ch)
  {
    hide TapCount, ChannelSum;
    acc := 0;
    var inYOrigin := y * cv.strideH - cv.padH;
    var inXOrigin := x * cv.strideW - cv.padW;
    for fy := 0 to cv.filterH
      invariant acc as int == PatchSum(cv, b, y, x, ch, fy)
      invariant InBound(acc as int, TapCount(cv, fy, 0, 0))
    {
      var inY := inYOrigin + cv.dilationH * fy;
      for fx := 0 to cv.filterW
        invariant acc as int == PatchSum(cv, b, y, x, ch, fy) + RowSum(cv, b, y, x, ch, fy, fx)
        invariant InBound(acc as int, TapCount(cv, fy, fx, 0))
      {
        var inX := inXOrigin + cv.dilationW * fx;
        CountAdd(cv, fy, fx);
        var isPointInsideImage := 0 <= inX < cv.inW && 0 <= inY < cv.inH;
        if !isPointInsideImage {
          SkippedTap(cv, b, y, x, ch, fy, fx);
          continue;
        }
        acc := AddChannels(cv, b, y, x, ch, fy, fx, inY, inX, acc);
      }
      CountAdd(cv, fy, 0);
    }
  }

  lemma SkippedTap(cv: Conv, b: int, y: int, x: int, ch: int, fy: int, fx: int)
    requires !Inside(cv, y * cv.strideH - cv.padH + cv.dilationH * fy, x * cv.strideW - cv.padW + cv.dilationW * fx)
    ensures ChannelSum(cv, b, y, x, ch, fy, fx, cv.inD) == 0
  {
    SumZero(cv.inD, TapTerms(cv, b, y, x, ch, fy, fx));
  }

  /** Where the reference output stands when everything before (b, y, x, ch) is written. */
  ghost predicate WrittenBefore(cv: Conv, expected: seq<Int8>, output: seq<Int8>, b: nat, y: nat, x: nat, ch: nat) {
    && |output| == |expected| == cv.OutputSize()
    && forall i :: 0 <= i < |expected| && i < Offset(cv.outH, cv.outW, cv.outD, b, y, x, ch) ==> output[i] == expected[i]
  }

  lemma RowMajor(cv: Conv, expected: seq<Int8>, output: seq<Int8>, b: nat, y: nat, x: nat)
    ensures WrittenBefore(cv, expected, output, b, y, x, cv.outD) == WrittenBefore(cv, expected, output, b, y, x + 1, 0)
    ensures WrittenBefore(cv, expected, output, b, y, cv.outW, 0) == WrittenBefore(cv, expected, output, b, y + 1, 0, 0)
    ensures WrittenBefore(cv, expected, output, b, cv.outH, 0, 0) == WrittenBefore(cv, expected, output, b + 1, 0, 0, 0)
  {
    var row := b * cv.outH + y;
    assert Offset(cv.outH, cv.outW, cv.outD, b, y, x, cv.outD) == Offset(cv.outH, cv.outW, cv.outD, b, y, x + 1, 0) by {
      assert (row * cv.outW + x + 1) * cv.outD == (row * cv.outW + x) * cv.outD + cv.outD;
    }
    assert (row + 1) * cv.outW == row * cv.outW + cv.outW;
    assert (b + 1) * cv.outH == b * cv.outH + cv.outH;
  }

  lemma WrittenNext(cv: Conv, expected: seq<Int8>, output: seq<Int8>, k: Coord)
    requires InRange(cv, k) && WrittenBefore(cv, expected, output, k.b, k.y, k.x, k.c)
    requires 0 <= Place(cv, k) < cv.OutputSize()
    ensures WrittenBefore(cv, expected, output[Place(cv, k) := expected[Place(cv, k)]], k.b, k.y, k.x, k.c + 1)
  {
    assert Offset(cv.outH, cv.outW, cv.outD, k.b, k.y, k.x, k.c + 1) == Place(cv, k) + 1;
    hide Offset, Place;
  }

  /** The reference kernel. */
  method ReferenceConvPerChannel(cv: Conv, rescale: Rescale, output: array<Int8>)
    requires cv.Valid() && cv.AccumulatorFits() && output.Length == cv.OutputSize()
    modifies output
    ensures output[..] == RefOutput(cv, rescale)
  {
    hide RefOutput, WrittenBefore, RefAcc, Offset, Place, CoordOf;
    ghost var expected := RefOutput(cv, rescale);
    NothingWritten(cv, expected, output[..]);
    for b := 0 to cv.batches
      invariant WrittenBefore(cv, expected, output[..], b, 0, 0, 0)
    {
      for y := 0 to cv.outH
        invariant WrittenBefore(cv, expected, output[..], b, y, 0, 0)
      {
        for x := 0 to cv.outW
          invariant WrittenBefore(cv, expected, output[..], b, y, x, 0)
        {
          for ch := 0 to cv.outD
            invariant WrittenBefore(cv, expected, output[..], b, y, x, ch)
          {
            var acc := ReferenceAcc(cv, b, y, x, ch);
            var k := Coord(b, y, x, ch);
            PlaceThenCoord(cv, k);
            ExpectedAt(cv, rescale, k);
            WrittenNext(cv, expected, output[..], k);
            ghost var before := output[..];
            output[Place(cv, k)] := Finish(cv, rescale, acc, ch, ch);
            assert output[..] == before[Place(cv, k) := expected[Place(cv, k)]];
          }
          RowMajor(cv, expected, output[..], b, y, x);
        }
        RowMajor(cv, expected, output[..], b, y, 0);
      }
      RowMajor(cv, expected, output[..], b, 0, 0);
    }
    EverythingWritten(cv, expected, output[..]);
  }

  lemma NothingWritten(cv: Conv, expected: seq<Int8>, output: seq<Int8>)
    requires |output| == |expected| == cv.OutputSize()
    ensures WrittenBefore(cv, expected, output, 0, 0, 0, 0)
  {
  }

  lemma EverythingWritten(cv: Conv, expected: seq<Int8>, output: seq<Int8>)
    requires WrittenBefore(cv, expected, output, cv.batches, 0, 0, 0)
    ensures output == expected
  {
    assert Offset(cv.outH, cv.outW, cv.outD, cv.batches, 0, 0, 0) == cv.OutputSize();
  }

  lemma ExpectedAt(cv: Conv, rescale: Rescale, k: Coord)
    requires cv.Valid() && cv.AccumulatorFits() && InRange(cv, k)
    requires 0 <= Place(cv, k) < cv.OutputSize() && CoordOf(cv, Place(cv, k)) == k
    ensures RefOutput(cv, rescale)[Place(cv, k)] == RefOut(cv, rescale, k.b, k.y, k.x, k.c)
  {
  }
}
