/**
 What the reference convolution means on its raw tensors: the impulse response and additivity that
 together leave no other choice, the place of every output byte, and the output stage.
 */
module Meaning {
  import opened Words
  import opened Sums
  import opened Arith
  import opened Conv

  // ----- the sum -----

  /** w at one index of the filter tensor, zero everywhere else. */
  ghost predicate IsImpulse(filter: seq<Int8>, at: int, w: Int8) {
    0 <= at < |filter| && forall i :: 0 <= i < |filter| ==> filter[i] == if i == at then w else 0
  }

  /** One coordinate of the filter tensor: output channel, row, column, input channel. */
  datatype Tap = Tap(ch: nat, fy: nat, fx: nat, c: nat)

  ghost predicate HasTap(cv: Conv, k: Tap) {
    k.ch < cv.outD && k.fy < cv.filterH && k.fx < cv.filterW && k.c < cv.inD
  }

  /** Where it lies. */
  function FilterIndex(cv: Conv, k: Tap): int {
    ((k.ch * cv.filterH + k.fy) * cv.filterW + k.fx) * cv.inD + k.c
  }

  function InputIndex(cv: Conv, b: int, inY: int, inX: int, c: int): int {
    ((b * cv.inH + inY) * cv.inW + inX) * cv.inD + c
  }

  /** What weight w at tap k adds to output (b, y, x, ch): nothing in another channel or outside the image. */
  function Response(cv: Conv, b: nat, y: int, x: int, ch: nat, k: Tap, w: Int8): int {
    var inY := y * cv.strideH - cv.padH + k.fy * cv.dilationH;
    var inX := x * cv.strideW - cv.padW + k.fx * cv.dilationW;
    if ch == k.ch && 0 <= inY < cv.inH && 0 <= inX < cv.inW && 0 <= InputIndex(cv, b, inY, inX, k.c) < |cv.input| then
      w * (cv.input[InputIndex(cv, b, inY, inX, k.c)] + cv.inputOffset)
    else 0
  }

  /** The bounds test on the tensor never decides: inside the image the index is in range. */
  lemma InputInside(cv: Conv, b: nat, inY: int, inX: int, c: nat)
    requires cv.Valid() && b < cv.batches && 0 <= inY < cv.inH && 0 <= inX < cv.inW && c < cv.inD
    ensures 0 <= InputIndex(cv, b, inY, inX, c) < |cv.input|
  {
    OffsetBounds(cv.batches, cv.inH, cv.inW, cv.inD, b, inY, inX, c);
  }

  lemma OffsetInjective(h: nat, w: nat, d: nat, b: int, y: int, x: int, c: int, b': int, y': int, x': int, c': int)
    requires 0 <= y < h && 0 <= x < w && 0 <= c < d && 0 <= y' < h && 0 <= x' < w && 0 <= c' < d
    requires Offset(h, w, d, b, y, x, c) == Offset(h, w, d, b', y', x', c')
    ensures b == b' && y == y' && x == x' && c == c'
  {
    Digit((b * h + y) * w + x, d, c);
    Digit((b' * h + y') * w + x', d, c');
    Digit(b * h + y, w, x);
    Digit(b' * h + y', w, x');
    Digit(b, h, y);
    Digit(b', h, y');
  }

  /** An impulse reads as zero at every other coordinate. */
  lemma ImpulseWeight(cv: Conv, k: Tap, w: Int8, ch: nat, fy: nat, fx: nat, c: nat)
    requires cv.Valid() && HasTap(cv, k) && IsImpulse(cv.filter, FilterIndex(cv, k), w)
    requires HasTap(cv, Tap(ch, fy, fx, c))
    ensures Weight(cv, ch, fy, fx, c) == if Tap(ch, fy, fx, c) == k then w else 0
  {
    OffsetBounds(cv.outD, cv.filterH, cv.filterW, cv.inD, ch, fy, fx, c);
    var at := Offset(cv.filterH, cv.filterW, cv.inD, ch, fy, fx, c);
    assert FilterIndex(cv, k) == Offset(cv.filterH, cv.filterW, cv.inD, k.ch, k.fy, k.fx, k.c);
    if at == FilterIndex(cv, k) {
      OffsetInjective(cv.filterH, cv.filterW, cv.inD, ch, fy, fx, c, k.ch, k.fy, k.fx, k.c);
    }
  }

  lemma ImpulseTerm(cv: Conv, k: Tap, w: Int8, b: nat, y: int, x: int, ch: nat, fy: nat, fx: nat, c: nat)
    requires cv.Valid() && HasTap(cv, k) && IsImpulse(cv.filter, FilterIndex(cv, k), w)
    requires b < cv.batches && HasTap(cv, Tap(ch, fy, fx, c))
    ensures TapTerm(cv, b, y, x, ch, fy, fx, c) == if Tap(ch, fy, fx, c) == k then Response(cv, b, y, x, ch, k, w) else 0
  {
    ImpulseWeight(cv, k, w, ch, fy, fx, c);
    var inY := y * cv.strideH - cv.padH + cv.dilationH * fy;
    var inX := x * cv.strideW - cv.padW + cv.dilationW * fx;
    assert cv.dilationH * fy == fy * cv.dilationH && cv.dilationW * fx == fx * cv.dilationW;
    if Inside(cv, inY, inX) {
      InputInside(cv, b, inY, inX, c);
      assert InputIndex(cv, b, inY, inX, c) == Offset(cv.inH, cv.inW, cv.inD, b, inY, inX, c);
    }
    hide Weight, InputIndex, Offset;
  }

  lemma {:induction false} SumOnly(n: nat, f: int -> int, i: nat)
    requires i < n && forall j :: 0 <= j < n && j != i ==> f(j) == 0
    ensures Sum(n, f) == f(i)
  {
    if i == n - 1 {
      SumZero(n - 1, f);
    } else {
      SumOnly(n - 1, f, i);
    }
  }

  /** A sum with at most one term. */
  lemma SumAtMostOne(n: nat, f: int -> int, i: nat, here: bool, value: int)
    requires i < n && forall j :: 0 <= j < n ==> f(j) == if here && j == i then value else 0
    ensures Sum(n, f) == if here then value else 0
  {
    if here {
      SumOnly(n, f, i);
    } else {
      SumZero(n, f);
    }
  }

  /** The impulse response: a filter with one weight makes the sum that one product, or zero. */
  lemma ImpulseResponse(cv: Conv, k: Tap, w: Int8, b: nat, y: int, x: int, ch: nat)
    requires cv.Valid() && HasTap(cv, k) && IsImpulse(cv.filter, FilterIndex(cv, k), w) && b < cv.batches && ch < cv.outD
    ensures RefAcc(cv, b, y, x, ch) == Response(cv, b, y, x, ch, k, w)
  {
    hide TapTerm, Response, FilterIndex;
    var v := Response(cv, b, y, x, ch, k, w);
    forall fy: nat, fx: nat | fy < cv.filterH && fx < cv.filterW
      ensures ChannelSum(cv, b, y, x, ch, fy, fx, cv.inD) == if ch == k.ch && fy == k.fy && fx == k.fx then v else 0
    {
      forall c | 0 <= c < cv.inD
        ensures TapTerms(cv, b, y, x, ch, fy, fx)(c) == if (ch == k.ch && fy == k.fy && fx == k.fx) && c == k.c then v else 0
      {
        ImpulseTerm(cv, k, w, b, y, x, ch, fy, fx, c);
      }
      SumAtMostOne(cv.inD, TapTerms(cv, b, y, x, ch, fy, fx), k.c, ch == k.ch && fy == k.fy && fx == k.fx, v);
    }
    forall fy: nat | fy < cv.filterH
      ensures RowSum(cv, b, y, x, ch, fy, cv.filterW) == if ch == k.ch && fy == k.fy then v else 0
    {
      SumAtMostOne(cv.filterW, RowTerms(cv, b, y, x, ch, fy), k.fx, ch == k.ch && fy == k.fy, v);
    }
    SumAtMostOne(cv.filterH, PatchTerms(cv, b, y, x, ch), k.fy, ch == k.ch, v);
    OtherChannel(cv, k, w, b, y, x, ch);
  }

  lemma OtherChannel(cv: Conv, k: Tap, w: Int8, b: nat, y: int, x: int, ch: nat)
    ensures ch != k.ch ==> Response(cv, b, y, x, ch, k, w) == 0
  {
  }

  /** The same layer with another filter. */
  function WithFilter(cv: Conv, filter: seq<Int8>): Conv {
    cv.(filter := filter)
  }

  ghost predicate IsSum(f: seq<Int8>, g: seq<Int8>, h: seq<Int8>) {
    |f| == |g| == |h| && forall i :: 0 <= i < |f| ==> f[i] as int == g[i] as int + h[i] as int
  }

  lemma AdditiveTerm(cv: Conv, f: seq<Int8>, g: seq<Int8>, h: seq<Int8>, b: int, y: int, x: int, ch: int, fy: int, fx: int, c: int)
    requires IsSum(f, g, h)
    ensures TapTerm(WithFilter(cv, f), b, y, x, ch, fy, fx, c)
         == TapTerm(WithFilter(cv, g), b, y, x, ch, fy, fx, c) + TapTerm(WithFilter(cv, h), b, y, x, ch, fy, fx, c)
  {
    var inY := y * cv.strideH - cv.padH + cv.dilationH * fy;
    var inX := x * cv.strideW - cv.padW + cv.dilationW * fx;
    var u, v := Weight(WithFilter(cv, g), ch, fy, fx, c), Weight(WithFilter(cv, h), ch, fy, fx, c);
    assert Weight(WithFilter(cv, f), ch, fy, fx, c) as int == u + v;
    hide Weight, Pixel;
    assert Pixel(WithFilter(cv, f), b, inY, inX, c) == Pixel(WithFilter(cv, g), b, inY, inX, c)
        == Pixel(WithFilter(cv, h), b, inY, inX, c) by {
      SameImage(cv, f, g, b, inY, inX, c);
      SameImage(cv, f, h, b, inY, inX, c);
    }
    var a := Pixel(WithFilter(cv, f), b, inY, inX, c) + cv.inputOffset;
    assert (u + v) * a == u * a + v * a;
  }

  lemma SameImage(cv: Conv, f: seq<Int8>, g: seq<Int8>, b: int, y: int, x: int, c: int)
    ensures Pixel(WithFilter(cv, f), b, y, x, c) == Pixel(WithFilter(cv, g), b, y, x, c)
  {
  }

  /** Filters add up: so do their sums. */
  lemma Additive(cv: Conv, f: seq<Int8>, g: seq<Int8>, h: seq<Int8>, b: int, y: int, x: int, ch: int)
    requires IsSum(f, g, h)
    ensures RefAcc(WithFilter(cv, f), b, y, x, ch)
         == RefAcc(WithFilter(cv, g), b, y, x, ch) + RefAcc(WithFilter(cv, h), b, y, x, ch)
  {
    hide TapTerm, IsSum;
    var l, m, n := WithFilter(cv, f), WithFilter(cv, g), WithFilter(cv, h);
    forall fy, fx
      ensures ChannelSum(l, b, y, x, ch, fy, fx, l.inD)
           == ChannelSum(m, b, y, x, ch, fy, fx, m.inD) + ChannelSum(n, b, y, x, ch, fy, fx, n.inD)
    {
      forall c
        ensures TapTerms(l, b, y, x, ch, fy, fx)(c) == TapTerms(m, b, y, x, ch, fy, fx)(c) + TapTerms(n, b, y, x, ch, fy, fx)(c)
      {
        AdditiveTerm(cv, f, g, h, b, y, x, ch, fy, fx, c);
      }
      SumAdd(cv.inD, TapTerms(m, b, y, x, ch, fy, fx), TapTerms(n, b, y, x, ch, fy, fx), TapTerms(l, b, y, x, ch, fy, fx));
    }
    hide ChannelSum;
    forall fy
      ensures RowSum(l, b, y, x, ch, fy, l.filterW) == RowSum(m, b, y, x, ch, fy, m.filterW) + RowSum(n, b, y, x, ch, fy, n.filterW)
    {
      SumAdd(cv.filterW, RowTerms(m, b, y, x, ch, fy), RowTerms(n, b, y, x, ch, fy), RowTerms(l, b, y, x, ch, fy));
    }
    hide RowSum;
    SumAdd(cv.filterH, PatchTerms(m, b, y, x, ch), PatchTerms(n, b, y, x, ch), PatchTerms(l, b, y, x, ch));
  }

  // ----- no other function does this -----

  /** Additive in the filter, and right on every impulse. */
  ghost predicate Convolves(sum: seq<Int8> -> int, cv: Conv, b: nat, y: int, x: int, ch: nat) {
    && (forall f, g, h :: |f| == |cv.filter| && IsSum(f, g, h) ==> sum(f) == sum(g) + sum(h))
    && (forall f: seq<Int8>, k: Tap, w: Int8 :: |f| == |cv.filter| && HasTap(cv, k) && IsImpulse(f, FilterIndex(cv, k), w)
          ==> sum(f) == Response(cv, b, y, x, ch, k, w))
  }

  /** The first n weights, then zeros. */
  function Keep(f: seq<Int8>, n: nat): (r: seq<Int8>)
    ensures |r| == |f|
  {
    seq(|f|, i requires 0 <= i < |f| => if i < n then f[i] else 0)
  }

  function Single(size: nat, at: nat, w: Int8): (r: seq<Int8>)
    ensures |r| == size
  {
    seq(size, i => if i == at then w else 0)
  }

  lemma FilterTap(cv: Conv, i: nat) returns (k: Tap)
    requires cv.Valid() && i < |cv.filter|
    ensures HasTap(cv, k) && FilterIndex(cv, k) == i
  {
    var rows := cv.outD * cv.filterH;
    Dims(cv.outD, cv.filterH, cv.filterW, cv.inD);
    FlattenBack(cv.filterH, cv.filterW, cv.inD, i);
    var at := Unflatten(cv.filterH, cv.filterW, cv.inD, i);
    k := Tap(at.b, at.y, at.x, at.c);
    DivBelow(i, rows * cv.filterW, cv.inD);
    DivBelow(i / cv.inD, rows, cv.filterW);
    DivBelow(i / cv.inD / cv.filterW, cv.outD, cv.filterH);
  }

  lemma KeepNext(f: seq<Int8>, n: nat)
    requires n < |f|
    ensures IsSum(Keep(f, n + 1), Keep(f, n), Single(|f|, n, f[n]))
    ensures IsImpulse(Single(|f|, n, f[n]), n, f[n])
  {
  }

  lemma SumAddsUp(sum: seq<Int8> -> int, cv: Conv, b: nat, y: int, x: int, ch: nat, f: seq<Int8>, g: seq<Int8>, h: seq<Int8>)
    requires Convolves(sum, cv, b, y, x, ch) && |f| == |cv.filter| && IsSum(f, g, h)
    ensures sum(f) == sum(g) + sum(h)
  {
    hide IsSum;
  }

  lemma SumOnImpulse(sum: seq<Int8> -> int, cv: Conv, b: nat, y: int, x: int, ch: nat, f: seq<Int8>, k: Tap, w: Int8)
    requires Convolves(sum, cv, b, y, x, ch)
    requires |f| == |cv.filter| && HasTap(cv, k) && IsImpulse(f, FilterIndex(cv, k), w)
    ensures sum(f) == Response(cv, b, y, x, ch, k, w)
  {
    hide Response, FilterIndex, IsImpulse;
  }

  lemma {:induction false} SameOnPrefix(sum: seq<Int8> -> int, cv: Conv, b: nat, y: int, x: int, ch: nat, n: nat)
    requires cv.Valid() && b < cv.batches && ch < cv.outD && n <= |cv.filter|
    requires Convolves(sum, cv, b, y, x, ch)
    ensures sum(Keep(cv.filter, n)) == RefAcc(WithFilter(cv, Keep(cv.filter, n)), b, y, x, ch)
  {
    hide RefAcc, Response, FilterIndex, Convolves, WithFilter;
    if n == 0 {
      var zero := Keep(cv.filter, 0);
      assert IsSum(zero, zero, zero);
      hide Keep;
      SumAddsUp(sum, cv, b, y, x, ch, zero, zero, zero);
      Additive(cv, zero, zero, zero, b, y, x, ch);
    } else {
      hide IsSum, IsImpulse, Keep, Single;
      SameOnPrefix(sum, cv, b, y, x, ch, n - 1);
      KeepNext(cv.filter, n - 1);
      var k := FilterTap(cv, n - 1);
      var one := Single(|cv.filter|, n - 1, cv.filter[n - 1]);
      Additive(cv, Keep(cv.filter, n), Keep(cv.filter, n - 1), one, b, y, x, ch);
      SumAddsUp(sum, cv, b, y, x, ch, Keep(cv.filter, n), Keep(cv.filter, n - 1), one);
      ImpulseOf(cv, one, k, cv.filter[n - 1], b, y, x, ch);
      SumOnImpulse(sum, cv, b, y, x, ch, one, k, cv.filter[n - 1]);
    }
  }

  lemma ImpulseOf(cv: Conv, f: seq<Int8>, k: Tap, w: Int8, b: nat, y: int, x: int, ch: nat)
    requires cv.Valid() && |f| == |cv.filter| && HasTap(cv, k) && IsImpulse(f, FilterIndex(cv, k), w)
    requires b < cv.batches && ch < cv.outD
    ensures RefAcc(WithFilter(cv, f), b, y, x, ch) == Response(cv, b, y, x, ch, k, w)
  {
    hide RefAcc, IsImpulse;
    ImpulseResponse(WithFilter(cv, f), k, w, b, y, x, ch);
  }

  /**
   The reference sum is the convolution: for every layer and output, a function of the filter that is
   additive and right on impulses is the reference sum, and the reference sum is such a function.
   */
  lemma OnlyConvolution(sum: seq<Int8> -> int, cv: Conv, b: nat, y: int, x: int, ch: nat)
    requires cv.Valid() && b < cv.batches && ch < cv.outD
    ensures Convolves((f: seq<Int8>) => RefAcc(WithFilter(cv, f), b, y, x, ch), cv, b, y, x, ch)
    ensures Convolves(sum, cv, b, y, x, ch) ==> sum(cv.filter) == RefAcc(cv, b, y, x, ch)
  {
    hide RefAcc, Response, FilterIndex, IsSum, IsImpulse;
    forall f, g, h | |f| == |cv.filter| && IsSum(f, g, h)
      ensures RefAcc(WithFilter(cv, f), b, y, x, ch)
           == RefAcc(WithFilter(cv, g), b, y, x, ch) + RefAcc(WithFilter(cv, h), b, y, x, ch)
    {
      Additive(cv, f, g, h, b, y, x, ch);
    }
    forall f: seq<Int8>, k: Tap, w: Int8 | |f| == |cv.filter| && HasTap(cv, k) && IsImpulse(f, FilterIndex(cv, k), w)
      ensures RefAcc(WithFilter(cv, f), b, y, x, ch) == Response(cv, b, y, x, ch, k, w)
    {
      ImpulseOf(cv, f, k, w, b, y, x, ch);
    }
    if Convolves(sum, cv, b, y, x, ch) {
      SameOnPrefix(sum, cv, b, y, x, ch, |cv.filter|);
      assert Keep(cv.filter, |cv.filter|) == cv.filter;
    }
  }

  // ----- the output -----

  /** Where each output byte is stored, channels innermost. */
  lemma OutputAt(cv: Conv, rescale: Rescale, b: nat, y: nat, x: nat, ch: nat)
    requires cv.Valid() && cv.AccumulatorFits() && b < cv.batches && y < cv.outH && x < cv.outW && ch < cv.outD
    ensures var at := ((b * cv.outH + y) * cv.outW + x) * cv.outD + ch;
            && 0 <= at < |RefOutput(cv, rescale)|
            && -0x8000_0000 <= RefAcc(cv, b, y, x, ch) < 0x8000_0000
            && RefOutput(cv, rescale)[at] == Finish(cv, rescale, RefAcc(cv, b, y, x, ch) as Int32, ch, ch)
  {
    hide RefAcc, Finish;
    var k := Coord(b, y, x, ch);
    AccumulatorInRange(cv, b, y, x, ch);
    PlaceThenCoord(cv, k);
    ExpectedAt(cv, rescale, k);
    assert Place(cv, k) == ((b * cv.outH + y) * cv.outW + x) * cv.outD + ch;
  }

  /** v cut to the range lo to hi. */
  function Cut(v: int, lo: int, hi: int): int {
    if v < lo then lo else if hi < v then hi else v
  }

  function BiasOf(cv: Conv, ch: nat): int
    requires cv.Valid() && ch < cv.outD
  {
    if cv.bias.Some? then cv.bias.value[ch] as int else 0
  }

  ghost predicate FitsInt32(v: int) {
    -0x8000_0000 <= v < 0x8000_0000
  }

  /** The bias is added before the rescaling and the output offset after it; the result is cut to the clamp range. */
  lemma OutputStage(cv: Conv, rescale: Rescale, acc: Int32, ch: nat, scale: nat)
    requires cv.Valid() && ch < cv.outD && scale < cv.outD && -0x80 <= cv.actMin && cv.actMax < 0x80
    requires FitsInt32(acc as int + BiasOf(cv, ch))
    ensures var scaled := rescale((acc as int + BiasOf(cv, ch)) as Int32, cv.multiplier[scale], cv.shift[scale]) as int;
            FitsInt32(scaled + cv.outputOffset as int) ==>
              Finish(cv, rescale, acc, ch, scale) == Cut(scaled + cv.outputOffset as int, cv.actMin as int, cv.actMax as int)
  {
    WrapFits(acc as int + BiasOf(cv, ch));
    var biased := (acc as int + BiasOf(cv, ch)) as Int32;
    var scaled := rescale(biased, cv.multiplier[scale], cv.shift[scale]);
    if FitsInt32(scaled as int + cv.outputOffset as int) {
      WrapFits(scaled as int + cv.outputOffset as int);
      var v := (scaled as int + cv.outputOffset as int) as Int32;
      ByteBack(Cut(v as int, cv.actMin as int, cv.actMax as int));
      hide Wrap, Signed32, ToInt8;
    }
  }

  lemma ByteBack(v: int)
    requires -0x80 <= v < 0x80
    ensures ToInt8(v) == v
  {
  }

  /** With the identity in place of the rescaling, the byte is accumulator plus bias plus offset, cut. */
  lemma PlainOutput(cv: Conv, acc: Int32, ch: nat, scale: nat)
    requires cv.Valid() && ch < cv.outD && scale < cv.outD && -0x80 <= cv.actMin && cv.actMax < 0x80
    requires FitsInt32(acc as int + BiasOf(cv, ch)) && FitsInt32(acc as int + BiasOf(cv, ch) + cv.outputOffset as int)
    ensures Finish(cv, (v, m, s) => v, acc, ch, scale)
         == Cut(acc as int + BiasOf(cv, ch) + cv.outputOffset as int, cv.actMin as int, cv.actMax as int)
  {
    hide Finish, Cut;
    OutputStage(cv, (v, m, s) => v, acc, ch, scale);
  }
}
