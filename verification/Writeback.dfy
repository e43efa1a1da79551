/**
 The output half of the driver: reading the sixteen units back, requantising and
 storing in tile order; and the end-to-end theorem.
 */
module Writeback {
  import opened Words
  import opened Cfu
  import opened Pipeline
  import opened Cpu
  import opened Conv
  import opened Kernel

  /** What a 32-bit accumulator reads back for output (0, y, x, ch). */
  ghost function ReadBack(cv: Conv, y: int, x: int, ch: int): Int32 {
    Signed32(Wrap(RefAcc(cv, 0, y, x, ch)))
  }

  /** Whose multiplier and shift the driver uses: the single-channel branch takes the group's first. */
  function ScaleChannel(cv: Conv, ch: nat): nat {
    if cv.inD == 1 then ch - ch % L else ch
  }

  /** The tensor the driver writes: the sum modulo 2^32, rescaled by ScaleChannel. */
  ghost function DriverOutput(cv: Conv, rescale: Rescale): (out: seq<Int8>)
    requires cv.Valid()
    ensures |out| == cv.OutputSize()
  {
    seq(cv.OutputSize(), i requires 0 <= i < cv.OutputSize() =>
      CoordThenPlace(cv, i);
      var k := CoordOf(cv, i);
      Finish(cv, rescale, ReadBack(cv, k.y, k.x, k.c), k.c, ScaleChannel(cv, k.c)))
  }

  lemma ReadBackFits(cv: Conv, y: int, x: int, ch: int)
    requires -0x8000_0000 <= RefAcc(cv, 0, y, x, ch) < 0x8000_0000
    ensures ReadBack(cv, y, x, ch) as int == RefAcc(cv, 0, y, x, ch)
  {
    hide RefAcc;
    WrapFits(RefAcc(cv, 0, y, x, ch));
  }

  /** Multi-channel layers inside the documented filter size: the driver's tensor is the reference's. */
  lemma DriverIsReference(cv: Conv, rescale: Rescale)
    requires cv.Valid() && cv.batches == 1 && cv.AccumulatorFits()
    requires cv.inD != 1 || GroupScales(cv)
    ensures DriverOutput(cv, rescale) == RefOutput(cv, rescale)
  {
    hide DriverOutput, RefOutput, RefOut, Place, CoordOf, GroupScales, cv.AccumulatorFits, ScaleChannel, ReadBack;
    forall i | 0 <= i < cv.OutputSize()
      ensures DriverOutput(cv, rescale)[i] == RefOutput(cv, rescale)[i]
    {
      CoordThenPlace(cv, i);
      var k := CoordOf(cv, i);
      DriverAt(cv, rescale, k);
      ExpectedAt(cv, rescale, k);
      ByteIsReference(cv, rescale, k.y, k.x, k.c);
    }
  }

  /** One byte of it. */
  lemma ByteIsReference(cv: Conv, rescale: Rescale, y: nat, x: nat, ch: nat)
    requires cv.Valid() && cv.AccumulatorFits() && ch < cv.outD && (cv.inD != 1 || GroupScales(cv))
    ensures Finish(cv, rescale, ReadBack(cv, y, x, ch), ch, ScaleChannel(cv, ch)) == RefOut(cv, rescale, 0, y, x, ch)
  {
    hide RefAcc, ReadBack, Add32, ToInt8, Clamp;
    AccumulatorInRange(cv, 0, y, x, ch);
    ReadBackFits(cv, y, x, ch);
    if cv.inD == 1 {
      assert SameScale(cv, ch);
    }
  }

  // ----- the single-channel branch and its scale index -----

  /** A channel with the multiplier and shift of the first channel of its group of eight. */
  predicate SameScale(cv: Conv, ch: nat)
    requires |cv.multiplier| == |cv.shift| == cv.outD && ch < cv.outD
  {
    cv.multiplier[ch] == cv.multiplier[ch - ch % L] && cv.shift[ch] == cv.shift[ch - ch % L]
  }

  /** Multiplier and shift are constant in each group of eight output channels. */
  predicate GroupScales(cv: Conv)
    requires |cv.multiplier| == |cv.shift| == cv.outD
  {
    forall ch :: 0 <= ch < cv.outD ==> SameScale(cv, ch)
  }

  /** A rescaling that tells one pair of scale parameters from every other. */
  function Telltale(multiplier: Int32, shift: Int32): Rescale {
    (acc, m, s) => if m == multiplier && s == shift then 0x1000 else -0x1000
  }

  /** Through the rest of the output stage the telltale saturates one way or the other. */
  lemma TelltaleSaturates(cv: Conv, acc: Int32, ch: nat, scale: nat, multiplier: Int32, shift: Int32)
    requires cv.Valid() && ch < cv.outD && scale < cv.outD && cv.outputOffset == -128
    requires -0x80 <= cv.actMin < cv.actMax < 0x80
    ensures Finish(cv, Telltale(multiplier, shift), acc, ch, scale) as Int32
         == if cv.multiplier[scale] == multiplier && cv.shift[scale] == shift then cv.actMax else cv.actMin
  {
    assert Add32(0x1000, -128) == 0xf80;
    assert Add32(-0x1000, -128) == -0x1080;
    SmallByte(cv.actMin);
    SmallByte(cv.actMax);
    hide Add32, ToInt8;
  }

  lemma SmallByte(v: Int32)
    requires -0x80 <= v < 0x80
    ensures ToInt8(v as int) as Int32 == v
  {
  }

  lemma TelltaleShows(cv: Conv, ch: nat)
    requires Supported(cv) && cv.inD == 1 && ch < cv.outD && cv.outH > 0 && cv.outW > 0
    requires -0x80 <= cv.actMin < cv.actMax < 0x80
    requires !SameScale(cv, ch)
    ensures var rescale := Telltale(cv.multiplier[ch], cv.shift[ch]);
            DriverOutput(cv, rescale) != RefOutput(cv, rescale)
  {
    hide RefAcc, DriverOutput, RefOutput, Place, CoordOf, Finish, Wrap, Signed32;
    var rescale := Telltale(cv.multiplier[ch], cv.shift[ch]);
    var k := Coord(0, 0, 0, ch);
    DriverAt(cv, rescale, k);
    ExpectedAt(cv, rescale, k);
    AccumulatorInRange(cv, 0, 0, 0, ch);
    TelltaleSaturates(cv, ReadBack(cv, 0, 0, ch), ch, ScaleChannel(cv, ch), cv.multiplier[ch], cv.shift[ch]);
    TelltaleSaturates(cv, RefAcc(cv, 0, 0, 0, ch) as Int32, ch, ch, cv.multiplier[ch], cv.shift[ch]);
  }

  /**
   The single-channel branch scales by the first channel of each group. It agrees with the
   reference under every rescaling function exactly when the scales are constant in each group.
   */
  lemma SingleChannelScaleIff(cv: Conv)
    requires Supported(cv) && cv.inD == 1 && cv.outH > 0 && cv.outW > 0
    requires -0x80 <= cv.actMin < cv.actMax < 0x80
    ensures (forall rescale: Rescale :: DriverOutput(cv, rescale) == RefOutput(cv, rescale)) <==> GroupScales(cv)
  {
    hide DriverOutput, RefOutput, GroupScales;
    SingleFits(cv);
    hide cv.AccumulatorFits;
    if GroupScales(cv) {
      SameUnderAll(cv);
    } else {
      var ch := OtherScale(cv);
      TelltaleShows(cv, ch);
    }
  }

  lemma SingleFits(cv: Conv)
    requires Supported(cv) && cv.inD == 1
    ensures cv.AccumulatorFits()
  {
  }

  lemma SameUnderAll(cv: Conv)
    requires Supported(cv) && cv.AccumulatorFits() && GroupScales(cv)
    ensures forall rescale: Rescale :: DriverOutput(cv, rescale) == RefOutput(cv, rescale)
  {
    hide DriverOutput, RefOutput, GroupScales, cv.AccumulatorFits;
    forall rescale: Rescale
      ensures DriverOutput(cv, rescale) == RefOutput(cv, rescale)
    {
      DriverIsReference(cv, rescale);
    }
  }

  /** A channel whose scale is not its group's first. */
  lemma OtherScale(cv: Conv) returns (ch: nat)
    requires |cv.multiplier| == |cv.shift| == cv.outD && !GroupScales(cv)
    ensures ch < cv.outD && !SameScale(cv, ch)
  {
    hide SameScale;
    ch :| 0 <= ch < cv.outD && !SameScale(cv, ch);
  }

  // ----- storing a tile -----

  /** Outputs of earlier passes and earlier tiles. */
  predicate Before(k: Coord, oc: nat, y: nat, x: nat) {
    k.c < oc || (k.c < oc + L && (k.y < y || (k.y < y + 4 && k.x < x)))
  }

  /** Outputs of this tile before position (i, j, n). */
  predicate InTile(k: Coord, oc: nat, y: nat, x: nat, i: nat, j: nat, n: nat) {
    && oc <= k.c < oc + L && y <= k.y < y + 4 && x <= k.x < x + 4
    && (k.y - y < i || (k.y - y == i && (k.x - x < j || (k.x - x == j && k.c - oc < n))))
  }

  ghost predicate Stored(cv: Conv, expected: seq<Int8>, output: seq<Int8>, oc: nat, y: nat, x: nat, i: nat, j: nat, n: nat) {
    && |output| == |expected| == cv.OutputSize()
    && forall a :: 0 <= a < cv.OutputSize() && (Before(CoordOf(cv, a), oc, y, x) || InTile(CoordOf(cv, a), oc, y, x, i, j, n))
         ==> output[a] == expected[a]
  }

  lemma StoreNext(cv: Conv, expected: seq<Int8>, output: seq<Int8>, oc: nat, y: nat, x: nat, i: nat, j: nat, n: nat, at: nat)
    requires cv.batches == 1 && Stored(cv, expected, output, oc, y, x, i, j, n)
    requires i < 4 && j < 4 && n < L && at < cv.OutputSize()
    requires CoordOf(cv, at) == Coord(0, y + i, x + j, oc + n)
    ensures Stored(cv, expected, output[at := expected[at]], oc, y, x, i, j, n + 1)
  {
    hide CoordOf;
    forall a | 0 <= a < cv.OutputSize()
               && (Before(CoordOf(cv, a), oc, y, x) || InTile(CoordOf(cv, a), oc, y, x, i, j, n + 1))
      ensures output[at := expected[at]][a] == expected[a]
    {
      CoordThenPlace(cv, a);
      CoordThenPlace(cv, at);
      assert a != at ==> CoordOf(cv, a) != CoordOf(cv, at);
    }
  }

  lemma TileOrder(cv: Conv, expected: seq<Int8>, output: seq<Int8>, oc: nat, y: nat, x: nat, i: nat, j: nat)
    ensures Stored(cv, expected, output, oc, y, x, i, j, L) ==> Stored(cv, expected, output, oc, y, x, i, j + 1, 0)
    ensures Stored(cv, expected, output, oc, y, x, i, 4, 0) ==> Stored(cv, expected, output, oc, y, x, i + 1, 0, 0)
    ensures Stored(cv, expected, output, oc, y, x, 4, 0, 0) ==> Stored(cv, expected, output, oc, y, x + 4, 0, 0, 0)
  {
    hide CoordOf;
  }

  /** Between tiles: the end of a row of tiles, of a pass, of everything. */
  lemma PassOrder(cv: Conv, expected: seq<Int8>, output: seq<Int8>, oc: nat, y: nat)
    ensures Stored(cv, expected, output, oc, y, cv.outW, 0, 0, 0) ==> Stored(cv, expected, output, oc, y + 4, 0, 0, 0, 0)
    ensures Stored(cv, expected, output, oc, cv.outH, 0, 0, 0, 0) ==> Stored(cv, expected, output, oc + L, 0, 0, 0, 0, 0)
    ensures Stored(cv, expected, output, cv.outD, 0, 0, 0, 0, 0) ==> output == expected
  {
    hide CoordOf;
    forall a | 0 <= a < cv.OutputSize()
      ensures InRange(cv, CoordOf(cv, a))
    {
      CoordThenPlace(cv, a);
    }
  }

  lemma StoreStart(cv: Conv, expected: seq<Int8>, output: seq<Int8>)
    requires |output| == |expected| == cv.OutputSize()
    ensures Stored(cv, expected, output, 0, 0, 0, 0, 0, 0)
  {
    hide CoordOf;
  }

  lemma ReadKeeps(s: Arch, id: Word, n: Word)
    requires s.Valid()
    ensures Exec(s, Cmd(2, id, n)).pe == s.pe
  {
  }

  lemma DriverAt(cv: Conv, rescale: Rescale, k: Coord)
    requires cv.Valid() && InRange(cv, k)
    ensures 0 <= Place(cv, k) < cv.OutputSize() && CoordOf(cv, Place(cv, k)) == k
    ensures DriverOutput(cv, rescale)[Place(cv, k)]
         == Finish(cv, rescale, ReadBack(cv, k.y, k.x, k.c), k.c, ScaleChannel(cv, k.c))
  {
    hide RefAcc, Finish;
    PlaceThenCoord(cv, k);
  }

  lemma DoneAt(s: Arch, cv: Conv, oc: nat, y: nat, x: nat, i: nat, j: nat, n: nat)
    requires TileDone(s, cv, oc, y, x) && i < 4 && j < 4 && n < L
    ensures s.pe[4 * i + j].acc[n] == Wrap(RefAcc(cv, 0, y + i, x + j, oc + n))
  {
    hide RefAcc;
    assert (4 * i + j) / 4 == i && (4 * i + j) % 4 == j;
  }

  /** Bias, rescale, offset and clamp, in the driver's own steps. */
  method Requantise(cv: Conv, rescale: Rescale, rd: Word, ch: nat, scale: nat) returns (byte: Int8)
    requires cv.Valid() && cv.outputOffset == -128 && ch < cv.outD && scale < cv.outD
    ensures byte == Finish(cv, rescale, Signed32(rd), ch, scale)
  {
    var acc := Signed32(rd);
    if cv.bias.Some? {
      acc := Add32(acc, cv.bias.value[ch]);
    }
    acc := rescale(acc, cv.multiplier[scale], cv.shift[scale]);
    acc := Add32(acc, -128);
    acc := if acc < cv.actMin then cv.actMin else acc;
    acc := if cv.actMax < acc then cv.actMax else acc;
    byte := ToInt8(acc as int);
  }

  /** Where output (i, j, n) of the tile goes and what belongs there. */
  lemma StorePlan(s: Arch, cv: Conv, rescale: Rescale, oc: nat, y: nat, x: nat, i: nat, j: nat, n: nat)
    requires Supported(cv) && TileDone(s, cv, oc, y, x) && oc % L == 0
    requires oc + L <= cv.outD && y + 4 <= cv.outH && x + 4 <= cv.outW && i < 4 && j < 4 && n < L
    ensures var at := Place(cv, Coord(0, y + i, x + j, oc + n));
            && 0 <= at < cv.OutputSize() && CoordOf(cv, at) == Coord(0, y + i, x + j, oc + n)
            && DriverOutput(cv, rescale)[at]
               == Finish(cv, rescale, Signed32(s.pe[4 * i + j].acc[n]), oc + n, if cv.inD == 1 then oc else oc + n)
  {
    hide RefAcc, DriverOutput, CoordOf, Place, Finish, TileDone, Wrap, Signed32, ScaleChannel;
    DriverAt(cv, rescale, Coord(0, y + i, x + j, oc + n));
    DoneAt(s, cv, oc, y, x, i, j, n);
    GroupBase(cv, oc, n);
  }

  /** One output: read accumulator n of unit id and requantise. */
  method ReadOne(cfu: Accelerator, cv: Conv, rescale: Rescale, oc: nat, y: nat, x: nat, i: nat, j: nat, n: nat, id: nat)
    returns (byte: Int8, ghost at: nat)
    requires cfu.Valid() && cfu.CmdReady() && TileDone(cfu.State(), cv, oc, y, x) && AllDrained(cfu.State())
    requires Supported(cv) && oc + L <= cv.outD && y + 4 <= cv.outH && x + 4 <= cv.outW
    requires i < 4 && j < 4 && n < L && id == 4 * i + j && oc % L == 0
    modifies cfu.Repr
    ensures cfu.Valid() && cfu.CmdReady() && TileDone(cfu.State(), cv, oc, y, x) && AllDrained(cfu.State())
    ensures at == Place(cv, Coord(0, y + i, x + j, oc + n)) && at < cv.OutputSize()
    ensures CoordOf(cv, at) == Coord(0, y + i, x + j, oc + n) && byte == DriverOutput(cv, rescale)[at]
  {
    hide Exec, RefAcc, DriverOutput, CoordOf, Place, Finish, TileDone, AllDrained, Signed32, cfu.Valid;
    ghost var s := cfu.State();
    ReadKeeps(s, id, n);
    StorePlan(s, cv, rescale, oc, y, x, i, j, n);
    var rd := CfuOp0(cfu, 2, id, n);
    SameDone(s, cfu.State(), cv, oc, y, x);
    byte := Requantise(cv, rescale, rd, oc + n, if cv.inD == 1 then oc else oc + n);
    at := Place(cv, Coord(0, y + i, x + j, oc + n));
  }

  /** Then store it. */
  method StoreOne(cfu: Accelerator, cv: Conv, rescale: Rescale, output: array<Int8>,
                  oc: nat, y: nat, x: nat, i: nat, j: nat, n: nat, id: nat)
    requires cfu.Valid() && cfu.CmdReady() && TileDone(cfu.State(), cv, oc, y, x) && AllDrained(cfu.State())
    requires Supported(cv) && oc + L <= cv.outD && y + 4 <= cv.outH && x + 4 <= cv.outW
    requires i < 4 && j < 4 && n < L && id == 4 * i + j && oc % L == 0
    requires output !in cfu.Repr && output.Length == cv.OutputSize()
    requires Stored(cv, DriverOutput(cv, rescale), output[..], oc, y, x, i, j, n)
    modifies cfu.Repr, output
    ensures cfu.Valid() && cfu.CmdReady() && TileDone(cfu.State(), cv, oc, y, x) && AllDrained(cfu.State())
    ensures Stored(cv, DriverOutput(cv, rescale), output[..], oc, y, x, i, j, n + 1)
  {
    hide Stored, DriverOutput, CoordOf, Place, TileDone, AllDrained, cfu.Valid;
    ghost var out := output[..];
    var byte, at := ReadOne(cfu, cv, rescale, oc, y, x, i, j, n, id);
    StoreNext(cv, DriverOutput(cv, rescale), out, oc, y, x, i, j, n, at);
    output[Place(cv, Coord(0, y + i, x + j, oc + n))] := byte;
    assert output[..] == out[at := DriverOutput(cv, rescale)[at]];
  }

  lemma GroupBase(cv: Conv, oc: nat, n: nat)
    requires oc % L == 0 && n < L
    ensures ScaleChannel(cv, oc + n) == if cv.inD == 1 then oc else oc + n
  {
  }

  lemma SameDone(s: Arch, t: Arch, cv: Conv, oc: nat, y: nat, x: nat)
    requires TileDone(s, cv, oc, y, x) && AllDrained(s) && t.Valid() && t.pe == s.pe
    ensures TileDone(t, cv, oc, y, x) && AllDrained(t)
  {
    hide RefAcc, Wrap;
  }

  /** The sixteen units in order, eight channels each. */
  method StoreTile(cfu: Accelerator, cv: Conv, rescale: Rescale, output: array<Int8>, oc: nat, y: nat, x: nat)
    requires cfu.Valid() && cfu.CmdReady() && TileDone(cfu.State(), cv, oc, y, x) && AllDrained(cfu.State())
    requires Supported(cv) && oc + L <= cv.outD && y + 4 <= cv.outH && x + 4 <= cv.outW && oc % L == 0
    requires output !in cfu.Repr && output.Length == cv.OutputSize()
    requires Stored(cv, DriverOutput(cv, rescale), output[..], oc, y, x, 0, 0, 0)
    modifies cfu.Repr, output
    ensures cfu.Valid() && cfu.CmdReady() && AllDrained(cfu.State())
    ensures Stored(cv, DriverOutput(cv, rescale), output[..], oc, y, x + 4, 0, 0, 0)
  {
    hide Stored, DriverOutput, TileDone, AllDrained, cfu.Valid;
    var id := 0;
    for i := 0 to 4
      invariant id == 4 * i
      invariant cfu.Valid() && cfu.CmdReady() && TileDone(cfu.State(), cv, oc, y, x) && AllDrained(cfu.State())
      invariant Stored(cv, DriverOutput(cv, rescale), output[..], oc, y, x, i, 0, 0)
    {
      for j := 0 to 4
        invariant id == 4 * i + j
        invariant cfu.Valid() && cfu.CmdReady() && TileDone(cfu.State(), cv, oc, y, x) && AllDrained(cfu.State())
        invariant Stored(cv, DriverOutput(cv, rescale), output[..], oc, y, x, i, j, 0)
      {
        for n := 0 to L
          invariant cfu.Valid() && cfu.CmdReady() && TileDone(cfu.State(), cv, oc, y, x) && AllDrained(cfu.State())
          invariant Stored(cv, DriverOutput(cv, rescale), output[..], oc, y, x, i, j, n)
        {
          StoreOne(cfu, cv, rescale, output, oc, y, x, i, j, n, id);
        }
        id := id + 1;
        TileOrder(cv, DriverOutput(cv, rescale), output[..], oc, y, x, i, j);
      }
      TileOrder(cv, DriverOutput(cv, rescale), output[..], oc, y, x, i, 0);
    }
    TileOrder(cv, DriverOutput(cv, rescale), output[..], oc, y, x, 0, 0);
  }

  // ----- the whole kernel -----

  /** The body of the three tile loops, in either branch. */
  method ConvolveTile(cfu: Accelerator, cv: Conv, rescale: Rescale, output: array<Int8>, oc: nat, y: nat, x: nat)
    requires cfu.Valid() && cfu.CmdReady() && ProductsClear(cfu.State())
    requires Supported(cv) && oc + L <= cv.outD && y + 4 <= cv.outH && x + 4 <= cv.outW && oc % L == 0
    requires output !in cfu.Repr && output.Length == cv.OutputSize()
    requires Stored(cv, DriverOutput(cv, rescale), output[..], oc, y, x, 0, 0, 0)
    modifies cfu.Repr, output
    ensures cfu.Valid() && cfu.CmdReady() && ProductsClear(cfu.State())
    ensures Stored(cv, DriverOutput(cv, rescale), output[..], oc, y, x + 4, 0, 0, 0)
  {
    hide Stored, DriverOutput, TileDone, AllDrained, ProductsClear, cfu.Valid;
    if cv.inD == 1 {
      ComputeSingleTile(cfu, cv, oc, y, x);
    } else {
      ComputeTile(cfu, cv, oc, y, x);
    }
    StoreTile(cfu, cv, rescale, output, oc, y, x);
    DrainedProducts(cfu.State());
  }

  lemma NextStep(v: nat, n: nat, step: nat)
    requires (step == 4 || step == L) && v % step == 0 && n % step == 0 && v < n
    ensures v + step <= n && (v + step) % step == 0
  {
    if step == 4 {
      assert v + 4 <= n;
    } else {
      assert v + 8 <= n;
    }
  }

  /** One row of tiles. */
  method ConvolveRow(cfu: Accelerator, cv: Conv, rescale: Rescale, output: array<Int8>, oc: nat, y: nat)
    requires cfu.Valid() && cfu.CmdReady() && ProductsClear(cfu.State())
    requires Supported(cv) && oc + L <= cv.outD && y + 4 <= cv.outH && oc % L == 0
    requires output !in cfu.Repr && output.Length == cv.OutputSize()
    requires Stored(cv, DriverOutput(cv, rescale), output[..], oc, y, 0, 0, 0, 0)
    modifies cfu.Repr, output
    ensures cfu.Valid() && cfu.CmdReady() && ProductsClear(cfu.State())
    ensures Stored(cv, DriverOutput(cv, rescale), output[..], oc, y + 4, 0, 0, 0, 0)
  {
    hide Stored, DriverOutput, ProductsClear, cfu.Valid;
    var x := 0;
    while x < cv.outW
      invariant x % 4 == 0 && x <= cv.outW
      invariant cfu.Valid() && cfu.CmdReady() && ProductsClear(cfu.State())
      invariant Stored(cv, DriverOutput(cv, rescale), output[..], oc, y, x, 0, 0, 0)
    {
      NextStep(x, cv.outW, 4);
      ConvolveTile(cfu, cv, rescale, output, oc, y, x);
      x := x + 4;
    }
    PassOrder(cv, DriverOutput(cv, rescale), output[..], oc, y);
  }

  /**
   End to end, over the clocked hardware with arbitrary idle cycles and back-pressure: from any
   state with clear product registers the driver writes the reference tensor, and it leaves the
   array ready for the next layer.
   */
  method AcceleratedConvPerChannel(cfu: Accelerator, cv: Conv, rescale: Rescale, output: array<Int8>)
    requires cfu.Valid() && cfu.CmdReady() && ProductsClear(cfu.State())
    requires Supported(cv) && output !in cfu.Repr && output.Length == cv.OutputSize()
    modifies cfu.Repr, output
    ensures cfu.Valid() && cfu.CmdReady() && ProductsClear(cfu.State())
    ensures output[..] == DriverOutput(cv, rescale)
    ensures cv.AccumulatorFits() && (cv.inD != 1 || GroupScales(cv)) ==> output[..] == RefOutput(cv, rescale)
  {
    hide Stored, DriverOutput, RefOutput, ProductsClear, GroupScales, cfu.Valid;
    StoreStart(cv, DriverOutput(cv, rescale), output[..]);
    var oc := 0;
    while oc < cv.outD
      invariant oc % L == 0 && oc <= cv.outD
      invariant cfu.Valid() && cfu.CmdReady() && ProductsClear(cfu.State())
      invariant Stored(cv, DriverOutput(cv, rescale), output[..], oc, 0, 0, 0, 0, 0)
    {
      NextStep(oc, cv.outD, L);
      var y := 0;
      while y < cv.outH
        invariant y % 4 == 0 && y <= cv.outH
        invariant cfu.Valid() && cfu.CmdReady() && ProductsClear(cfu.State())
        invariant Stored(cv, DriverOutput(cv, rescale), output[..], oc, y, 0, 0, 0, 0)
      {
        NextStep(y, cv.outH, 4);
        ConvolveRow(cfu, cv, rescale, output, oc, y);
        y := y + 4;
      }
      PassOrder(cv, DriverOutput(cv, rescale), output[..], oc, 0);
      oc := oc + L;
    }
    PassOrder(cv, DriverOutput(cv, rescale), output[..], 0, 0);
    if cv.AccumulatorFits() && (cv.inD != 1 || GroupScales(cv)) {
      DriverIsReference(cv, rescale);
    }
  }

  /** Both kernels, one after the other, on any supported layer: the same bytes. */
  method BothKernels(cfu: Accelerator, cv: Conv, rescale: Rescale) returns (fast: array<Int8>, plain: array<Int8>)
    requires cfu.Valid() && cfu.CmdReady() && ProductsClear(cfu.State())
    requires Supported(cv) && cv.AccumulatorFits() && (cv.inD != 1 || GroupScales(cv))
    modifies cfu.Repr
    ensures fast[..] == plain[..]
  {
    hide RefOutput, DriverOutput, ProductsClear, cfu.Valid;
    fast := new Int8[cv.OutputSize()];
    plain := new Int8[cv.OutputSize()];
    AcceleratedConvPerChannel(cfu, cv, rescale, fast);
    ReferenceConvPerChannel(cv, rescale, plain);
  }
}
