/**
 The accelerated int8 ConvPerChannel of
 proj/accel/src/tensorflow/lite/kernels/internal/reference/integer_ops/conv.h,
 multi-channel and single-channel branch: the command stream of one tile over
 the clocked accelerator, and the proof that every accumulator ends with its
 reference sum.
 */
module Kernel {
  import opened Words
  import opened Sums
  import opened Mac
  import opened Cfu
  import opened Pipeline
  import opened Cpu
  import opened Conv
  import opened Tiles

  /** Output channels per pass: one accumulator each. */
  const L := 8

  /** The image side the single-channel branch is written for. */
  const IMAGE := 28

  /** What the driver assumes about the layer; the single-channel branch fixes the image and the padding. */
  ghost predicate Supported(cv: Conv) {
    && cv.Valid() && Accelerable(cv)
    && cv.outH % 4 == 0 && cv.outW % 4 == 0 && cv.outD % L == 0
    && if cv.inD == 1 then cv.inH == cv.inW == IMAGE && cv.padH == cv.padW == 1 else cv.inD % 4 == 0
  }

  /** No product register holds anything: the only power-on requirement. */
  ghost predicate ProductsClear(s: Arch) {
    s.Valid() && forall u :: 0 <= u < UNITS ==> s.pe[u].prod == 0
  }

  /** A 32-bit load from an int8 tensor. */
  method LoadWord(data: seq<Int8>, at: int) returns (w: Word)
    requires 0 <= at && at + 4 <= |data|
    ensures w == Load32(At(data, at), At(data, at + 1), At(data, at + 2), At(data, at + 3))
  {
    hide Load32;
    w := Load32(data[at], data[at + 1], data[at + 2], data[at + 3]);
  }

  /** Four channels at (inY, inX), or the padding word outside the image. */
  method FetchPixel(cv: Conv, inY: int, inX: int, c: nat) returns (a: Word)
    requires Supported(cv) && c + 4 <= cv.inD
    ensures a == TileWord(cv, inY, inX, c)
  {
    hide Load32, Offset;
    a := PADDING;
    var inImage := 0 <= inX < cv.inW && 0 <= inY < cv.inH;
    if inImage {
      OffsetBounds(1, cv.inH, cv.inW, cv.inD, 0, inY, inX, c);
      OffsetBounds(1, cv.inH, cv.inW, cv.inD, 0, inY, inX, c + 3);
      NextChannels(cv.inH, cv.inW, cv.inD, 0, inY, inX, c);
      a := LoadWord(cv.input, Offset(cv.inH, cv.inW, cv.inD, 0, inY, inX, c));
    }
  }

  method FetchWeight(cv: Conv, ch: nat, fy: nat, fx: nat, c: nat) returns (a: Word)
    requires Supported(cv) && c + 4 <= cv.inD && ch < cv.outD && fy < 3 && fx < 3
    ensures a == FilterWord(cv, ch, fy, fx, c)
  {
    hide Load32, Offset;
    OffsetBounds(cv.outD, 3, 3, cv.inD, ch, fy, fx, c);
    OffsetBounds(cv.outD, 3, 3, cv.inD, ch, fy, fx, c + 3);
    NextChannels(3, 3, cv.inD, ch, fy, fx, c);
    a := LoadWord(cv.filter, Offset(3, 3, cv.inD, ch, fy, fx, c));
  }

  lemma NextChannels(h: int, w: int, d: int, b: int, y: int, x: int, c: int)
    ensures Offset(h, w, d, b, y, x, c + 1) == Offset(h, w, d, b, y, x, c) + 1
    ensures Offset(h, w, d, b, y, x, c + 2) == Offset(h, w, d, b, y, x, c) + 2
    ensures Offset(h, w, d, b, y, x, c + 3) == Offset(h, w, d, b, y, x, c) + 3
  {
  }

  // ----- loading the scratchpad -----

  /** What a func-5 command writes while its counter is inside the scratchpad. */
  lemma StorePair(s: Arch, a: Word, b: Word)
    requires s.Valid() && s.memCtr + 1 < DEPTH
    ensures var t := Exec(s, Cmd(5, a, b));
            && t.tile == s.tile[s.memCtr := a][s.memCtr + 1 := b]
            && t.memCtr == s.memCtr + 2 && t.pe == s.pe
  {
  }

  /** One func-5 write of the next two words of the tile. */
  method WritePair(cfu: Accelerator, ghost tile: seq<Word>, a: Word, b: Word)
    requires cfu.Valid() && cfu.CmdReady() && |tile| == 36
    requires cfu.memCtr % 2 == 0 && cfu.memCtr < 36
    requires a == tile[cfu.memCtr] && b == tile[cfu.memCtr + 1]
    requires cfu.State().tile[..cfu.memCtr] == tile[..cfu.memCtr]
    modifies cfu.Repr
    ensures cfu.Valid() && cfu.CmdReady()
    ensures cfu.memCtr == old(cfu.memCtr) + 2 && cfu.State().pe == old(cfu.State()).pe
    ensures cfu.State().tile[..cfu.memCtr] == tile[..cfu.memCtr]
  {
    hide Exec;
    ghost var s := cfu.State();
    StorePair(s, a, b);
    var _ := CfuOp0(cfu, 5, a, b);
    assert cfu.State().tile[..s.memCtr] == s.tile[..s.memCtr];
    assert cfu.State().tile[..s.memCtr + 2] == cfu.State().tile[..s.memCtr] + [a, b];
    assert tile[..s.memCtr + 2] == tile[..s.memCtr] + [a, b];
  }

  lemma TilePixel(cv: Conv, y: int, x: int, c: int, row: nat, col: nat)
    requires row < 6 && col < 6
    ensures Tile(cv, y, x, c)[6 * row + col] == TileWord(cv, y - cv.padH + row, x - cv.padW + col, c)
  {
    hide TileWord;
    assert (6 * row + col) / 6 == row && (6 * row + col) % 6 == col;
  }

  /** Two neighbouring words of one tile row. */
  method LoadPair(cfu: Accelerator, cv: Conv, y: nat, x: nat, c: nat, id: nat, col: nat)
    requires cfu.Valid() && cfu.CmdReady()
    requires Supported(cv) && c + 4 <= cv.inD && id < 6 && col < 6 && col % 2 == 0
    requires cfu.memCtr == 6 * id + col && cfu.State().tile[..cfu.memCtr] == Tile(cv, y, x, c)[..cfu.memCtr]
    modifies cfu.Repr
    ensures cfu.Valid() && cfu.CmdReady()
    ensures cfu.memCtr == 6 * id + col + 2 && cfu.State().pe == old(cfu.State()).pe
    ensures cfu.State().tile[..cfu.memCtr] == Tile(cv, y, x, c)[..cfu.memCtr]
  {
    hide Exec, TileWord, Tile, cfu.Valid;
    var inY := y - cv.padH;
    var inX := x - cv.padW;
    TilePixel(cv, y, x, c, id, col);
    TilePixel(cv, y, x, c, id, col + 1);
    var a := FetchPixel(cv, inY + id, inX + col, c);
    var b := FetchPixel(cv, inY + id, inX + (col + 1), c);
    WritePair(cfu, Tile(cv, y, x, c), a, b);
  }

  /** func 4 and eighteen writes fill the first 36 words with the tile, row by row. */
  method LoadTile(cfu: Accelerator, cv: Conv, y: nat, x: nat, c: nat)
    requires cfu.Valid() && cfu.CmdReady()
    requires Supported(cv) && c + 4 <= cv.inD
    modifies cfu.Repr
    ensures cfu.Valid() && cfu.CmdReady() && cfu.State().pe == old(cfu.State()).pe
    ensures cfu.State().tile[..36] == Tile(cv, y, x, c)
  {
    hide Exec, Tile, cfu.Valid;
    RewindKeeps(cfu.State());
    var _ := CfuOp0(cfu, 4, 0, 0);
    for id := 0 to 6
      invariant cfu.Valid() && cfu.CmdReady() && cfu.State().pe == old(cfu.State()).pe
      invariant cfu.memCtr == 6 * id
      invariant cfu.State().tile[..cfu.memCtr] == Tile(cv, y, x, c)[..cfu.memCtr]
    {
      LoadPair(cfu, cv, y, x, c, id, 0);
      LoadPair(cfu, cv, y, x, c, id, 2);
      LoadPair(cfu, cv, y, x, c, id, 4);
    }
  }

  // ----- sending the weights -----

  /** The nine filter words of one output channel. */
  method FetchBlock(cv: Conv, ch: nat, c: nat) returns (ws: seq<Word>)
    requires Supported(cv) && c + 4 <= cv.inD && ch < cv.outD
    ensures ws == FilterBlock(cv, ch, c)
  {
    hide FilterWord;
    var w00 := FetchWeight(cv, ch, 0, 0, c);
    var w01 := FetchWeight(cv, ch, 0, 1, c);
    var w02 := FetchWeight(cv, ch, 0, 2, c);
    var w10 := FetchWeight(cv, ch, 1, 0, c);
    var w11 := FetchWeight(cv, ch, 1, 1, c);
    var w12 := FetchWeight(cv, ch, 1, 2, c);
    var w20 := FetchWeight(cv, ch, 2, 0, c);
    var w21 := FetchWeight(cv, ch, 2, 1, c);
    var w22 := FetchWeight(cv, ch, 2, 2, c);
    ws := [w00, w01, w02, w10, w11, w12, w20, w21, w22];
  }

  /** One more func-1 command of a prepared stream. */
  method SendTap(cfu: Accelerator, ghost start: Arch, ghost cmds: seq<Cmd>, ghost k: nat, a: Word, i: nat)
    requires cfu.Valid() && cfu.CmdReady() && i < L
    requires start.Valid() && k < |cmds| && cmds[k] == Cmd(1, a, i) && cfu.State() == Run(start, cmds, k)
    modifies cfu.Repr
    ensures cfu.Valid() && cfu.CmdReady() && cfu.State() == Run(start, cmds, k + 1)
  {
    hide Exec;
    var _ := CfuOp0(cfu, 1, a, i);
  }

  /** Three commands in a row. */
  method SendThree(cfu: Accelerator, ghost start: Arch, ghost cmds: seq<Cmd>, ghost k: nat, a: Word, b: Word, c: Word, i: nat)
    requires cfu.Valid() && cfu.CmdReady() && i < L
    requires start.Valid() && k + 3 <= |cmds| && cfu.State() == Run(start, cmds, k)
    requires cmds[k] == Cmd(1, a, i) && cmds[k + 1] == Cmd(1, b, i) && cmds[k + 2] == Cmd(1, c, i)
    modifies cfu.Repr
    ensures cfu.Valid() && cfu.CmdReady() && cfu.State() == Run(start, cmds, k + 3)
  {
    hide Exec, Run, cfu.Valid;
    SendTap(cfu, start, cmds, k, a, i);
    SendTap(cfu, start, cmds, k + 1, b, i);
    SendTap(cfu, start, cmds, k + 2, c, i);
  }

  /** func 4, nine weights and three zeros for accumulator i. */
  method SendBlock(cfu: Accelerator, ws: seq<Word>, i: nat)
    requires cfu.Valid() && cfu.CmdReady() && AllDrained(cfu.State())
    requires |ws| == 9 && i < L
    modifies cfu.Repr
    ensures cfu.Valid() && cfu.CmdReady() && AllDrained(cfu.State())
    ensures cfu.State().tile == old(cfu.State()).tile
    ensures forall u :: 0 <= u < UNITS ==>
      cfu.State().pe[u].acc == AddTo(old(cfu.State()).pe[u].acc, i, TileDot(old(cfu.State()).tile, ws, u))
  {
    hide Exec, Run, TileDot, AllDrained, AddTo, cfu.Valid;
    ghost var before := cfu.State();
    RewindKeeps(before);
    var _ := CfuOp0(cfu, 4, 0, 0);
    ghost var start := cfu.State();
    ghost var cmds := WeightBlock(ws, i);
    RunStart(start, cmds);
    SendThree(cfu, start, cmds, 0, ws[0], ws[1], ws[2], i);
    SendThree(cfu, start, cmds, 3, ws[3], ws[4], ws[5], i);
    SendThree(cfu, start, cmds, 6, ws[6], ws[7], ws[8], i);
    SendThree(cfu, start, cmds, 9, 0, 0, 0, i);
    DrainedBlock(before, start, ws, i);
  }

  lemma RunStart(s: Arch, cmds: seq<Cmd>)
    requires s.Valid()
    ensures Run(s, cmds, 0) == s
  {
  }

  /** Accumulator i of a bank gains x. */
  function AddTo(acc: seq<Word>, i: nat, x: int): seq<Word>
    requires i < |acc|
  {
    acc[i := Wrap(acc[i] + x)]
  }

  lemma DrainedBlock(before: Arch, start: Arch, ws: seq<Word>, i: nat)
    requires before.Valid() && AllDrained(before) && start.Valid()
    requires start.ctr == 0 && start.tileW == 0 && start.pe == before.pe && start.tile == before.tile
    requires |ws| == 9 && i < L
    ensures var t := Run(start, WeightBlock(ws, i), 12);
            && AllDrained(t) && t.tile == before.tile
            && forall u :: 0 <= u < UNITS ==> t.pe[u].acc == AddTo(before.pe[u].acc, i, TileDot(before.tile, ws, u))
  {
    hide Exec, Run, TileDot, InFlight;
    WeightBlockEffect(start, ws, i);
    forall u | 0 <= u < UNITS
      ensures InFlight(start, u) == 0
    {
      DrainedInFlight(start, u);
    }
  }

  // ----- all channels of one 4x4 tile -----

  /** Accumulators 0 to done-1 have taken n+1 channel blocks, the others n. */
  ghost predicate Accumulated(s: Arch, cv: Conv, oc: nat, y: nat, x: nat, n: nat, done: nat) {
    && s.Valid()
    && forall u, i :: 0 <= u < UNITS && 0 <= i < L ==>
         s.pe[u].acc[i] == Wrap(BlockSum(cv, y, x, oc + i, u, if i < done then n + 1 else n))
  }

  lemma TileDotOfPrefix(tile: seq<Word>, ws: seq<Word>, u: nat)
    requires |tile| >= 36 && |ws| == 9 && u < UNITS
    ensures TileDot(tile, ws, u) == TileDot(tile[..36], ws, u)
  {
    hide Dot, Offset128, LanesOf, Tap;
    forall k | 0 <= k < 9
      ensures TapDots(tile, ws, u)(k) == TapDots(tile[..36], ws, u)(k)
    {
      TileIndex(u, k);
    }
    SumCong(9, TapDots(tile, ws, u), TapDots(tile[..36], ws, u));
  }

  /** Channel block n of channel oc+i, seen by one unit. */
  lemma AccumulateUnit(cv: Conv, tile: seq<Word>, y: nat, x: nat, ch: nat, n: nat, u: nat, acc: Word)
    requires |tile| >= 36 && tile[..36] == Tile(cv, y, x, 4 * n) && u < UNITS
    requires acc == Wrap(BlockSum(cv, y, x, ch, u, n))
    ensures Wrap(acc + TileDot(tile, FilterBlock(cv, ch, 4 * n), u)) == Wrap(BlockSum(cv, y, x, ch, u, n + 1))
  {
    hide Tile, FilterBlock, TileDot, Wrap;
    TileDotOfPrefix(tile, FilterBlock(cv, ch, 4 * n), u);
    WrapAdd(BlockSum(cv, y, x, ch, u, n), BlockDot(cv, y, x, ch, u, n));
  }

  lemma AccumulateBlock(s: Arch, t: Arch, cv: Conv, oc: nat, y: nat, x: nat, n: nat, i: nat)
    requires Accumulated(s, cv, oc, y, x, n, i) && i < L && t.Valid()
    requires s.tile[..36] == Tile(cv, y, x, 4 * n)
    requires forall u :: 0 <= u < UNITS ==>
               t.pe[u].acc == AddTo(s.pe[u].acc, i, TileDot(s.tile, FilterBlock(cv, oc + i, 4 * n), u))
    ensures Accumulated(t, cv, oc, y, x, n, i + 1)
  {
    hide Tile, FilterBlock, TileDot, Wrap, BlockSum;
    forall u, j | 0 <= u < UNITS && 0 <= j < L
      ensures t.pe[u].acc[j] == Wrap(BlockSum(cv, y, x, oc + j, u, if j < i + 1 then n + 1 else n))
    {
      if j == i {
        AccumulateUnit(cv, s.tile, y, x, oc + i, n, u, s.pe[u].acc[i]);
      }
    }
  }

  /** The weights of all eight output channels for channels c to c+3. */
  method SendWeights(cfu: Accelerator, cv: Conv, oc: nat, y: nat, x: nat, c: nat, ghost n: nat)
    requires cfu.Valid() && cfu.CmdReady() && AllDrained(cfu.State())
    requires Supported(cv) && c == 4 * n && c + 4 <= cv.inD && oc + L <= cv.outD
    requires cfu.State().tile[..36] == Tile(cv, y, x, c)
    requires Accumulated(cfu.State(), cv, oc, y, x, n, 0)
    modifies cfu.Repr
    ensures cfu.Valid() && cfu.CmdReady() && AllDrained(cfu.State())
    ensures Accumulated(cfu.State(), cv, oc, y, x, n, L)
  {
    hide Tile, FilterBlock, TileDot, AddTo, AllDrained, Accumulated, cfu.Valid;
    for i := 0 to L
      invariant cfu.Valid() && cfu.CmdReady() && AllDrained(cfu.State())
      invariant cfu.State().tile[..36] == Tile(cv, y, x, c)
      invariant Accumulated(cfu.State(), cv, oc, y, x, n, i)
    {
      ghost var before := cfu.State();
      var ws := FetchBlock(cv, oc + i, c);
      SendBlock(cfu, ws, i);
      AccumulateBlock(before, cfu.State(), cv, oc, y, x, n, i);
    }
  }

  lemma ClearedTile(s: Arch, cv: Conv, oc: nat, y: nat, x: nat)
    requires ProductsClear(s)
    ensures var t := Exec(s, Cmd(3, 0, 0)); AllDrained(t) && Accumulated(t, cv, oc, y, x, 0, 0)
  {
    hide BlockDots, BlockDot;
    var t := Exec(s, Cmd(3, 0, 0));
    forall u | 0 <= u < UNITS
      ensures Drained(t.pe[u]) && t.pe[u].acc == Mac.Cleared
    {
    }
  }

  lemma NextBlock(s: Arch, cv: Conv, oc: nat, y: nat, x: nat, n: nat)
    requires Accumulated(s, cv, oc, y, x, n, L)
    ensures Accumulated(s, cv, oc, y, x, n + 1, 0)
  {
    hide BlockSum, Wrap;
  }

  lemma DrainedProducts(s: Arch)
    requires s.Valid() && AllDrained(s)
    ensures ProductsClear(s)
  {
  }

  lemma SamePes(s: Arch, t: Arch, cv: Conv, oc: nat, y: nat, x: nat, n: nat)
    requires Accumulated(s, cv, oc, y, x, n, 0) && AllDrained(s) && t.Valid() && t.pe == s.pe
    ensures Accumulated(t, cv, oc, y, x, n, 0) && AllDrained(t)
  {
    hide BlockSum, Wrap;
  }

  /** Every accumulator of the array holds its reference sum (modulo 2^32). */
  ghost predicate TileDone(s: Arch, cv: Conv, oc: nat, y: nat, x: nat) {
    && s.Valid()
    && forall u, i :: 0 <= u < UNITS && 0 <= i < L ==>
         s.pe[u].acc[i] == Wrap(RefAcc(cv, 0, y + u / 4, x + u % 4, oc + i))
  }

  lemma AllBlocks(s: Arch, cv: Conv, oc: nat, y: nat, x: nat)
    requires Supported(cv) && cv.inD != 1 && Accumulated(s, cv, oc, y, x, cv.inD / 4, 0)
    ensures TileDone(s, cv, oc, y, x)
  {
    hide BlockSum, RefAcc, Wrap;
    forall u, i | 0 <= u < UNITS && 0 <= i < L
      ensures s.pe[u].acc[i] == Wrap(RefAcc(cv, 0, y + u / 4, x + u % 4, oc + i))
    {
      BlocksMakeReference(cv, y, x, oc + i, u);
    }
  }

  /** Multi-channel branch: func 3, then for every four input channels load the tile and send the weights. */
  method ComputeTile(cfu: Accelerator, cv: Conv, oc: nat, y: nat, x: nat)
    requires cfu.Valid() && cfu.CmdReady() && ProductsClear(cfu.State())
    requires Supported(cv) && cv.inD != 1 && oc + L <= cv.outD
    modifies cfu.Repr
    ensures cfu.Valid() && cfu.CmdReady() && AllDrained(cfu.State())
    ensures TileDone(cfu.State(), cv, oc, y, x)
  {
    hide Exec, Tile, AllDrained, Accumulated, TileDone, ProductsClear, cfu.Valid;
    ClearedTile(cfu.State(), cv, oc, y, x);
    var _ := CfuOp0(cfu, 3, 0, 0);
    var c := 0;
    ghost var n := 0;
    while c < cv.inD
      invariant c == 4 * n <= cv.inD
      invariant cfu.Valid() && cfu.CmdReady() && AllDrained(cfu.State())
      invariant Accumulated(cfu.State(), cv, oc, y, x, n, 0)
    {
      ghost var before := cfu.State();
      LoadTile(cfu, cv, y, x, c);
      SamePes(before, cfu.State(), cv, oc, y, x, n);
      SendWeights(cfu, cv, oc, y, x, c, n);
      NextBlock(cfu.State(), cv, oc, y, x, n);
      c := c + 4;
      n := n + 1;
    }
    AllBlocks(cfu.State(), cv, oc, y, x);
  }

  // ----- the single-channel branch -----

  /** A zero-extended byte of the image, or the padding word. */
  function SingleWord(cv: Conv, inY: int, inX: int): Word {
    if 0 <= inX < IMAGE && 0 <= inY < IMAGE then Bits8(Pixel(cv, 0, inY, inX, 0)) else PADDING
  }

  function SingleTile(cv: Conv, y: int, x: int): (t: seq<Word>)
    ensures |t| == 36
  {
    seq(36, j requires 0 <= j < 36 => SingleWord(cv, y - 1 + j / 6, x - 1 + j % 6))
  }

  function SingleFilter(cv: Conv, ch: int): (ws: seq<Word>)
    ensures |ws| == 9
  {
    seq(9, k requires 0 <= k < 9 => Bits8(Weight(cv, ch, k / 3, k % 3, 0)))
  }

  lemma ByteLanes(b: Byte)
    ensures LanesOf(b) == Lanes(b, 0, 0, 0)
    ensures Offset128(b) == Lanes((b + 128) % 0x100, 128, 128, 128)
  {
  }

  /** Three zero weight lanes silence the lanes a zero-extended activation leaves at 128. */
  lemma SingleDot(p: Int8, w: Int8)
    ensures Dot(Offset128(Bits8(p)), LanesOf(Bits8(w))) == w * (p + 128)
  {
    hide Offset128, LanesOf;
    ByteLanes(Bits8(p));
    ByteLanes(Bits8(w));
    ActivationByte(p);
    ActivationByte(w);
  }

  lemma SingleTap(cv: Conv, y: int, x: int, ch: int, u: nat, k: nat)
    requires Supported(cv) && cv.inD == 1 && u < UNITS && k < 9
    ensures TapDot(SingleTile(cv, y, x), SingleFilter(cv, ch), u, k)
         == TapChannels(cv, y + u / 4, x + u % 4, ch)(k)
  {
    hide Dot, Offset128, LanesOf, Pixel, Weight, Tap, Bits8;
    TileIndex(u, k);
    var oy, ox, fy, fx := y + u / 4, x + u % 4, k / 3, k % 3;
    assert SingleTile(cv, y, x)[Tap(u, k)] == SingleWord(cv, oy - 1 + fy, ox - 1 + fx);
    var f := TapTerms(cv, 0, oy, ox, ch, fy, fx);
    assert Sum(1, f) == Sum(0, f) + f(0);
    if Inside(cv, oy - 1 + fy, ox - 1 + fx) {
      SingleDot(Pixel(cv, 0, oy - 1 + fy, ox - 1 + fx, 0), Weight(cv, ch, fy, fx, 0));
    } else {
      PaddingLanes();
      PaddingAddsNothing(LanesOf(Bits8(Weight(cv, ch, fy, fx, 0))));
    }
  }

  lemma SingleSum(cv: Conv, y: int, x: int, ch: int, u: nat)
    requires Supported(cv) && cv.inD == 1 && u < UNITS
    ensures TileDot(SingleTile(cv, y, x), SingleFilter(cv, ch), u) == RefAcc(cv, 0, y + u / 4, x + u % 4, ch)
  {
    hide TapDot, TapChannels, RefAcc;
    forall k | 0 <= k < 9
      ensures TapDots(SingleTile(cv, y, x), SingleFilter(cv, ch), u)(k) == TapChannels(cv, y + u / 4, x + u % 4, ch)(k)
    {
      SingleTap(cv, y, x, ch, u, k);
    }
    SumCong(9, TapDots(SingleTile(cv, y, x), SingleFilter(cv, ch), u), TapChannels(cv, y + u / 4, x + u % 4, ch));
    TapsMakePatch(cv, y + u / 4, x + u % 4, ch);
  }

  method FetchSingle(cv: Conv, inY: int, inX: int) returns (a: Word)
    requires Supported(cv) && cv.inD == 1
    ensures a == SingleWord(cv, inY, inX)
  {
    hide Offset;
    a := PADDING;
    var inImage := 0 <= inX < IMAGE && 0 <= inY < IMAGE;
    if inImage {
      OffsetBounds(1, cv.inH, cv.inW, 1, 0, inY, inX, 0);
      a := Bits8(cv.input[Offset(cv.inH, cv.inW, cv.inD, 0, inY, inX, 0)]);
    }
  }

  method LoadSinglePair(cfu: Accelerator, cv: Conv, y: nat, x: nat, id: nat, col: nat)
    requires cfu.Valid() && cfu.CmdReady()
    requires Supported(cv) && cv.inD == 1 && id < 6 && col < 6 && col % 2 == 0
    requires cfu.memCtr == 6 * id + col && cfu.State().tile[..cfu.memCtr] == SingleTile(cv, y, x)[..cfu.memCtr]
    modifies cfu.Repr
    ensures cfu.Valid() && cfu.CmdReady()
    ensures cfu.memCtr == 6 * id + col + 2 && cfu.State().pe == old(cfu.State()).pe
    ensures cfu.State().tile[..cfu.memCtr] == SingleTile(cv, y, x)[..cfu.memCtr]
  {
    hide Exec, SingleWord, SingleTile, cfu.Valid;
    SinglePixel(cv, y, x, id, col);
    SinglePixel(cv, y, x, id, col + 1);
    var a := FetchSingle(cv, y - 1 + id, x - 1 + col);
    var b := FetchSingle(cv, y - 1 + id, x - 1 + (col + 1));
    WritePair(cfu, SingleTile(cv, y, x), a, b);
  }

  lemma SinglePixel(cv: Conv, y: int, x: int, row: nat, col: nat)
    requires row < 6 && col < 6
    ensures SingleTile(cv, y, x)[6 * row + col] == SingleWord(cv, y - 1 + row, x - 1 + col)
  {
    hide SingleWord;
    assert (6 * row + col) / 6 == row && (6 * row + col) % 6 == col;
  }

  method LoadSingleTile(cfu: Accelerator, cv: Conv, y: nat, x: nat)
    requires cfu.Valid() && cfu.CmdReady() && Supported(cv) && cv.inD == 1
    modifies cfu.Repr
    ensures cfu.Valid() && cfu.CmdReady() && cfu.State().pe == old(cfu.State()).pe
    ensures cfu.State().tile[..36] == SingleTile(cv, y, x)
  {
    hide Exec, SingleTile, cfu.Valid;
    RewindKeeps(cfu.State());
    var _ := CfuOp0(cfu, 4, 0, 0);
    for id := 0 to 6
      invariant cfu.Valid() && cfu.CmdReady() && cfu.State().pe == old(cfu.State()).pe
      invariant cfu.memCtr == 6 * id
      invariant cfu.State().tile[..cfu.memCtr] == SingleTile(cv, y, x)[..cfu.memCtr]
    {
      LoadSinglePair(cfu, cv, y, x, id, 0);
      LoadSinglePair(cfu, cv, y, x, id, 2);
      LoadSinglePair(cfu, cv, y, x, id, 4);
    }
  }

  method FetchSingleWeight(cv: Conv, ch: nat, fy: nat, fx: nat) returns (a: Word)
    requires Supported(cv) && cv.inD == 1 && ch < cv.outD && fy < 3 && fx < 3
    ensures a == Bits8(Weight(cv, ch, fy, fx, 0))
  {
    hide Offset, Bits8;
    OffsetBounds(cv.outD, 3, 3, 1, ch, fy, fx, 0);
    a := Bits8(cv.filter[Offset(3, 3, cv.inD, ch, fy, fx, 0)]);
  }

  method FetchSingleFilter(cv: Conv, ch: nat) returns (ws: seq<Word>)
    requires Supported(cv) && cv.inD == 1 && ch < cv.outD
    ensures ws == SingleFilter(cv, ch)
  {
    hide Weight, Bits8;
    var w00 := FetchSingleWeight(cv, ch, 0, 0);
    var w01 := FetchSingleWeight(cv, ch, 0, 1);
    var w02 := FetchSingleWeight(cv, ch, 0, 2);
    var w10 := FetchSingleWeight(cv, ch, 1, 0);
    var w11 := FetchSingleWeight(cv, ch, 1, 1);
    var w12 := FetchSingleWeight(cv, ch, 1, 2);
    var w20 := FetchSingleWeight(cv, ch, 2, 0);
    var w21 := FetchSingleWeight(cv, ch, 2, 1);
    var w22 := FetchSingleWeight(cv, ch, 2, 2);
    ws := [w00, w01, w02, w10, w11, w12, w20, w21, w22];
  }

  /** Channels oc to oc+done-1 of the tile hold their reference sums, the rest zero. */
  ghost predicate SingleDone(s: Arch, cv: Conv, oc: nat, y: nat, x: nat, done: nat) {
    && s.Valid()
    && forall u, i :: 0 <= u < UNITS && 0 <= i < L ==>
         s.pe[u].acc[i] == if i < done then Wrap(RefAcc(cv, 0, y + u / 4, x + u % 4, oc + i)) else 0
  }

  lemma SingleStart(s: Arch, t: Arch, cv: Conv, oc: nat, y: nat, x: nat)
    requires ProductsClear(s) && t.Valid() && t.pe == Exec(s, Cmd(3, 0, 0)).pe
    ensures AllDrained(t) && SingleDone(t, cv, oc, y, x, 0)
  {
    forall u | 0 <= u < UNITS
      ensures Drained(t.pe[u]) && t.pe[u].acc == Mac.Cleared
    {
    }
  }

  lemma SingleNext(s: Arch, t: Arch, cv: Conv, oc: nat, y: nat, x: nat, i: nat)
    requires Supported(cv) && cv.inD == 1
    requires SingleDone(s, cv, oc, y, x, i) && i < L && t.Valid()
    requires s.tile[..36] == SingleTile(cv, y, x)
    requires forall u :: 0 <= u < UNITS ==>
               t.pe[u].acc == AddTo(s.pe[u].acc, i, TileDot(s.tile, SingleFilter(cv, oc + i), u))
    ensures SingleDone(t, cv, oc, y, x, i + 1)
  {
    hide SingleTile, SingleFilter, TileDot, RefAcc, Wrap;
    forall u, j | 0 <= u < UNITS && 0 <= j < L
      ensures t.pe[u].acc[j] == if j < i + 1 then Wrap(RefAcc(cv, 0, y + u / 4, x + u % 4, oc + j)) else 0
    {
      TileDotOfPrefix(s.tile, SingleFilter(cv, oc + i), u);
      SingleSum(cv, y, x, oc + i, u);
    }
  }

  lemma SingleAll(s: Arch, cv: Conv, oc: nat, y: nat, x: nat)
    requires SingleDone(s, cv, oc, y, x, L)
    ensures TileDone(s, cv, oc, y, x)
  {
    hide RefAcc, Wrap;
  }

  /** Single-channel branch: one load, then the weights of the eight output channels. */
  method ComputeSingleTile(cfu: Accelerator, cv: Conv, oc: nat, y: nat, x: nat)
    requires cfu.Valid() && cfu.CmdReady() && ProductsClear(cfu.State())
    requires Supported(cv) && cv.inD == 1 && oc + L <= cv.outD
    modifies cfu.Repr
    ensures cfu.Valid() && cfu.CmdReady() && AllDrained(cfu.State())
    ensures TileDone(cfu.State(), cv, oc, y, x)
  {
    hide Exec, SingleTile, SingleFilter, AllDrained, SingleDone, TileDone, ProductsClear, TileDot, AddTo, cfu.Valid;
    ghost var s := cfu.State();
    var _ := CfuOp0(cfu, 3, 0, 0);
    LoadSingleTile(cfu, cv, y, x);
    SingleStart(s, cfu.State(), cv, oc, y, x);
    for i := 0 to L
      invariant cfu.Valid() && cfu.CmdReady() && AllDrained(cfu.State())
      invariant cfu.State().tile[..36] == SingleTile(cv, y, x)
      invariant SingleDone(cfu.State(), cv, oc, y, x, i)
    {
      ghost var before := cfu.State();
      var ws := FetchSingleFilter(cv, oc + i);
      SendBlock(cfu, ws, i);
      SingleNext(before, cfu.State(), cv, oc, y, x, i);
    }
    SingleAll(cfu.State(), cv, oc, y, x);
  }
}
