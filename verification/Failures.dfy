/**
 Concrete inputs that go wrong: a product register that did not power up at zero, a command pressed
 before the module is ready, and a single-channel layer with two scales.
 */
module Failures {
  import opened Words
  import opened Sums
  import opened Mac
  import opened Cfu
  import opened Pipeline
  import opened Drain
  import opened Protocol
  import opened Cpu
  import opened Conv
  import opened Kernel
  import opened Writeback

  // ----- a stale product -----

  const NoWeights: seq<Word> := [0, 0, 0, 0, 0, 0, 0, 0, 0]

  /** A power-up in which unit 0 holds one in its product register, and everything else zero. */
  function PowerUp(): (r: Regs)
    ensures r.Valid()
  {
    Regs(Arch(seq(DEPTH, _ => 0), 0, 0, seq(UNITS, _ => 0), 0,
              seq(UNITS, u => Pe(ZeroLanes, ZeroLanes, if u == 0 then 1 else 0, Cleared))), false, 0)
  }

  lemma NoWeightsNoSum(tile: seq<Word>, u: nat)
    requires |tile| >= 36 && u < UNITS
    ensures TileDot(tile, NoWeights, u) == 0
  {
    hide Dot, Offset128, LanesOf, Tap;
    forall k | 0 <= k < 9
      ensures TapDots(tile, NoWeights, u)(k) == 0
    {
      TileTapInside(u, k);
      ZeroWeight(Offset128(tile[Tap(u, k)]));
    }
    SumZero(9, TapDots(tile, NoWeights, u));
  }

  lemma TileTapInside(u: nat, k: nat)
    requires u < UNITS && k < 9
    ensures Tap(u, k) < 36
  {
  }

  /** After func 3 and func 4 the one is still there, and a block of zero weights adds it to the accumulator. */
  lemma OneLeaks(s: Arch)
    requires s.Valid() && s.pe == PowerUp().arch.pe
    ensures var start := Exec(Exec(s, Cmd(3, 0, 0)), REWIND);
            Run(start, WeightBlock(NoWeights, 0), 12).pe[0].acc[0] == 1
  {
    hide Exec, Run, TileDot, InFlight, Offset128, Dot;
    var cleared := Exec(s, Cmd(3, 0, 0));
    ClearedUnits(s, Cmd(3, 0, 0));
    RewindKeeps(cleared);
    var start := Exec(cleared, REWIND);
    WeightBlockEffect(start, NoWeights, 0);
    NoWeightsNoSum(start.tile, 0);
    OneInFlight(start);
  }

  lemma OneInFlight(s: Arch)
    requires s.Valid() && s.tileW == 0 && s.pe[0].w == ZeroLanes && s.pe[0].prod == 1
    ensures InFlight(s, 0) == 1
  {
    hide Dot, Offset128;
    ZeroWeight(s.pe[0].im);
    ZeroWeight(Offset128(s.tile[s.addr[0]]));
  }

  /** The first block after power-on and a clear, on the clocked hardware: all weights zero, and func 2 reads one. */
  method FirstBlockWrong() returns (cfu: Accelerator, rd: Word)
    ensures cfu.Valid() && rd == 1 && TileDot(cfu.State().tile, NoWeights, 0) == 0
  {
    hide Exec, Run, TileDot, cfu.Valid, PowerUp;
    cfu := new Accelerator(PowerUp());
    PowerUpReady();
    OneLeaks(cfu.State());
    var _ := CfuOp0(cfu, 3, 0, 0);
    var _ := CfuOp0(cfu, 4, 0, 0);
    ghost var start := cfu.State();
    ghost var cmds := WeightBlock(NoWeights, 0);
    RunStart(start, cmds);
    for k := 0 to 12
      invariant cfu.Valid() && cfu.CmdReady() && cfu.State() == Run(start, cmds, k)
    {
      SendTap(cfu, start, cmds, k, 0, 0);
    }
    rd := CfuOp0(cfu, 2, 0, 0);
    NoWeightsNoSum(cfu.State().tile, 0);
  }

  lemma PowerUpReady()
    ensures !PowerUp().rspValid
  {
  }

  // ----- a command pressed early -----

  const First := Cmd(5, 7, 8)
  const Second := Cmd(5, 9, 10)

  function Press(c: Cmd, rspReady: bool): Pins
    requires c.func < 8
  {
    Pins(false, true, 8 * c.func, c.in0, c.in1, rspReady, 0)
  }

  /** Reset; the first write; the second pressed while the first response is being taken; the second accepted. */
  const EarlyPress := [Pins(true, false, 0, 0, 0, false, 0), Press(First, false), Press(Second, true), Press(Second, false)]

  /**
   Four cycles from any state: two commands are accepted, but the second writes twice. Word 4 of the
   scratchpad holds its operand, where the two commands by themselves leave the reset value.
   */
  lemma EarlyPressWritesTwice(s: Regs)
    requires s.Valid()
    ensures Accepted(s, EarlyPress, 4) == [First, Second]
    ensures ClockRun(s, EarlyPress, 4).arch.tile[4] == 9
    ensures Run(ClockRun(s, EarlyPress, 1).arch, Accepted(s, EarlyPress, 4), 2).tile[4] == 0
  {
    hide Exec, Tick, ClockRun, Accepted, Run;
    FourCycles(s, EarlyPress);
    ResetTick(s, EarlyPress[0]);
    PressTick(ClockRun(s, EarlyPress, 1), First, false);
    PressTick(ClockRun(s, EarlyPress, 2), Second, true);
    PressTick(ClockRun(s, EarlyPress, 3), Second, false);
    TwoCommands(ClockRun(s, EarlyPress, 1).arch, First, Second);
    ThreeWrites(ClockRun(s, EarlyPress, 1).arch);
  }

  lemma FourCycles(s: Regs, pins: seq<Pins>)
    requires s.Valid() && |pins| == 4 && forall t :: 0 <= t < 4 ==> pins[t].cmdValid == (t > 0)
    ensures ClockRun(s, pins, 1) == Tick(s, pins[0])
    ensures ClockRun(s, pins, 2) == Tick(ClockRun(s, pins, 1), pins[1])
    ensures ClockRun(s, pins, 3) == Tick(ClockRun(s, pins, 2), pins[2])
    ensures ClockRun(s, pins, 4) == Tick(ClockRun(s, pins, 3), pins[3])
    ensures !ClockRun(s, pins, 1).rspValid && ClockRun(s, pins, 2).rspValid && !ClockRun(s, pins, 3).rspValid
        ==> Accepted(s, pins, 4) == [pins[1].Command(), pins[3].Command()]
  {
    hide Tick;
    assert Accepted(s, pins, 1) == [];
    if !ClockRun(s, pins, 1).rspValid && ClockRun(s, pins, 2).rspValid && !ClockRun(s, pins, 3).rspValid {
      assert Accepted(s, pins, 2) == [pins[1].Command()];
      assert Accepted(s, pins, 3) == [pins[1].Command()];
    }
  }

  lemma ResetTick(s: Regs, p: Pins)
    requires s.Valid() && p.reset && !p.cmdValid
    ensures var t := Tick(s, p); !t.rspValid && t.arch.memCtr == 0 && t.arch.tile == seq(DEPTH, _ => 0)
  {
  }

  lemma PressTick(s: Regs, c: Cmd, rspReady: bool)
    requires s.Valid() && c.func < 8
    ensures Press(c, rspReady).Command() == c && Press(c, rspReady).cmdValid
    ensures var t := Tick(s, Press(c, rspReady));
            t.arch == Exec(s.arch, c) && t.rspValid == if s.rspValid then !rspReady else true
  {
    hide Exec;
  }

  lemma TwoCommands(s: Arch, a: Cmd, b: Cmd)
    requires s.Valid()
    ensures Run(s, [a, b], 2) == Exec(Exec(s, a), b)
  {
    hide Exec;
    assert Run(s, [a, b], 1) == Exec(s, a);
  }

  lemma ThreeWrites(s: Arch)
    requires s.Valid() && s.memCtr == 0 && s.tile == seq(DEPTH, _ => 0)
    ensures Exec(Exec(s, First), Second).tile[4] == 0
    ensures Exec(Exec(Exec(s, First), Second), Second).tile[4] == 9
  {
    hide Exec;
    StorePair(s, 7, 8);
    StorePair(Exec(s, First), 9, 10);
    StorePair(Exec(Exec(s, First), Second), 9, 10);
  }

  // ----- two scales in one group -----

  /** A 28x28 single-channel layer with padding 1 and eight output channels, all alike but for the second multiplier. */
  function TwoScales(): Conv {
    Conv(1, 28, 28, 1, 28, 28, 8, 3, 3, 1, 1, 1, 1, 1, 1, 128, -128, -128, 127,
         seq(784, _ => 0), seq(72, _ => 0), None, [1, 2, 1, 1, 1, 1, 1, 1], [0, 0, 0, 0, 0, 0, 0, 0])
  }

  /** The driver takes the layer, uses the first channel's multiplier for the second, and writes another tensor. */
  lemma TwoScalesDiffer()
    ensures Supported(TwoScales())
    ensures DriverOutput(TwoScales(), Telltale(2, 0)) != RefOutput(TwoScales(), Telltale(2, 0))
  {
    hide DriverOutput, RefOutput;
    TelltaleShows(TwoScales(), 1);
  }
}
