/** The custom instruction `cfu_op0` as the CPU issues it over the clocked bus. */
module Cpu {
  import opened Words
  import opened Cfu

  /** What the idle cycles around an instruction may show on the payload wires. */
  method AnyPins(rspReady: bool) returns (p: Pins)
    ensures !p.reset && !p.cmdValid && p.rspReady == rspReady
  {
    var functionId: nat := *;
    var in0: Word := *;
    var in1: Word := *;
    var floating: Word := *;
    p := Pins(false, false, functionId, in0, in1, rspReady, floating);
  }

  /**
   Any number of idle cycles, one cycle with cmd_valid, any number of cycles in which
   the CPU is not ready for the response, and the cycle that takes it.
   */
  method CfuOp0(cfu: Accelerator, funct7: nat, rs1: Word, rs2: Word) returns (rd: Word)
    requires cfu.Valid() && cfu.CmdReady() && funct7 < 128
    modifies cfu.Repr
    ensures cfu.Valid() && cfu.CmdReady()
    ensures cfu.State() == Exec(old(cfu.State()), Cmd(funct7 % 8, rs1, rs2))
    ensures funct7 % 8 == 2 && rs1 < UNITS ==> rd == old(cfu.State()).pe[rs1].acc[rs2 % 8]
    ensures funct7 % 8 != 2 ==> rd == 0
  {
    hide Exec;
    ghost var before := cfu.State();
    var idle: nat :| 0 <= idle;
    for i := 0 to idle
      invariant cfu.Valid() && cfu.CmdReady() && cfu.State() == before
    {
      var ready: bool := *;
      var p := AnyPins(ready);
      cfu.Clock(p);
    }

    var p := AnyPins(false);
    var issue := p.(cmdValid := true, functionId := 8 * funct7, in0 := rs1, in1 := rs2);
    assert Func(issue.functionId) == funct7 % 8;
    cfu.Clock(issue);
    ghost var answered := cfu.Registers();

    var wait: nat :| 0 <= wait;
    for i := 0 to wait
      invariant cfu.Valid() && cfu.Registers() == answered
    {
      var q := AnyPins(false);
      cfu.Clock(q);
    }
    rd := cfu.output0;
    var take := AnyPins(true);
    cfu.Clock(take);
  }
}
