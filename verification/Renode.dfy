/**
 The CFU of proj/example_renode/cfu.py: a four-lane accumulate instruction in slot 0 of the generic
 wrapper, the fallback instruction of python/amaranth_cfu/cfu.py in the other seven.
 */
module Renode {
  import opened Words
  import opened Handshake
  import opened Sums
  import Conv

  type Int16 = x: int | -0x8000 <= x < 0x8000

  /** A value assigned to a signed 16-bit signal. */
  function Truncate16(x: int): Int16 {
    var low := x % 0x1_0000;
    if low < 0x8000 then low else low - 0x1_0000
  }

  /** One lane: both bytes signed, the input offset added to the first. */
  function LaneProduct(activation: Byte, weight: Byte): Int16 {
    Truncate16((Signed8(activation) + 128) * Signed8(weight))
  }

  /** The four lane products of a pair of operands. */
  function FourProducts(in0: Word, in1: Word): int {
    var a, b := LanesOf(in0), LanesOf(in1);
    LaneProduct(a.l0, b.l0) + LaneProduct(a.l1, b.l1) + LaneProduct(a.l2, b.l2) + LaneProduct(a.l3, b.l3)
  }

  /** No lane is ever truncated. */
  lemma LaneFits(activation: Byte, weight: Byte)
    ensures LaneProduct(activation, weight) == (Signed8(activation) + 128) * Signed8(weight)
  {
    hide Signed8;
    Conv.ProductBound(Signed8(weight), Signed8(activation) + 128);
  }

  /** The accumulator after one start of the instruction. */
  function Accumulated(output: Word, funct7: nat, in0: Word, in1: Word): Word {
    if funct7 != 0 then 0 else Wrap(output + FourProducts(in0, in1))
  }

  class SimdMac {
    var output: Word
    var done: bool

    constructor ()
      ensures output == 0 && !done
    {
      output, done := 0, false;
    }

    /** One clock edge. */
    method Clock(start: bool, funct7: nat, in0: Word, in1: Word)
      modifies this
      ensures done == start
      ensures output == if start then Accumulated(old(output), funct7, in0, in1) else old(output)
    {
      hide LaneProduct, LanesOf, Wrap;
      var a, b := LanesOf(in0), LanesOf(in1);
      var p0: int := LaneProduct(a.l0, b.l0);
      var p1: int := LaneProduct(a.l1, b.l1);
      var p2: int := LaneProduct(a.l2, b.l2);
      var p3: int := LaneProduct(a.l3, b.l3);
      done := false;
      if start {
        if funct7 != 0 {
          output := 0;
        } else {
          output := Wrap(output + (p0 + p1 + p2 + p3));
        }
        done := true;
      }
    }
  }

  // ----- the wrapper around it -----

  /** A command as the CPU sends it: three bits of funct3 below seven of funct7, and the operands. */
  datatype Cmd = Cmd(functionId: nat, in0: Word, in1: Word)
  {
    function Funct7(): nat {
      functionId / 8 % 0x80
    }
  }

  datatype Pins = Pins(cmdValid: bool, command: Cmd, rspReady: bool)

  /** What an instruction shows the wrapper. */
  datatype Result = Result(done: bool, output: Word)

  /** `_FallbackInstruction`, in every slot without an instruction: done at once, echoing the first operand. */
  function Fallback(in0: Word): Result {
    Result(true, in0)
  }

  /** All registers: the wrapper's and the instruction's. */
  datatype Device = Device(fsm: Regs, mac: Result)
  {
    /** The instruction reports done exactly in the cycle in which the wrapper waits for it. */
    predicate Valid() {
      && fsm.Valid()
      && (mac.done <==> fsm.phase == WaitInstruction)
      && (fsm.phase == WaitInstruction ==> fsm.storedFunctionId == 0)
    }
  }

  function Slot(s: Device, p: Pins, i: nat): Result {
    if i == 0 then s.mac else Fallback(p.command.in0)
  }

  /** The wires into the wrapper. */
  function Wires(s: Device, p: Pins): (i: Inputs)
    ensures i.Valid()
  {
    Inputs(p.cmdValid, p.command.functionId, p.command.in0, p.rspReady,
           seq(INSTRUCTIONS, i requires 0 <= i < INSTRUCTIONS => Slot(s, p, i).done),
           seq(INSTRUCTIONS, i requires 0 <= i < INSTRUCTIONS => Slot(s, p, i).output))
  }

  /** One clock edge of the whole CFU. */
  function Step(s: Device, p: Pins): (t: Device)
    requires s.Valid()
    ensures t.Valid()
  {
    var i := Wires(s, p);
    var start := Out(s.fsm, i).start == Start(0);
    var c := p.command;
    Device(Next(s.fsm, i),
           Result(start, if start then Accumulated(s.mac.output, c.Funct7(), c.in0, c.in1) else s.mac.output))
  }

  /** The instruction-level meaning: what a command leaves in the accumulator, and what it answers. */
  function Apply(total: Word, c: Cmd): Word {
    if c.functionId % 8 == 0 then Accumulated(total, c.Funct7(), c.in0, c.in1) else total
  }

  function Reply(total: Word, c: Cmd): Word {
    if c.functionId % 8 == 0 then Apply(total, c) else c.in0
  }

  lemma AccumulatedIs(total: Word, c: Cmd)
    ensures c.functionId % 8 == 0 && c.functionId / 8 % 128 != 0 ==> Apply(total, c) == 0
    ensures c.functionId % 8 == 0 && c.functionId / 8 % 128 == 0 ==>
              (Apply(total, c) - total - FourProducts(c.in0, c.in1)) % 0x1_0000_0000 == 0
  {
    hide FourProducts;
  }

  class SimdCfu {
    const fsm: Cfu
    const mac: SimdMac
    const Repr: set<object>

    function State(): Device
      reads this, fsm, mac
    {
      Device(fsm.State(), Result(mac.done, mac.output))
    }

    predicate Valid()
      reads this, fsm, mac
    {
      Repr == {fsm, mac} && State().Valid()
    }

    predicate CmdReady()
      reads this, fsm
    {
      fsm.phase == WaitCmd
    }

    constructor ()
      ensures Valid() && CmdReady() && fresh(Repr) && mac.output == 0
    {
      fsm := new Cfu();
      mac := new SimdMac();
      Repr := {fsm, mac};
    }

    /** One cycle: the wrapper sees the registers of the instruction, then both step on the same edge. */
    method Clock(p: Pins) returns (o: Outputs)
      requires Valid()
      modifies Repr
      ensures Valid()
      ensures o == Out(old(State()).fsm, Wires(old(State()), p))
      ensures State() == Step(old(State()), p)
    {
      hide Accumulated, Wires, Out, Next;
      ghost var before := State();
      o := fsm.Clock(Wires(State(), p));
      mac.Clock(o.start == Start(0), p.command.Funct7(), p.command.in0, p.command.in1);
      assert State() == Step(before, p);
    }

    /**
     A custom instruction as the CPU issues it: any idle cycles, the accepting one, any number of
     cycles in which the CPU does not take the response, and the one in which it does.
     */
    method CfuOp(c: Cmd) returns (rd: Word)
      requires Valid() && CmdReady()
      modifies Repr
      ensures Valid() && CmdReady()
      ensures rd == Reply(old(mac.output), c)
      ensures mac.output == Apply(old(mac.output), c)
      ensures c.functionId % 8 != 0 ==> rd == c.in0 && mac.output == old(mac.output)
      ensures c.functionId % 8 == 0 ==> rd == mac.output
      ensures c.functionId % 8 == 0 && c.functionId / 8 % 128 != 0 ==> mac.output == 0
      ensures c.functionId % 8 == 0 && c.functionId / 8 % 128 == 0 ==>
                (mac.output - old(mac.output) - FourProducts(c.in0, c.in1)) % 0x1_0000_0000 == 0
    {
      AccumulatedIs(mac.output, c);
      hide Accumulated, FourProducts;
      var idle: nat :| 0 <= idle;
      for i := 0 to idle
        invariant Valid() && CmdReady() && mac.output == old(mac.output)
      {
        var ready: bool := *;
        var _ := Clock(Pins(false, c, ready));
      }
      var ready: bool := *;
      var o := Clock(Pins(true, c, ready));
      rd := o.rspOut;
      if !o.rspValid || !ready {
        var wait: nat :| 0 <= wait;
        for i := 0 to wait
          invariant Valid() && !CmdReady() && mac.output == Apply(old(mac.output), c)
          invariant (if fsm.phase == WaitTransfer then fsm.storedOutput else mac.output) == Reply(old(mac.output), c)
        {
          var _ := Clock(Pins(false, c, false));
        }
        o := Clock(Pins(false, c, true));
        rd := o.rspOut;
      }
    }
  }

  // ----- every run of the clock -----

  function RunCfu(s: Device, pins: seq<Pins>, n: nat): (t: Device)
    requires s.Valid() && n <= |pins|
    ensures t.Valid()
  {
    if n == 0 then s else Step(RunCfu(s, pins, n - 1), pins[n - 1])
  }

  /** What the wrapper sees in every cycle. */
  function Trace(s: Device, pins: seq<Pins>): (trace: seq<Inputs>)
    requires s.Valid()
    ensures |trace| == |pins| && ValidTrace(trace)
  {
    seq(|pins|, t requires 0 <= t < |pins| => Wires(RunCfu(s, pins, t), pins[t]))
  }

  lemma StepWrapper(s: Device, p: Pins)
    requires s.Valid()
    ensures Step(s, p).fsm == Next(s.fsm, Wires(s, p))
  {
    hide Wires, Next, Out, Accumulated;
  }

  lemma {:induction false} WrapperRuns(s: Device, pins: seq<Pins>, n: nat)
    requires s.Valid() && n <= |pins|
    ensures Run(s.fsm, Trace(s, pins), n) == RunCfu(s, pins, n).fsm
  {
    hide Wires, Next, Step, s.Valid, ValidTrace;
    if n > 0 {
      hide Trace;
      WrapperRuns(s, pins, n - 1);
      TraceAt(s, pins, n - 1);
      StepWrapper(RunCfu(s, pins, n - 1), pins[n - 1]);
    }
  }

  lemma TraceAt(s: Device, pins: seq<Pins>, t: nat)
    requires s.Valid() && t < |pins|
    ensures Trace(s, pins)[t] == Wires(RunCfu(s, pins, t), pins[t])
  {
    hide Wires, RunCfu;
  }

  /** One cycle of a run, seen by the wrapper and by the whole CFU. */
  lemma Cycle(s: Device, pins: seq<Pins>, t: nat)
    requires s.Valid() && t < |pins|
    ensures var now := RunCfu(s, pins, t);
            && Trace(s, pins)[t] == Wires(now, pins[t]) && Trace(s, pins)[t].cmdValid == pins[t].cmdValid
            && OutAt(s.fsm, Trace(s, pins), t) == Out(now.fsm, Wires(now, pins[t]))
            && RunCfu(s, pins, t + 1) == Step(now, pins[t])
  {
    hide Out, Step, Slot;
    WrapperRuns(s, pins, t);
  }

  /** What one edge does to the instruction's registers. */
  lemma StepMac(s: Device, p: Pins)
    requires s.Valid()
    ensures var o := Out(s.fsm, Wires(s, p));
            && o.cmdReady == (s.fsm.phase == WaitCmd)
            && o.start == (if p.cmdValid && o.cmdReady then Start(p.command.functionId % 8) else NoStart)
            && Step(s, p).mac.done == (o.start == Start(0))
            && Step(s, p).mac.output == if p.cmdValid && o.cmdReady then Apply(s.mac.output, p.command) else s.mac.output
  {
    hide Accumulated;
  }

  /** The answer to a command accepted in cycle t. */
  ghost function Answers(s: Device, pins: seq<Pins>): nat -> Word
    requires s.Valid()
  {
    (t: nat) => if t < |pins| then Reply(RunCfu(s, pins, t).mac.output, pins[t].command) else 0
  }

  /**
   Both kinds of slot meet the wrapper's contract, over every run: the fallback answers in the
   accepting cycle, the accumulate instruction one cycle later.
   */
  lemma MeetsContract(s: Device, pins: seq<Pins>)
    requires s.Valid()
    ensures Contract(s.fsm, Trace(s, pins), Answers(s, pins))
  {
    hide Accumulated, FirstDone, RunCfu, Trace;
    var trace := Trace(s, pins);
    forall i: nat, t: nat, m: nat | i < INSTRUCTIONS && t <= m < |trace| && FirstDone(s.fsm, trace, i, t, m)
      ensures trace[m].outputs[i] == Answers(s, pins)(t)
    {
      SlotAnswers(s, pins, i, t, m);
    }
  }

  lemma SlotAnswers(s: Device, pins: seq<Pins>, i: nat, t: nat, m: nat)
    requires s.Valid() && i < INSTRUCTIONS && t <= m < |pins| && FirstDone(s.fsm, Trace(s, pins), i, t, m)
    ensures Trace(s, pins)[m].outputs[i] == Answers(s, pins)(t)
  {
    hide Accumulated, Step, Out, Trace, OutAt, Next, RunCfu;
    Cycle(s, pins, t);
    StepMac(RunCfu(s, pins, t), pins[t]);
    if i == 0 {
      if m > t {
        Cycle(s, pins, t + 1);
      }
    }
  }

  /** cmd_valid and cmd_ready. */
  predicate Takes(s: Device, p: Pins) {
    p.cmdValid && s.fsm.phase == WaitCmd
  }

  /** The commands accepted in the first n cycles. */
  function Issued(s: Device, pins: seq<Pins>, n: nat): seq<Cmd>
    requires s.Valid() && n <= |pins|
  {
    if n == 0 then []
    else Issued(s, pins, n - 1)
         + if Takes(RunCfu(s, pins, n - 1), pins[n - 1]) then [pins[n - 1].command] else []
  }

  /** The accumulator after the first n commands. */
  function Total(output: Word, cmds: seq<Cmd>, n: nat): Word
    requires n <= |cmds|
  {
    if n == 0 then output else Apply(Total(output, cmds, n - 1), cmds[n - 1])
  }

  /** What one command adds to a sum under way; the other seven slots add nothing. */
  function Added(c: Cmd): int {
    if c.functionId % 8 == 0 then FourProducts(c.in0, c.in1) else 0
  }

  ghost function AddedFrom(cmds: seq<Cmd>, from: nat): int -> int {
    i => if 0 <= from + i < |cmds| then Added(cmds[from + i]) else 0
  }

  /** A command for slot 0 with any other funct7 than zero. */
  predicate Resets(c: Cmd) {
    c.functionId % 8 == 0 && c.functionId / 8 % 128 != 0
  }

  /** The accumulator over a whole history: the sum of all products since the last reset, modulo 2^32. */
  lemma {:induction false} SumSinceReset(output: Word, cmds: seq<Cmd>, m: nat, n: nat)
    requires m < n <= |cmds| && Resets(cmds[m]) && forall i :: m < i < n ==> !Resets(cmds[i])
    ensures Total(output, cmds, n) == Wrap(Sum(n - m - 1, AddedFrom(cmds, m + 1)))
  {
    hide FourProducts, Wrap;
    if m < n - 1 {
      SumSinceReset(output, cmds, m, n - 1);
      WrapAdd(Sum(n - 1 - m - 1, AddedFrom(cmds, m + 1)), Added(cmds[n - 1]));
      SumStep(n - m - 1, AddedFrom(cmds, m + 1));
      WordWraps(Total(output, cmds, n - 1));
    } else {
      ZeroSum(AddedFrom(cmds, m + 1));
    }
  }

  lemma SumStep(n: nat, f: int -> int)
    requires n > 0
    ensures Sum(n, f) == Sum(n - 1, f) + f(n - 1)
  {
  }

  lemma ZeroSum(f: int -> int)
    ensures Wrap(Sum(0, f)) == 0
  {
  }

  lemma WordWraps(w: Word)
    ensures Wrap(w) == w
  {
  }

  lemma {:induction false} TotalExtends(output: Word, cmds: seq<Cmd>, more: seq<Cmd>, n: nat)
    requires n <= |cmds|
    ensures Total(output, cmds + more, n) == Total(output, cmds, n)
  {
    if n > 0 {
      TotalExtends(output, cmds, more, n - 1);
    }
  }

  /** Each command's answer, by the time it was accepted and by the commands before it. */
  ghost predicate Agree(answers: nat -> Word, output: Word, cmds: seq<Cmd>, times: seq<nat>) {
    && |cmds| == |times|
    && forall k :: 0 <= k < |cmds| ==> answers(times[k]) == Reply(Total(output, cmds, k), cmds[k])
  }

  lemma AgreeNext(answers: nat -> Word, output: Word, cmds: seq<Cmd>, times: seq<nat>, c: Cmd, t: nat)
    requires Agree(answers, output, cmds, times) && answers(t) == Reply(Total(output, cmds, |cmds|), c)
    ensures Agree(answers, output, cmds + [c], times + [t])
    ensures Total(output, cmds + [c], |cmds| + 1) == Apply(Total(output, cmds, |cmds|), c)
  {
    hide Apply, Reply;
    forall k | 0 <= k <= |cmds|
      ensures Total(output, cmds + [c], k) == Total(output, cmds, k)
    {
      TotalExtends(output, cmds, [c], k);
    }
  }

  /** After n cycles: the accumulator is that of the accepted commands, and so is the answer to each of them. */
  ghost predicate Refines(s: Device, pins: seq<Pins>, n: nat)
    requires s.Valid() && n <= |pins|
  {
    var cmds := Issued(s, pins, n);
    && RunCfu(s, pins, n).mac.output == Total(s.mac.output, cmds, |cmds|)
    && Agree(Answers(s, pins), s.mac.output, cmds, AcceptTimes(s.fsm, Trace(s, pins), n))
  }

  lemma {:induction false} RefinesAlways(s: Device, pins: seq<Pins>, n: nat)
    requires s.Valid() && n <= |pins|
    ensures Refines(s, pins, n)
  {
    hide Refines;
    if n == 0 {
      RefinesAtStart(s, pins);
    } else {
      RefinesAlways(s, pins, n - 1);
      RefinesNext(s, pins, n - 1);
    }
  }

  lemma RefinesAtStart(s: Device, pins: seq<Pins>)
    requires s.Valid()
    ensures Refines(s, pins, 0)
  {
    hide Trace, s.Valid;
  }

  lemma OneMoreCycle(s: Device, pins: seq<Pins>, n: nat)
    requires s.Valid() && n < |pins|
    ensures var now := RunCfu(s, pins, n);
            && AcceptTimes(s.fsm, Trace(s, pins), n + 1)
               == AcceptTimes(s.fsm, Trace(s, pins), n) + (if Takes(now, pins[n]) then [n] else [])
            && RunCfu(s, pins, n + 1).mac.output
               == if Takes(now, pins[n]) then Apply(now.mac.output, pins[n].command) else now.mac.output
  {
    hide Step, Out, Trace, Wires, Next, RunCfu, Apply, OutAt;
    Cycle(s, pins, n);
    StepMac(RunCfu(s, pins, n), pins[n]);
  }

  lemma RefinesNext(s: Device, pins: seq<Pins>, n: nat)
    requires s.Valid() && n < |pins| && Refines(s, pins, n)
    ensures Refines(s, pins, n + 1)
  {
    hide Trace, AcceptTimes, RunCfu, Apply, Reply, Agree, Total;
    OneMoreCycle(s, pins, n);
    var cmds, c := Issued(s, pins, n), pins[n].command;
    var times := AcceptTimes(s.fsm, Trace(s, pins), n);
    if Takes(RunCfu(s, pins, n), pins[n]) {
      AgreeNext(Answers(s, pins), s.mac.output, cmds, times, c, n);
    } else {
      assert cmds + [] == cmds && times + [] == times;
    }
  }

  /**
   The whole CFU over every clock run: with any idle cycles and any back-pressure, the k-th response
   delivered is what the k-th accepted command answers when the commands are carried out one by one.
   */
  lemma CfuRefinesCommands(s: Device, pins: seq<Pins>, n: nat)
    requires s.Valid() && s.fsm.phase == WaitCmd && n <= |pins|
    ensures var cmds := Issued(s, pins, n);
            var delivered := Delivered(s.fsm, Trace(s, pins), n);
            && |delivered| <= |cmds| <= |delivered| + 1
            && (forall k :: 0 <= k < |delivered| ==> delivered[k] == Reply(Total(s.mac.output, cmds, k), cmds[k]))
            && RunCfu(s, pins, n).mac.output == Total(s.mac.output, cmds, |cmds|)
  {
    hide Trace, Answers, Reply, Apply, RunCfu, Issued;
    MeetsContract(s, pins);
    InOrderResponses(s.fsm, Trace(s, pins), Answers(s, pins), n);
    RefinesAlways(s, pins, n);
  }
}
