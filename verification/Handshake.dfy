/**
 The generic CFU wrapper of python/amaranth_cfu/cfu.py: a three-state machine that
 starts one of eight instructions per command and returns its output.
 */
module Handshake {
  import opened Words

  const INSTRUCTIONS := 8

  datatype Phase = WaitCmd | WaitInstruction | WaitTransfer

  /** The synchronous registers. */
  datatype Regs = Regs(phase: Phase, storedFunctionId: nat, storedOutput: Word)
  {
    predicate Valid() {
      storedFunctionId < INSTRUCTIONS
    }
  }

  /** Wires into the machine in one cycle, the instructions' `done` and `output` among them. */
  datatype Inputs = Inputs(cmdValid: bool, functionId: nat, in0: Word, rspReady: bool, dones: seq<bool>, outputs: seq<Word>)
  {
    predicate Valid() {
      |dones| == INSTRUCTIONS && |outputs| == INSTRUCTIONS
    }

    function Funct3(): (f: nat)
      ensures f < INSTRUCTIONS
    {
      functionId % 8
    }
  }

  /** Wires out of the machine; `start` is the instruction whose start is pulsed, if any. */
  datatype Outputs = Outputs(cmdReady: bool, rspValid: bool, rspOut: Word, start: Start)
  datatype Start = NoStart | Start(instruction: nat)

  /** The instruction the machine is looking at. */
  function Current(r: Regs, i: Inputs): (f: nat)
    requires r.Valid()
    ensures f < INSTRUCTIONS
  {
    if r.phase == WaitCmd then i.Funct3() else r.storedFunctionId
  }

  predicate Accepts(r: Regs, i: Inputs) {
    r.phase == WaitCmd && i.cmdValid
  }

  /** The current instruction reports its result in this cycle. */
  predicate Completes(r: Regs, i: Inputs)
    requires r.Valid() && i.Valid()
  {
    (Accepts(r, i) || r.phase == WaitInstruction) && i.dones[Current(r, i)]
  }

  function Out(r: Regs, i: Inputs): Outputs
    requires r.Valid() && i.Valid()
  {
    Outputs(r.phase == WaitCmd,
            r.phase == WaitTransfer || Completes(r, i),
            if r.phase == WaitTransfer then r.storedOutput
            else if Completes(r, i) then i.outputs[Current(r, i)] else 0,
            if Accepts(r, i) then Start(i.Funct3()) else NoStart)
  }

  function Next(r: Regs, i: Inputs): (n: Regs)
    requires r.Valid() && i.Valid()
    ensures n.Valid()
  {
    var id := if Accepts(r, i) then i.Funct3() else r.storedFunctionId;
    if Out(r, i).rspValid && i.rspReady then Regs(WaitCmd, id, r.storedOutput)
    else if Completes(r, i) then Regs(WaitTransfer, id, i.outputs[Current(r, i)])
    else if Accepts(r, i) then Regs(WaitInstruction, id, r.storedOutput)
    else r
  }

  class Cfu {
    var phase: Phase
    var storedFunctionId: nat
    var storedOutput: Word

    function State(): Regs
      reads this
    {
      Regs(phase, storedFunctionId, storedOutput)
    }

    constructor ()
      ensures State() == Regs(WaitCmd, 0, 0)
    {
      phase, storedFunctionId, storedOutput := WaitCmd, 0, 0;
    }

    /** The shared tail of the first two states. */
    method CheckInstructionDone(i: Inputs, current: nat) returns (rspValid: bool, rspOut: Word)
      requires i.Valid() && current < INSTRUCTIONS
      modifies `phase, `storedOutput
      ensures rspValid == i.dones[current]
      ensures rspOut == if i.dones[current] then i.outputs[current] else 0
      ensures phase == if !i.dones[current] then WaitInstruction else if i.rspReady then WaitCmd else WaitTransfer
      ensures storedOutput == if i.dones[current] && !i.rspReady then i.outputs[current] else old(storedOutput)
    {
      rspValid, rspOut := false, 0;
      if i.dones[current] {
        rspValid, rspOut := true, i.outputs[current];
        if i.rspReady {
          phase := WaitCmd;
        } else {
          storedOutput := i.outputs[current];
          phase := WaitTransfer;
        }
      } else {
        phase := WaitInstruction;
      }
    }

    /** One clock cycle: the outputs during it and the registers after it. */
    method Clock(i: Inputs) returns (o: Outputs)
      requires State().Valid() && i.Valid()
      modifies this
      ensures o == Out(old(State()), i)
      ensures State() == Next(old(State()), i)
    {
      o := Outputs(phase == WaitCmd, false, 0, NoStart);
      match phase {
        case WaitCmd =>
          var current := i.Funct3();
          if i.cmdValid {
            storedFunctionId := i.functionId % 8;
            var valid, out := CheckInstructionDone(i, current);
            o := Outputs(true, valid, out, Start(current));
          }
        case WaitInstruction =>
          var valid, out := CheckInstructionDone(i, storedFunctionId);
          o := Outputs(false, valid, out, NoStart);
        case WaitTransfer =>
          o := Outputs(false, true, storedOutput, NoStart);
          if i.rspReady {
            phase := WaitCmd;
          }
      }
    }
  }

  // ----- runs -----

  predicate ValidTrace(trace: seq<Inputs>) {
    forall t :: 0 <= t < |trace| ==> trace[t].Valid()
  }

  function Run(r: Regs, trace: seq<Inputs>, n: nat): (s: Regs)
    requires r.Valid() && ValidTrace(trace) && n <= |trace|
    ensures s.Valid()
  {
    if n == 0 then r else Next(Run(r, trace, n - 1), trace[n - 1])
  }

  function OutAt(r: Regs, trace: seq<Inputs>, t: nat): Outputs
    requires r.Valid() && ValidTrace(trace) && t < |trace|
  {
    Out(Run(r, trace, t), trace[t])
  }

  /** Cycles in which a command was taken: cmd_valid and cmd_ready. */
  function AcceptTimes(r: Regs, trace: seq<Inputs>, n: nat): seq<nat>
    requires r.Valid() && ValidTrace(trace) && n <= |trace|
  {
    if n == 0 then []
    else AcceptTimes(r, trace, n - 1)
         + if trace[n - 1].cmdValid && OutAt(r, trace, n - 1).cmdReady then [n - 1] else []
  }

  /** Responses taken: rsp_valid and rsp_ready. */
  function Delivered(r: Regs, trace: seq<Inputs>, n: nat): seq<Word>
    requires r.Valid() && ValidTrace(trace) && n <= |trace|
  {
    if n == 0 then []
    else
      var o := OutAt(r, trace, n - 1);
      Delivered(r, trace, n - 1) + if o.rspValid && trace[n - 1].rspReady then [o.rspOut] else []
  }

  /** Instruction i, started in cycle t, first reports done in cycle m. */
  predicate FirstDone(r: Regs, trace: seq<Inputs>, i: nat, t: nat, m: nat)
    requires r.Valid() && ValidTrace(trace) && i < INSTRUCTIONS && t <= m < |trace|
  {
    OutAt(r, trace, t).start == Start(i) && trace[m].dones[i] && forall l :: t <= l < m ==> !trace[l].dones[i]
  }

  /**
   The instruction contract: whenever instruction i is started in cycle t, its output is the
   answer to that start in the first cycle, from t on, in which it reports done. Any latency.
   */
  ghost predicate Contract(r: Regs, trace: seq<Inputs>, answer: nat -> Word)
    requires r.Valid() && ValidTrace(trace)
  {
    forall i: nat, t: nat, m: nat :: i < INSTRUCTIONS && t <= m < |trace| && FirstDone(r, trace, i, t, m)
      ==> trace[m].outputs[i] == answer(t)
  }

  /** What the registers remember between the last accepted command and its response. */
  ghost predicate Tracks(r: Regs, trace: seq<Inputs>, answer: nat -> Word, n: nat)
    requires r.Valid() && ValidTrace(trace) && n <= |trace|
  {
    var s := Run(r, trace, n);
    var accepted := AcceptTimes(r, trace, n);
    var delivered := Delivered(r, trace, n);
    && |accepted| == |delivered| + (if s.phase == WaitCmd then 0 else 1)
    && (forall k :: 0 <= k < |delivered| ==> delivered[k] == answer(accepted[k]))
    && (s.phase == WaitTransfer ==> s.storedOutput == answer(accepted[|delivered|]))
    && (s.phase == WaitInstruction ==>
          var t := accepted[|delivered|];
          && t < n && OutAt(r, trace, t).start == Start(s.storedFunctionId)
          && forall l :: t <= l < n ==> !trace[l].dones[s.storedFunctionId])
  }

  lemma Answered(r: Regs, trace: seq<Inputs>, answer: nat -> Word, i: nat, t: nat, m: nat)
    requires r.Valid() && ValidTrace(trace) && Contract(r, trace, answer)
    requires i < INSTRUCTIONS && t <= m < |trace| && FirstDone(r, trace, i, t, m)
    ensures trace[m].outputs[i] == answer(t)
  {
  }

  /** What one more cycle adds to the history. */
  lemma OneCycle(r: Regs, trace: seq<Inputs>, n: nat)
    requires r.Valid() && ValidTrace(trace) && n < |trace|
    ensures Run(r, trace, n + 1) == Next(Run(r, trace, n), trace[n])
    ensures var s, i, o := Run(r, trace, n), trace[n], OutAt(r, trace, n);
            && AcceptTimes(r, trace, n + 1) == AcceptTimes(r, trace, n) + (if Accepts(s, i) then [n] else [])
            && Delivered(r, trace, n + 1) == Delivered(r, trace, n) + if o.rspValid && i.rspReady then [o.rspOut] else []
  {
    hide Next;
  }

  lemma TracksNext(r: Regs, trace: seq<Inputs>, answer: nat -> Word, n: nat)
    requires r.Valid() && ValidTrace(trace) && Contract(r, trace, answer) && n < |trace|
    requires Tracks(r, trace, answer, n)
    ensures Tracks(r, trace, answer, n + 1)
  {
    hide Contract, Run, AcceptTimes, Delivered;
    OneCycle(r, trace, n);
    var s, i := Run(r, trace, n), trace[n];
    var accepted, delivered := AcceptTimes(r, trace, n), Delivered(r, trace, n);
    if Completes(s, i) {
      var t := if s.phase == WaitCmd then n else accepted[|delivered|];
      assert FirstDone(r, trace, Current(s, i), t, n);
      Answered(r, trace, answer, Current(s, i), t, n);
    }
  }

  lemma {:induction false} TracksAlways(r: Regs, trace: seq<Inputs>, answer: nat -> Word, n: nat)
    requires r.Valid() && r.phase == WaitCmd && ValidTrace(trace) && Contract(r, trace, answer) && n <= |trace|
    ensures Tracks(r, trace, answer, n)
  {
    hide Contract, Next, Out;
    if n > 0 {
      hide Tracks;
      TracksAlways(r, trace, answer, n - 1);
      TracksNext(r, trace, answer, n - 1);
    }
  }

  /**
   Protocol: over every run, responses are the answers to the accepted commands, in order, one
   each, and at most the last command is still waiting for its own.
   */
  lemma InOrderResponses(r: Regs, trace: seq<Inputs>, answer: nat -> Word, n: nat)
    requires r.Valid() && r.phase == WaitCmd && ValidTrace(trace) && Contract(r, trace, answer) && n <= |trace|
    ensures var accepted := AcceptTimes(r, trace, n);
            var delivered := Delivered(r, trace, n);
            && |delivered| <= |accepted| <= |delivered| + 1
            && (|accepted| == |delivered| <==> Run(r, trace, n).phase == WaitCmd)
            && (n < |trace| ==> (OutAt(r, trace, n).cmdReady <==> |accepted| == |delivered|))
            && forall k :: 0 <= k < |delivered| ==> delivered[k] == answer(accepted[k])
  {
    TracksAlways(r, trace, answer, n);
  }

  /** Until the started instruction reports done the machine waits for it, and for nothing else. */
  lemma {:induction false} Waiting(r: Regs, trace: seq<Inputs>, i: nat, t: nat, l: nat)
    requires r.Valid() && ValidTrace(trace) && i < INSTRUCTIONS && t < l < |trace|
    requires OutAt(r, trace, t).start == Start(i) && forall k :: t <= k < l ==> !trace[k].dones[i]
    ensures Run(r, trace, l).phase == WaitInstruction && Run(r, trace, l).storedFunctionId == i
  {
    if t + 1 < l {
      Waiting(r, trace, i, t, l - 1);
    }
  }

  /**
   Latency: the response is on the bus in the very cycle in which the started instruction first reports
   done, with the output it shows then, and not before; until then no command is taken.
   */
  lemma RespondsWhenDone(r: Regs, trace: seq<Inputs>, i: nat, t: nat, m: nat)
    requires r.Valid() && ValidTrace(trace) && i < INSTRUCTIONS && t <= m < |trace| && FirstDone(r, trace, i, t, m)
    ensures OutAt(r, trace, m).rspValid && OutAt(r, trace, m).rspOut == trace[m].outputs[i]
    ensures forall l :: t <= l < m ==> !OutAt(r, trace, l).rspValid && (OutAt(r, trace, l).cmdReady <==> l == t)
  {
    hide Run;
    if t < m {
      Waiting(r, trace, i, t, m);
    }
    forall l | t <= l < m
      ensures !OutAt(r, trace, l).rspValid && (OutAt(r, trace, l).cmdReady <==> l == t)
    {
      if t < l {
        Waiting(r, trace, i, t, l);
      }
    }
  }

  /** start is pulsed exactly in accepting cycles, and only for the instruction funct3 selects. */
  lemma StartsOnce(r: Regs, trace: seq<Inputs>, n: nat, t: nat)
    requires r.Valid() && ValidTrace(trace) && t < n <= |trace|
    ensures OutAt(r, trace, t).start != NoStart <==> t in AcceptTimes(r, trace, n)
    ensures t in AcceptTimes(r, trace, n) ==> OutAt(r, trace, t).start == Start(trace[t].functionId % 8)
  {
    AcceptTimesAre(r, trace, n, t);
  }

  lemma {:induction false} AcceptTimesAre(r: Regs, trace: seq<Inputs>, n: nat, t: nat)
    requires r.Valid() && ValidTrace(trace) && n <= |trace|
    ensures t in AcceptTimes(r, trace, n) <==> t < n && Accepts(Run(r, trace, t), trace[t])
  {
    if n > 0 {
      AcceptTimesAre(r, trace, n - 1, t);
    }
  }

  /** Back-pressure: an untaken response stays valid and unchanged, whatever the instructions do meanwhile. */
  lemma {:induction false} ResponseStable(r: Regs, trace: seq<Inputs>, m: nat, n: nat)
    requires r.Valid() && ValidTrace(trace) && m <= n < |trace|
    requires OutAt(r, trace, m).rspValid && forall t :: m <= t < n ==> !trace[t].rspReady
    ensures OutAt(r, trace, n).rspValid && OutAt(r, trace, n).rspOut == OutAt(r, trace, m).rspOut
    ensures n > m ==> !OutAt(r, trace, n).cmdReady
  {
    if m < n {
      ResponseStable(r, trace, m, n - 1);
    }
  }
}
