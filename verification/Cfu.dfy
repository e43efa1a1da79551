/**
 The `Cfu` module of proj/accel/cfu.v: scratchpad, counters, tap addressing,
 the sixteen processing elements and the valid/ready handshake.
 `Exec` is the instruction-level meaning of one command; class `Accelerator`
 is the clocked hardware, always-block by always-block.
 */
module Cfu {
  import opened Words
  import opened Mac

  const UNITS := 16
  const DEPTH := 64

  /** Everything a command may change, apart from the response registers. */
  datatype Arch = Arch(tile: seq<Word>, memCtr: Byte, ctr: nat, addr: seq<nat>, tileW: Word, pe: seq<Pe>)
  {
    ghost predicate Valid() {
      && |tile| == DEPTH
      && ctr < 16
      && |addr| == UNITS && (forall u :: 0 <= u < UNITS ==> addr[u] < DEPTH)
      && |pe| == UNITS && (forall u :: 0 <= u < UNITS ==> pe[u].Valid())
    }
  }

  /** One instruction: the low three bits of funct7 and the two operands. */
  datatype Cmd = Cmd(func: nat, in0: Word, in1: Word)

  /** Bits 5:3 of the function id (funct7 sits above the three bits of funct3). */
  function Func(functionId: nat): (f: nat)
    ensures f < 8
  {
    functionId / 8 % 8
  }

  /** Where unit u reads relative to the tap: row u/4, column u%4 of a tile six words wide. */
  function Off(u: nat): nat {
    6 * (u / 4) + u % 4
  }

  /** The tap address for compute counter k. */
  function TapId(k: nat): nat {
    if k < 3 then k
    else if k < 6 then k + 3
    else if k < 9 then k + 6
    else if k < 12 then 36
    else 0
  }

  function Addrs(id: nat): (a: seq<nat>)
    ensures |a| == UNITS
    ensures forall u :: 0 <= u < UNITS ==> a[u] == id + Off(u)
  {
    seq(UNITS, u requires 0 <= u < UNITS => id + Off(u))
  }

  /** What one accepted command does. */
  function Exec(s: Arch, c: Cmd): (t: Arch)
    requires s.Valid()
    ensures t.Valid()
  {
    match c.func
    case 1 =>
      if s.ctr < 12 then
        Arch(s.tile, s.memCtr, s.ctr + 1, Addrs(TapId(s.ctr)), c.in0,
             seq(UNITS, u requires 0 <= u < UNITS => Advance(s.pe[u], c.in1 % 8, s.tileW, s.tile[s.addr[u]])))
      else
        s.(addr := Addrs(0), tileW := c.in0)
    case 2 => s.(ctr := 0, addr := Addrs(0), tileW := 0)
    case 3 =>
      s.(ctr := 0, addr := Addrs(0), tileW := 0, pe := seq(UNITS, u requires 0 <= u < UNITS => Clear(s.pe[u])))
    case 4 => s.(memCtr := 0, ctr := 0, addr := Addrs(0), tileW := 0)
    case 5 =>
      s.(tile := Store(Store(s.tile, s.memCtr, c.in0), s.memCtr + 1, c.in1),
         memCtr := (s.memCtr + 2) % 0x100, ctr := 0, addr := Addrs(0), tileW := 0)
    case _ =>
      s.(ctr := if s.ctr < 12 then s.ctr + 1 else s.ctr, addr := Addrs(0), tileW := 0)
  }

  /** A memory write; one outside the scratchpad is dropped. */
  function Store(tile: seq<Word>, a: nat, w: Word): (t: seq<Word>)
    ensures |t| == |tile|
  {
    if a < |tile| then tile[a := w] else tile
  }

  /** The value a command answers with; `floating` stands for the missing ports of `out[16..]`. */
  function Response(s: Arch, c: Cmd, floating: Word): Word
    requires s.Valid()
  {
    if c.func != 2 then 0
    else if c.in0 < UNITS then s.pe[c.in0].acc[c.in1 % 8]
    else floating
  }

  /** Inputs of one clock cycle. */
  datatype Pins = Pins(reset: bool, cmdValid: bool, functionId: nat, in0: Word, in1: Word, rspReady: bool, floating: Word)
  {
    function Command(): (c: Cmd)
      ensures c.func < 8
    {
      Cmd(Func(functionId), in0, in1)
    }
  }

  /** All registers of the module. */
  datatype Regs = Regs(arch: Arch, rspValid: bool, output: Word)
  {
    ghost predicate Valid() {
      arch.Valid()
    }
  }

  /** The reset pin: the units are cleared only while cmd_valid is also high. */
  function ResetArch(s: Arch, p: Pins): (t: Arch)
    requires s.Valid()
    ensures t.Valid()
  {
    var t := if p.cmdValid then Exec(s, p.Command()) else s;
    var cleared := seq(UNITS, u requires 0 <= u < UNITS => Clear(s.pe[u]));
    t.(tile := seq(DEPTH, _ => 0), memCtr := 0, ctr := 0, pe := if p.cmdValid then cleared else s.pe)
  }

  /** One clock edge in terms of whole commands. */
  function Tick(s: Regs, p: Pins): (t: Regs)
    requires s.Valid()
    ensures t.Valid()
  {
    if p.reset then
      Regs(ResetArch(s.arch, p), false, 0)
    else
      var arch := if p.cmdValid then Exec(s.arch, p.Command()) else s.arch;
      if s.rspValid then Regs(arch, !p.rspReady, s.output)
      else if p.cmdValid then Regs(arch, true, Response(s.arch, p.Command(), p.floating))
      else Regs(arch, false, s.output)
  }

  /** The next contents of the sixteen units under the three shared controls. */
  function StepUnits(s: Arch, reset: bool, start: bool, sel: nat): (pe: seq<Pe>)
    requires s.Valid() && sel < 8
    ensures |pe| == UNITS && forall u :: 0 <= u < UNITS ==> pe[u].Valid()
  {
    seq(UNITS, u requires 0 <= u < UNITS =>
      if reset then Clear(s.pe[u])
      else if start then Advance(s.pe[u], sel, s.tileW, s.tile[s.addr[u]])
      else s.pe[u])
  }

  /** The next contents of the scratchpad and its write counter. */
  function StepScratchpad(s: Arch, reset: bool, write: bool, restart: bool, in0: Word, in1: Word): Arch
    requires s.Valid()
  {
    if reset then s.(tile := seq(DEPTH, _ => 0), memCtr := 0)
    else if write then
      s.(tile := Store(Store(s.tile, s.memCtr, in0), s.memCtr + 1, in1), memCtr := (s.memCtr + 2) % 0x100)
    else if restart then s.(memCtr := 0)
    else s
  }

  /** The next contents of the address registers and the broadcast weight. */
  function StepAddresses(s: Arch, enable: bool, id: nat, weight: Word): Arch {
    if enable then s.(addr := Addrs(id), tileW := weight) else s
  }

  /** The next value of the compute counter. */
  function StepCounter(s: Arch, restart: bool, cmdValid: bool): Arch {
    s.(ctr := if restart then 0 else if s.ctr < 12 && cmdValid then s.ctr + 1 else s.ctr)
  }

  /** The decoded control signals drive the units exactly as the command says. */
  lemma UnitControls(s: Regs, p: Pins)
    requires s.Valid()
    ensures var func := Func(p.functionId);
            var sel := if func == 1 || func == 2 then p.in1 % 8 else 0;
            StepUnits(s.arch, (func == 3 || p.reset) && p.cmdValid, func == 1 && p.cmdValid && s.arch.ctr < 12, sel)
            == Tick(s, p).arch.pe
  {
    var func := Func(p.functionId);
    var sel := if func == 1 || func == 2 then p.in1 % 8 else 0;
    var pe := StepUnits(s.arch, (func == 3 || p.reset) && p.cmdValid, func == 1 && p.cmdValid && s.arch.ctr < 12, sel);
    assert |Tick(s, p).arch.pe| == UNITS;
    forall u | 0 <= u < UNITS
      ensures pe[u] == Tick(s, p).arch.pe[u]
    {
    }
  }

  /** Control signals decoded from the inputs of one cycle. */
  datatype Controls = Controls(run: bool, clear: bool, write: bool, rewind: bool, restart: bool, sel: nat, weight: Word)
  {
    predicate Valid() {
      sel < 8
    }
  }

  function Decode(p: Pins): (c: Controls)
    ensures c.Valid()
  {
    var func := Func(p.functionId);
    Controls(func == 1 && p.cmdValid,
             (func == 3 || p.reset) && p.cmdValid,
             p.cmdValid && func == 5,
             func == 4 && p.cmdValid,
             (func == 5 || func == 2 || func == 4) && p.cmdValid,
             if func == 1 || func == 2 then p.in1 % 8 else 0,
             if func == 1 then p.in0 else 0)
  }

  /** The arithmetic blocks on one edge, from the decoded control signals. */
  function EdgeArch(s: Arch, c: Controls, p: Pins): Arch
    requires s.Valid() && c.Valid()
  {
    var s1 := s.(pe := StepUnits(s, c.clear, c.run && s.ctr < 12, c.sel));
    var s2 := StepScratchpad(s1, p.reset, c.write, c.rewind, p.in0, p.in1);
    var s3 := StepAddresses(s2, p.cmdValid, if c.run then TapId(s.ctr) else 0, c.weight);
    StepCounter(s3, c.restart || p.reset || c.clear, p.cmdValid)
  }

  /** One edge, always-block by always-block. */
  function Edge(s: Regs, p: Pins): Regs
    requires s.Valid()
  {
    Regs(EdgeArch(s.arch, Decode(p), p),
         !p.reset && if s.rspValid then !p.rspReady else p.cmdValid,
         if p.reset then 0
         else if !s.rspValid && p.cmdValid then Response(s.arch, p.Command(), p.floating)
         else s.output)
  }

  /** Block by block, the Verilog computes what the command-level `Tick` says. */
  lemma EdgeIsTick(s: Regs, p: Pins)
    requires s.Valid()
    ensures Edge(s, p) == Tick(s, p)
  {
    UnitControls(s, p);
  }

  class Accelerator {
    const tileMem: array<Word>
    const a: array<nat>         // a00..a15
    const units: seq<Unit>      // m00..m15
    var memCtr: Byte
    var ctr: nat
    var tileW: Word
    var rspValidReg: bool
    var output0: Word
    const Repr: set<object>

    ghost predicate Valid()
      reads this, Repr
    {
      && Repr == {this, tileMem, a} + (set m | m in units)
      && tileMem as object != a
      && tileMem.Length == DEPTH && a.Length == UNITS && |units| == UNITS
      && (forall i, j :: 0 <= i < j < UNITS ==> units[i] != units[j])
      && (forall u :: 0 <= u < UNITS ==> units[u] in Repr && units[u].Valid())
      && ctr < 16
      && (forall u :: 0 <= u < UNITS ==> a[u] < DEPTH)
    }

    ghost function State(): (s: Arch)
      requires Valid()
      reads this, Repr
      ensures s.Valid()
    {
      Arch(tileMem[..], memCtr, ctr, a[..], tileW,
           seq(UNITS, u requires 0 <= u < UNITS reads this, Repr => units[u].Value()))
    }

    ghost function Registers(): (s: Regs)
      requires Valid()
      reads this, Repr
      ensures s.Valid()
    {
      Regs(State(), rspValidReg, output0)
    }

    static method NewUnits(pe: seq<Pe>) returns (ms: seq<Unit>)
      requires |pe| == UNITS && forall u :: 0 <= u < UNITS ==> pe[u].Valid()
      ensures |ms| == UNITS && forall u :: 0 <= u < UNITS ==> fresh(ms[u]) && ms[u].Valid() && ms[u].Value() == pe[u]
      ensures forall i, j :: 0 <= i < j < UNITS ==> ms[i] != ms[j]
    {
      ms := [];
      for u := 0 to UNITS
        invariant |ms| == u
        invariant forall i :: 0 <= i < u ==> fresh(ms[i]) && ms[i].Valid() && ms[i].Value() == pe[i]
        invariant forall i, j :: 0 <= i < j < u ==> ms[i] != ms[j]
      {
        var m := new Unit(pe[u]);
        ms := ms + [m];
      }
    }

    /** Registers without an initial value power up holding anything; the scratchpad holds 0x80 bytes. */
    constructor (power: Regs)
      requires power.Valid()
      ensures Valid() && fresh(Repr)
      ensures Registers() == power.(arch := power.arch.(tile := seq(DEPTH, _ => 0x8080_8080)))
    {
      var ms := NewUnits(power.arch.pe);
      var mem := new Word[DEPTH](_ => 0x8080_8080);
      var addrs := new nat[UNITS](u requires 0 <= u < UNITS => power.arch.addr[u]);
      tileMem, a, units := mem, addrs, ms;
      memCtr, ctr, tileW := power.arch.memCtr, power.arch.ctr, power.arch.tileW;
      rspValidReg, output0 := power.rspValid, power.output;
      Repr := {this, mem, addrs} + (set m | m in ms);
      new;
      assert forall i :: 0 <= i < DEPTH ==> tileMem[i] == 0x8080_8080;
      assert tileMem[..] == seq(DEPTH, _ => 0x8080_8080);
      assert forall u :: 0 <= u < UNITS ==> a[u] == power.arch.addr[u];
      assert a[..] == power.arch.addr;
      assert State().pe == power.arch.pe;
    }

    /** cmd_ready and rsp_valid are wires off one register. */
    predicate CmdReady()
      reads this
    {
      !rspValidReg
    }

    /** The sixteen instances: every unit sees the same selector and weight, and its own scratchpad word. */
    method ClockUnits(reset: bool, start: bool, sel: nat)
      requires Valid() && sel < 8
      modifies units
      ensures Valid()
      ensures State() == old(State()).(pe := StepUnits(old(State()), reset, start, sel))
    {
      for u := 0 to UNITS
        invariant Valid()
        invariant forall i :: u <= i < UNITS ==> units[i].Value() == old(units[i].Value())
        invariant forall i :: 0 <= i < u ==>
          units[i].Value() == if reset then Clear(old(units[i].Value()))
                              else if start then Advance(old(units[i].Value()), sel, tileW, tileMem[a[i]])
                              else old(units[i].Value())
      {
        units[u].Clock(reset, start, sel, tileW, tileMem[a[u]]);
      }
      assert State().pe == StepUnits(old(State()), reset, start, sel);
    }

    /** The scratchpad block. */
    method ClockScratchpad(reset: bool, write: bool, restart: bool, in0: Word, in1: Word)
      requires Valid()
      modifies tileMem, `memCtr
      ensures Valid()
      ensures State() == StepScratchpad(old(State()), reset, write, restart, in0, in1)
    {
      hide Addrs;
      if reset {
        for j := 0 to DEPTH
          invariant forall i :: 0 <= i < j ==> tileMem[i] == 0
        {
          tileMem[j] := 0;
        }
        memCtr := 0;
      } else if write {
        if memCtr < DEPTH {
          tileMem[memCtr] := in0;
        }
        if memCtr + 1 < DEPTH {
          tileMem[memCtr + 1] := in1;
        }
        memCtr := (memCtr + 2) % 0x100;
      } else if restart {
        memCtr := 0;
      }
      assert State().pe == old(State()).pe;
      assert tileMem[..] == StepScratchpad(old(State()), reset, write, restart, in0, in1).tile;
    }

    /** The block holding the address registers a00..a15 and the broadcast weight. */
    method ClockAddresses(enable: bool, id: nat, weight: Word)
      requires Valid() && id <= 36
      modifies a, `tileW
      ensures Valid()
      ensures State() == StepAddresses(old(State()), enable, id, weight)
    {
      if enable {
        forall u | 0 <= u < UNITS {
          a[u] := id + Off(u);
        }
        tileW := weight;
        assert a[..] == Addrs(id);
      }
      assert State().pe == old(State()).pe;
    }

    /** The compute counter. */
    method ClockCounter(restart: bool, cmdValid: bool)
      requires Valid()
      modifies `ctr
      ensures Valid()
      ensures State() == StepCounter(old(State()), restart, cmdValid)
    {
      if restart {
        ctr := 0;
      } else if ctr < 12 && cmdValid {
        ctr := ctr + 1;
      }
      assert State().pe == old(State()).pe;
    }

    /** The handshake with the CPU. */
    method ClockHandshake(reset: bool, cmdValid: bool, rspReady: bool, answer: Word)
      requires Valid()
      modifies `rspValidReg, `output0
      ensures Valid() && State() == old(State())
      ensures rspValidReg == (!reset && if old(rspValidReg) then !rspReady else cmdValid)
      ensures output0 == if reset then 0 else if !old(rspValidReg) && cmdValid then answer else old(output0)
    {
      if reset {
        output0, rspValidReg := 0, false;
      } else if rspValidReg {
        rspValidReg := !rspReady;
      } else if cmdValid {
        output0, rspValidReg := answer, true;
      }
      assert State().pe == old(State()).pe;
    }

    /** The combinational choice of tap address and of whether the units run. */
    static method DecodeTap(run: bool, ctr: nat) returns (id: nat, mode: bool)
      ensures mode == (run && ctr < 12)
      ensures id == if run then TapId(ctr) else 0
      ensures id <= 36
    {
      if run {
        if ctr < 3 {
          id, mode := ctr, true;
        } else if ctr < 6 {
          id, mode := ctr + 3, true;
        } else if ctr < 9 {
          id, mode := ctr + 6, true;
        } else if ctr < 12 {
          id, mode := 36, true;
        } else {
          id, mode := 0, false;
        }
      } else {
        id, mode := 0, false;
      }
    }

    /** The arithmetic blocks; each reads only registers no earlier one has written. */
    method ClockArch(c: Controls, p: Pins)
      requires Valid() && c.Valid()
      modifies units, tileMem, a, `memCtr, `tileW, `ctr
      ensures Valid()
      ensures State() == EdgeArch(old(State()), c, p)
    {
      hide StepUnits, StepScratchpad, StepAddresses, StepCounter, Addrs, Off, TapId;
      var id, mode := DecodeTap(c.run, ctr);
      ClockUnits(c.clear, mode, c.sel);
      ClockScratchpad(p.reset, c.write, c.rewind, p.in0, p.in1);
      ClockAddresses(p.cmdValid, id, c.weight);
      ClockCounter(c.restart || p.reset || c.clear, p.cmdValid);
    }

    /** The mux in front of output_0. */
    method ReadOut(p: Pins, sel: nat) returns (out: Word)
      requires Valid() && sel == Decode(p).sel
      ensures out == Response(State(), p.Command(), p.floating)
    {
      if Func(p.functionId) != 2 {
        out := 0;
      } else if p.in0 < UNITS {
        out := units[p.in0].acc[sel];
        assert State().pe[p.in0] == units[p.in0].Value();
      } else {
        out := p.floating;
      }
    }

    /** All blocks on one edge. */
    method ClockBlocks(p: Pins)
      requires Valid()
      modifies Repr
      ensures Valid()
      ensures Registers() == Edge(old(Registers()), p)
    {
      var c := Decode(p);
      var out := ReadOut(p, c.sel);
      ClockArch(c, p);
      ClockHandshake(p.reset, p.cmdValid, p.rspReady, out);
    }

    /** One rising edge of clk. */
    method Clock(p: Pins)
      requires Valid()
      modifies Repr
      ensures Valid()
      ensures Registers() == Tick(old(Registers()), p)
    {
      EdgeIsTick(Registers(), p);
      ClockBlocks(p);
    }
  }
}
