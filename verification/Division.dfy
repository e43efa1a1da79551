/**
 Software division: the illegal-instruction path from `trap_entry` in
 common/src/crt0-vexriscv.S through common/src/instruction_handler.cc and back.
 */
module Division {
  import opened Words
  import opened Arith

  /** The fields of an R-type instruction. */
  function Opcode(instruction: Word): nat { instruction % 0x80 }
  function Rd(instruction: Word): (f: nat) ensures f < 32 { instruction / 0x80 % 0x20 }
  function Funct3(instruction: Word): (f: nat) ensures f < 8 { instruction / 0x1000 % 8 }
  function Rs1(instruction: Word): (f: nat) ensures f < 32 { instruction / 0x8000 % 0x20 }
  function Rs2(instruction: Word): (f: nat) ensures f < 32 { instruction / 0x10_0000 % 0x20 }

  /** Words of the frame that `trap_entry` opens below the stack pointer. */
  const FRAME := 31

  /** Where the handler looks for register k, counted from the frame's base. */
  function RegOffset(reg: nat): int {
    31 - reg
  }

  /** Registers with a slot of their own in the frame: neither x0 nor the stack pointer x2. */
  predicate Saved(k: nat) {
    k < 32 && k != 0 && k != 2
  }

  /** The 64-bit library helpers: division truncates, and a remainder by zero is the dividend. */
  function DivHelper(a: int, b: int): int
    requires b != 0
  {
    if (a < 0) == (b < 0) then Abs(a) / Abs(b) else -(Abs(a) / Abs(b))
  }

  function ModHelper(a: int, b: int): int {
    if b == 0 then a else if a < 0 then -(Abs(a) % Abs(b)) else Abs(a) % Abs(b)
  }

  /** What the handler stores for the four M-extension opcodes; None leaves the frame alone. */
  function HandlerValue(funct3: nat, src1: Word, src2: Word): Option<Word> {
    var s1, s2 := Signed32(src1) as int, Signed32(src2) as int;
    match funct3
    case 4 => Some(Wrap(if src2 != 0 then DivHelper(s1, s2) else -1))
    case 5 => Some(Wrap(if src2 != 0 then DivHelper(src1, src2) else -1))
    case 6 => Some(Wrap(ModHelper(s1, s2)))
    case 7 => Some(Wrap(ModHelper(src1, src2)))
    case _ => None
  }

  /** The frame after the handler: only the slot of rd changes. */
  function Handled(stack: seq<Word>, base: nat, instruction: Word): (after: seq<Word>)
    requires base + 32 <= |stack|
    ensures |after| == |stack|
  {
    var v := HandlerValue(Funct3(instruction), stack[base + RegOffset(Rs1(instruction))],
                          stack[base + RegOffset(Rs2(instruction))]);
    if v.Some? then stack[base + RegOffset(Rd(instruction)) := v.value] else stack
  }

  /** div_instruction_handler, with `reg_base` the address of word `base`. */
  method DivInstructionHandler(stack: array<Word>, base: nat, instruction: Word)
    requires base + 32 <= stack.Length
    modifies stack
    ensures stack[..] == Handled(old(stack[..]), base, instruction)
  {
    hide Rd, Rs1, Rs2, Funct3, DivHelper, ModHelper, Wrap;
    var funct3 := Funct3(instruction);
    var rd := base + RegOffset(Rd(instruction));
    var src1 := stack[base + RegOffset(Rs1(instruction))];
    var src2 := stack[base + RegOffset(Rs2(instruction))];
    SignedZero(src2);
    match funct3 {
      case 4 => stack[rd] := Wrap(if src2 != 0 then DivHelper(Signed32(src1) as int, Signed32(src2) as int) else -1);
      case 5 => stack[rd] := Wrap(if src2 != 0 then DivHelper(src1, src2) else -1);
      case 6 => stack[rd] := Wrap(ModHelper(Signed32(src1) as int, Signed32(src2) as int));
      case 7 => stack[rd] := Wrap(ModHelper(src1, src2));
      case _ =>
    }
  }

  lemma SignedZero(w: Word)
    ensures Signed32(w) == 0 <==> w == 0
  {
  }

  /** instruction_handler: only opcode 0x33 is handled and stepped over. */
  method InstructionHandler(stack: array<Word>, base: nat, mtval: Word, mepc: Word) returns (next: Word)
    requires base + 32 <= stack.Length
    modifies stack
    ensures stack[..] == if Opcode(mtval) == 0x33 then Handled(old(stack[..]), base, mtval) else old(stack[..])
    ensures next == if Opcode(mtval) == 0x33 then Wrap(mepc + 4) else mepc
  {
    hide Handled;
    next := mepc;
    if Opcode(mtval) == 0x33 {
      DivInstructionHandler(stack, base, mtval);
      next := Wrap(mepc + 4);
    }
  }

  /** The trap cause of an illegal instruction. */
  const CAUSE_ILLEGAL_INSTRUCTION := 2

  /** The trap is a division the processor does not have. */
  predicate IsDivision(mcause: Word, mtval: Word) {
    mcause == CAUSE_ILLEGAL_INSTRUCTION && Opcode(mtval) == 0x33
  }

  /** trap_handler: anything but an illegal instruction goes to the interrupt routine, which has no business in the frame. */
  method TrapHandler(stack: array<Word>, base: nat, mcause: Word, mtval: Word, mepc: Word) returns (next: Word)
    requires base + 32 <= stack.Length
    modifies stack
    ensures stack[..] == if IsDivision(mcause, mtval) then Handled(old(stack[..]), base, mtval) else old(stack[..])
    ensures next == if IsDivision(mcause, mtval) then Wrap(mepc + 4) else mepc
  {
    hide Handled;
    next := mepc;
    if mcause == CAUSE_ILLEGAL_INSTRUCTION {
      next := InstructionHandler(stack, base, mtval, mepc);
    }
  }

  /**
   What the handler takes for register k: its saved value; for x0 the interrupted program's own word at
   the stack pointer; for x2 whatever lies two words below it.
   */
  function Operand(regs: seq<Word>, atSp: Word, below: Word, k: nat): Word
    requires |regs| == 32 && k < 32
  {
    if k == 0 then atSp else if k == 2 then below else regs[k]
  }

  /** The value the trap computes, if it computes one. */
  function TrapValue(regs: seq<Word>, atSp: Word, below: Word, mcause: Word, mtval: Word): Option<Word>
    requires |regs| == 32
  {
    if !IsDivision(mcause, mtval) then None
    else HandlerValue(Funct3(mtval), Operand(regs, atSp, below, Rs1(mtval)), Operand(regs, atSp, below, Rs2(mtval)))
  }

  /** What the interrupted program can see: its registers and the word at its stack pointer. */
  datatype Seen = Seen(regs: seq<Word>, atSp: Word)

  function AfterTrap(regs: seq<Word>, atSp: Word, below: Word, mcause: Word, mtval: Word): Seen
    requires |regs| == 32
  {
    var v := TrapValue(regs, atSp, below, mcause, mtval);
    if v.None? then Seen(regs, atSp)
    else if Rd(mtval) == 0 then Seen(regs, v.value)
    else if Rd(mtval) == 2 then Seen(regs, atSp)
    else Seen(regs[Rd(mtval) := v.value], atSp)
  }

  /** x1 and x3 to x31 below the stack pointer. */
  method Save(regs: array<Word>, stack: array<Word>, sp: nat)
    requires regs != stack && regs.Length == 32 && FRAME <= sp < stack.Length
    modifies stack
    ensures forall k :: 0 <= k < 32 && Saved(k) ==> stack[sp - k] == regs[k]
    ensures forall i :: 0 <= i < stack.Length && (i >= sp || i == sp - 2) ==> stack[i] == old(stack[i])
  {
    forall k | 0 <= k < 32 && Saved(k) {
      stack[sp - k] := regs[k];
    }
  }

  /** The loads at the end. */
  method Restore(regs: array<Word>, stack: array<Word>, sp: nat)
    requires regs != stack && regs.Length == 32 && FRAME <= sp < stack.Length
    modifies regs
    ensures forall k :: 0 <= k < 32 ==> regs[k] == if Saved(k) then stack[sp - k] else old(regs[k])
  {
    forall k | 0 <= k < 32 && Saved(k) {
      regs[k] := stack[sp - k];
    }
  }

  /** What called code leaves in the other registers and in the memory below the frame. */
  method Clobber(regs: array<Word>, stack: array<Word>, base: nat)
    requires regs != stack && regs.Length == 32 && base <= stack.Length
    modifies regs, stack
    ensures forall k :: 0 <= k < 32 && !Saved(k) ==> regs[k] == old(regs[k])
    ensures forall i :: base <= i < stack.Length ==> stack[i] == old(stack[i])
  {
    var values := new Word[32];
    forall k | 0 <= k < 32 && Saved(k) {
      regs[k] := values[k];
    }
    var frames := new Word[base];
    forall i | 0 <= i < base {
      stack[i] := frames[i];
    }
  }

  /**
   trap_entry, with `stack` the memory around the stack pointer: save, handle, restore. Above the stack
   pointer nothing changes, whatever the instruction and the cause.
   */
  method TrapEntry(regs: array<Word>, stack: array<Word>, sp: nat, mcause: Word, mtval: Word, mepc: Word) returns (next: Word)
    requires regs != stack && regs.Length == 32 && FRAME <= sp < stack.Length
    modifies regs, stack
    ensures next == if IsDivision(mcause, mtval) then Wrap(mepc + 4) else mepc
    ensures Seen(regs[..], stack[sp]) == AfterTrap(old(regs[..]), old(stack[sp]), old(stack[sp - 2]), mcause, mtval)
    ensures stack[sp + 1..] == old(stack[sp + 1..])
  {
    hide Rd, Rs1, Rs2, Funct3, HandlerValue, IsDivision;
    ghost var was := regs[..];
    Save(regs, stack, sp);
    ghost var saved := stack[..];
    next := TrapHandler(stack, sp - FRAME, mcause, mtval, mepc);
    ghost var handled := stack[..];
    HandledFrame(was, saved, sp, mcause, mtval);
    Clobber(regs, stack, sp - FRAME);
    Restore(regs, stack, sp);
    ghost var v := TrapValue(was, saved[sp], saved[sp - 2], mcause, mtval);
    assert regs[..] == if v.Some? && Saved(Rd(mtval)) then was[Rd(mtval) := v.value] else was;
  }

  /** The handler's slots are the registers' own, but for x0 and x2. */
  lemma HandledFrame(regs: seq<Word>, saved: seq<Word>, sp: nat, mcause: Word, mtval: Word)
    requires |regs| == 32 && FRAME <= sp < |saved|
    requires forall k :: 0 <= k < 32 && Saved(k) ==> saved[sp - k] == regs[k]
    ensures var v := TrapValue(regs, saved[sp], saved[sp - 2], mcause, mtval);
            (if IsDivision(mcause, mtval) then Handled(saved, sp - FRAME, mtval) else saved)
            == if v.Some? then saved[sp - Rd(mtval) := v.value] else saved
  {
    hide HandlerValue, Funct3, Opcode;
    forall k | 0 <= k < 32
      ensures saved[sp - FRAME + RegOffset(k)] == Operand(regs, saved[sp], saved[sp - 2], k)
    {
    }
    assert sp - FRAME + RegOffset(Rd(mtval)) == sp - Rd(mtval);
  }

  // ----- the instruction word -----

  /** An R-type instruction: seven, five, five, three, five and seven bits from the top. */
  function Encode(funct7: nat, rs2: nat, rs1: nat, funct3: nat, rd: nat, opcode: nat): nat {
    opcode + 0x80 * rd + 0x1000 * funct3 + 0x8000 * rs1 + 0x10_0000 * rs2 + 0x200_0000 * funct7
  }

  /** The handler's shifts and masks give back the fields of every instruction word; funct7 is never looked at. */
  lemma DecodeEncoded(funct7: nat, rs2: nat, rs1: nat, funct3: nat, rd: nat, opcode: nat)
    requires funct7 < 128 && rs2 < 32 && rs1 < 32 && funct3 < 8 && rd < 32 && opcode < 128
    ensures Encode(funct7, rs2, rs1, funct3, rd, opcode) < 0x1_0000_0000
    ensures var w := Encode(funct7, rs2, rs1, funct3, rd, opcode);
            Rs2(w) == rs2 && Rs1(w) == rs1 && Funct3(w) == funct3 && Rd(w) == rd && Opcode(w) == opcode
  {
    var f := rs2 + 0x20 * funct7;
    var e := rs1 + 0x20 * f;
    var d := funct3 + 8 * e;
    var c := rd + 0x20 * d;
    var w := Encode(funct7, rs2, rs1, funct3, rd, opcode);
    assert w == opcode + 0x80 * c;
    assert w / 0x80 == c && w / 0x1000 == d && w / 0x8000 == e && w / 0x10_0000 == f;
  }

  /**
   `div`, `divu`, `rem` and `remu` on registers other than x0 and x2, from the instruction word to the
   registers: cause 2, funct3 4 to 7, and only rd changes.
   */
  lemma TrapOnWord(funct7: nat, rs2: nat, rs1: nat, funct3: nat, rd: nat, regs: seq<Word>, atSp: Word, below: Word)
    requires funct7 < 128 && 4 <= funct3 < 8 && |regs| == 32
    requires rs2 < 32 && rs1 < 32 && rd < 32 && 0 !in {rd, rs1, rs2} && 2 !in {rd, rs1, rs2}
    ensures Encode(funct7, rs2, rs1, funct3, rd, 0x33) < 0x1_0000_0000
    ensures HandlerValue(funct3, regs[rs1], regs[rs2]).Some?
    ensures AfterTrap(regs, atSp, below, 2, Encode(funct7, rs2, rs1, funct3, rd, 0x33))
         == Seen(regs[rd := HandlerValue(funct3, regs[rs1], regs[rs2]).value], atSp)
  {
    DecodeEncoded(funct7, rs2, rs1, funct3, rd, 0x33);
    NoneByFunct3(funct3, regs[rs1], regs[rs2]);
    hide HandlerValue, Encode, Rd, Rs1, Rs2, Funct3, Opcode;
  }

  /** Any other cause, any other opcode and any other funct3 leave registers and stack alone. */
  lemma OtherTraps(funct7: nat, rs2: nat, rs1: nat, funct3: nat, rd: nat, opcode: nat, mcause: Word,
                   regs: seq<Word>, atSp: Word, below: Word)
    requires funct7 < 128 && rs2 < 32 && rs1 < 32 && funct3 < 8 && rd < 32 && opcode < 128 && |regs| == 32
    requires mcause != 2 || opcode != 0x33 || funct3 < 4
    ensures Encode(funct7, rs2, rs1, funct3, rd, opcode) < 0x1_0000_0000
    ensures AfterTrap(regs, atSp, below, mcause, Encode(funct7, rs2, rs1, funct3, rd, opcode)) == Seen(regs, atSp)
    ensures IsDivision(mcause, Encode(funct7, rs2, rs1, funct3, rd, opcode)) <==> mcause == 2 && opcode == 0x33
  {
    DecodeEncoded(funct7, rs2, rs1, funct3, rd, opcode);
    hide Encode, Rd, Rs1, Rs2, Funct3, Opcode, DivHelper, ModHelper, Wrap, Signed32;
  }

  // ----- where the handler and the instruction set agree -----

  /** The instruction set's own outcome: x0 reads as zero and cannot be written. */
  function Required(regs: seq<Word>, atSp: Word, mtval: Word): Seen
    requires |regs| == 32
  {
    var v := HandlerValue(Funct3(mtval), regs[Rs1(mtval)], regs[Rs2(mtval)]);
    if v.None? || Rd(mtval) == 0 then Seen(regs, atSp) else Seen(regs[Rd(mtval) := v.value], atSp)
  }

  /** The trap does what the instruction should, for every register file and every content of the stack. */
  ghost predicate AlwaysRight(mtval: Word) {
    forall regs: seq<Word>, atSp: Word, below: Word | |regs| == 32 && regs[0] == 0 ::
      AfterTrap(regs, atSp, below, CAUSE_ILLEGAL_INSTRUCTION, mtval) == Required(regs, atSp, mtval)
  }

  /** What a caller can read off the instruction: which registers it names. */
  predicate NamesSavedOnly(mtval: Word) {
    var rd, rs1, rs2 := Rd(mtval), Rs1(mtval), Rs2(mtval);
    var remainder := Funct3(mtval) >= 6;
    || (Saved(rd) && ((Saved(rs1) && Saved(rs2)) || (remainder && rs1 == rs2)))
    || (rd == 2 && remainder && rs1 == 2 && rs2 == 0)
  }

  /** Small operands, as the four instructions see them. */
  lemma SmallOperands(funct3: nat, a: Word, b: Word)
    requires 4 <= funct3 < 8 && a < 8 && b < 8
    ensures HandlerValue(funct3, a, b)
         == Some(if funct3 < 6 then if b == 0 then 0xffff_ffff else a / b else if b == 0 then a else a % b)
  {
    assert Signed32(a) as int == a && Signed32(b) as int == b;
    hide Signed32;
    SmallHelpers(a, b);
    hide DivHelper, ModHelper;
  }

  lemma SmallHelpers(a: nat, b: nat)
    requires a < 8 && b < 8
    ensures b > 0 ==> DivHelper(a, b) == a / b && 0 <= a / b < 8 && ModHelper(a, b) == a % b && 0 <= a % b < 8
    ensures ModHelper(a, 0) == a
  {
  }

  /** A value divided by itself leaves nothing, and so does zero divided by zero. */
  lemma RemainderOfSelf(funct3: nat, a: Word)
    requires funct3 == 6 || funct3 == 7
    ensures HandlerValue(funct3, a, a) == Some(0)
  {
  }

  lemma RemainderByZero(funct3: nat, a: Word)
    requires funct3 == 6 || funct3 == 7
    ensures HandlerValue(funct3, a, 0) == Some(a)
  {
    WrapSigned(a);
  }

  /** Registers and stack words that tell the handler from the instruction whenever they can be told apart. */
  function Sample(value: Word, sp: Word): (regs: seq<Word>)
    ensures |regs| == 32 && regs[0] == 0
  {
    seq(32, k => if k == 0 then 0 else if k == 2 then sp else value)
  }

  lemma DivisionTold(mtval: Word)
    requires Opcode(mtval) == 0x33 && 4 <= Funct3(mtval) < 6 && !NamesSavedOnly(mtval)
    ensures AfterTrap(Sample(2, 2), 5, 0, CAUSE_ILLEGAL_INSTRUCTION, mtval) != Required(Sample(2, 2), 5, mtval)
  {
    hide HandlerValue, Rd, Rs1, Rs2, Funct3, Opcode;
    var regs := Sample(2, 2);
    SmallOperands(Funct3(mtval), regs[Rs1(mtval)], regs[Rs2(mtval)]);
    SmallOperands(Funct3(mtval), Operand(regs, 5, 0, Rs1(mtval)), Operand(regs, 5, 0, Rs2(mtval)));
    var after, required := AfterTrap(regs, 5, 0, CAUSE_ILLEGAL_INSTRUCTION, mtval), Required(regs, 5, mtval);
    assert if Rd(mtval) == 0 then after.atSp != required.atSp else after.regs[Rd(mtval)] != required.regs[Rd(mtval)];
  }

  lemma RemainderTold(mtval: Word, value: Word, sp: Word, atSp: Word, below: Word)
    requires Opcode(mtval) == 0x33 && 6 <= Funct3(mtval) < 8 && !NamesSavedOnly(mtval)
    requires if Rd(mtval) == 0 then value == sp == below == 2 && atSp == 3
             else value == 5 && sp == (if Rd(mtval) == 2 then 7 else 5) && atSp == 3 && below == 4
    ensures AfterTrap(Sample(value, sp), atSp, below, CAUSE_ILLEGAL_INSTRUCTION, mtval) != Required(Sample(value, sp), atSp, mtval)
  {
    hide HandlerValue, Rd, Rs1, Rs2, Funct3, Opcode;
    var regs := Sample(value, sp);
    SmallOperands(Funct3(mtval), regs[Rs1(mtval)], regs[Rs2(mtval)]);
    SmallOperands(Funct3(mtval), Operand(regs, atSp, below, Rs1(mtval)), Operand(regs, atSp, below, Rs2(mtval)));
    var after, required := AfterTrap(regs, atSp, below, CAUSE_ILLEGAL_INSTRUCTION, mtval), Required(regs, atSp, mtval);
    assert if Rd(mtval) == 0 then after.atSp != required.atSp else after.regs[Rd(mtval)] != required.regs[Rd(mtval)];
  }

  /** `div x10, x0, x11`, which asks for zero: with 5 on top of the stack and 2 in x11 it answers 2. */
  lemma ZeroDividend()
    ensures Required(Sample(2, 2), 5, 0x02b0_4533).regs[10] == 0
    ensures AfterTrap(Sample(2, 2), 5, 0, CAUSE_ILLEGAL_INSTRUCTION, 0x02b0_4533).regs[10] == 2
  {
    hide HandlerValue;
    SmallOperands(4, 0, 2);
    SmallOperands(4, 5, 2);
  }

  lemma SavedOnlyRight(mtval: Word, regs: seq<Word>, atSp: Word, below: Word)
    requires Opcode(mtval) == 0x33 && 4 <= Funct3(mtval) < 8 && NamesSavedOnly(mtval)
    requires |regs| == 32 && regs[0] == 0
    ensures AfterTrap(regs, atSp, below, CAUSE_ILLEGAL_INSTRUCTION, mtval) == Required(regs, atSp, mtval)
  {
    hide HandlerValue, Rd, Rs1, Rs2, Funct3, Opcode;
    if Funct3(mtval) >= 6 {
      RemainderOfSelf(Funct3(mtval), regs[Rs1(mtval)]);
      RemainderOfSelf(Funct3(mtval), Operand(regs, atSp, below, Rs1(mtval)));
      RemainderByZero(Funct3(mtval), regs[Rs1(mtval)]);
      RemainderByZero(Funct3(mtval), Operand(regs, atSp, below, Rs1(mtval)));
    }
    NoneByFunct3(Funct3(mtval), regs[Rs1(mtval)], regs[Rs2(mtval)]);
  }

  lemma NoneByFunct3(funct3: nat, a: Word, b: Word)
    requires 4 <= funct3 < 8
    ensures HandlerValue(funct3, a, b).Some?
  {
    hide DivHelper, ModHelper, Wrap;
  }

  /**
   The frame has no slot for x0 and a dead one for x2. For every register file and stack the trap does what
   the instruction should if and only if the instruction keeps to the other registers, or is one of the
   remainders in which the stray operand cannot matter.
   */
  lemma RightIff(mtval: Word)
    requires Opcode(mtval) == 0x33 && 4 <= Funct3(mtval) < 8
    ensures AlwaysRight(mtval) <==> NamesSavedOnly(mtval)
  {
    hide AfterTrap, Required, NamesSavedOnly, Opcode, Rd, Funct3;
    if NamesSavedOnly(mtval) {
      forall regs: seq<Word>, atSp: Word, below: Word | |regs| == 32 && regs[0] == 0
        ensures AfterTrap(regs, atSp, below, CAUSE_ILLEGAL_INSTRUCTION, mtval) == Required(regs, atSp, mtval)
      {
        SavedOnlyRight(mtval, regs, atSp, below);
      }
    } else if Funct3(mtval) < 6 {
      DivisionTold(mtval);
    } else if Rd(mtval) == 0 {
      RemainderTold(mtval, 2, 2, 3, 2);
    } else {
      RemainderTold(mtval, 5, if Rd(mtval) == 2 then 7 else 5, 3, 4);
    }
  }

  // ----- the instruction set's own requirements -----

  lemma DivModPair(a: int, b: int)
    requires b != 0
    ensures a == b * DivHelper(a, b) + ModHelper(a, b)
    ensures Abs(ModHelper(a, b)) < Abs(b)
    ensures ModHelper(a, b) == 0 || (ModHelper(a, b) < 0) == (a < 0)
  {
    var q, r := Abs(a) / Abs(b), Abs(a) % Abs(b);
    assert Abs(a) == Abs(b) * q + r;
    if b < 0 {
      assert b * q == -(Abs(b) * q) && b * -q == Abs(b) * q;
    } else {
      assert b * -q == -(b * q);
    }
  }

  /** The quotient is no larger than the dividend. */
  lemma QuotientRange(a: int, b: int)
    requires b != 0
    ensures Abs(DivHelper(a, b)) <= Abs(a)
    ensures Abs(b) >= 2 ==> 2 * Abs(DivHelper(a, b)) <= Abs(a)
  {
    var m, n := Abs(a), Abs(b);
    var q := m / n;
    assert m == n * q + m % n;
    MulMono(1, n, q);
    if n >= 2 {
      MulMono(2, n, q);
    }
  }

  /**
   Section 7.2 of the RISC-V Unprivileged ISA (20191213), signed: -1 and the dividend for a zero
   divisor, the dividend and 0 on overflow, and otherwise the truncated quotient with its remainder.
   */
  lemma SignedDivision(src1: Word, src2: Word)
    ensures var a, b := Signed32(src1) as int, Signed32(src2) as int;
            var q := HandlerValue(4, src1, src2).value;
            var r := HandlerValue(6, src1, src2).value;
            && (src2 == 0 ==> q == 0xffff_ffff && r == src1)
            && (a == -0x8000_0000 && b == -1 ==> q == 0x8000_0000 && r == 0)
            && (src2 != 0 && !(a == -0x8000_0000 && b == -1) ==>
                  && a == b * (Signed32(q) as int) + Signed32(r) as int
                  && Abs(Signed32(r) as int) < Abs(b)
                  && (Signed32(r) == 0 || (Signed32(r) < 0) == (a < 0)))
  {
    var a, b := Signed32(src1) as int, Signed32(src2) as int;
    SignedZero(src2);
    if src2 != 0 {
      DivModPair(a, b);
      QuotientRange(a, b);
      hide DivHelper, ModHelper;
      WrapFits(DivHelper(a, b));
      WrapFits(ModHelper(a, b));
      if b == 1 || b == -1 {
        UnitDivisor(a, b);
      }
    } else {
      WrapSigned(src1);
    }
  }

  lemma WrapSigned(w: Word)
    ensures Wrap(Signed32(w) as int) == w
  {
  }

  lemma UnitDivisor(a: int, b: int)
    requires b == 1 || b == -1
    ensures DivHelper(a, b) == a * b && ModHelper(a, b) == 0
  {
  }

  lemma NonNegative(a: nat, b: nat)
    requires b != 0
    ensures DivHelper(a, b) >= 0 && ModHelper(a, b) >= 0
    ensures a == b * DivHelper(a, b) + ModHelper(a, b) && ModHelper(a, b) < b && DivHelper(a, b) <= a
  {
    var q, r := a / b, a % b;
    assert DivHelper(a, b) == q && ModHelper(a, b) == r;
    hide DivHelper, ModHelper;
    assert a == b * q + r && 0 <= r < b;
    QuotientBounds(a, b, q, r);
  }

  lemma QuotientBounds(a: nat, b: nat, q: int, r: int)
    requires b != 0 && a == b * q + r && 0 <= r < b
    ensures 0 <= q <= a
  {
    assert b * q == q * b;
    if q < 0 {
      MulMono(q, -1, b);
    } else {
      MulMono(1, b, q);
    }
  }

  lemma ByZero(a: int)
    ensures ModHelper(a, 0) == a
  {
  }

  /** The same section, unsigned: all ones and the dividend for a zero divisor, Euclidean division otherwise. */
  lemma UnsignedDivision(src1: Word, src2: Word)
    ensures var q := HandlerValue(5, src1, src2).value;
            var r := HandlerValue(7, src1, src2).value;
            if src2 == 0 then q == 0xffff_ffff && r == src1 else src1 == src2 * q + r && r < src2
  {
    hide DivHelper, ModHelper, Signed32;
    if src2 != 0 {
      NonNegative(src1, src2);
    } else {
      ByZero(src1);
    }
  }
}
