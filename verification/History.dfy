/**
 The control registers of the accelerator as functions of the command history, over every run: the
 compute counter counts commands, the write counter counts writes, and each scratchpad word is the
 operand of the write that reached it.
 */
module History {
  import opened Words
  import opened Mac
  import opened Cfu
  import opened Pipeline

  /** func 2 to 5 restart the compute counter. */
  predicate Restarts(c: Cmd) {
    c.func == 2 || c.func == 3 || c.func == 4 || c.func == 5
  }

  /** What a command does to the compute counter. */
  lemma CounterStep(s: Arch, c: Cmd)
    requires s.Valid()
    ensures Exec(s, c).ctr == if Restarts(c) then 0 else if s.ctr < 12 then s.ctr + 1 else s.ctr
  {
    hide Advance, Clear, Store, Addrs, TapId;
  }

  /** The compute counter: the commands since the last restart, func 0, 6 and 7 included, and at most 12. */
  lemma {:induction false} CounterCounts(s: Arch, cmds: seq<Cmd>, m: nat, n: nat)
    requires s.Valid() && m < n <= |cmds|
    requires Restarts(cmds[m]) && forall i :: m < i < n ==> !Restarts(cmds[i])
    ensures Run(s, cmds, n).ctr == if n - m - 1 < 12 then n - m - 1 else 12
  {
    hide Exec;
    CounterStep(Run(s, cmds, n - 1), cmds[n - 1]);
    if m < n - 1 {
      CounterCounts(s, cmds, m, n - 1);
    }
  }

  /** The func-5 commands from m to n-1. */
  function Writes(cmds: seq<Cmd>, m: nat, n: nat): nat
    requires m <= n <= |cmds|
  {
    if m == n then 0 else Writes(cmds, m, n - 1) + if cmds[n - 1].func == 5 then 1 else 0
  }

  /** What a command does to the scratchpad and its write counter. */
  lemma ScratchpadStep(s: Arch, c: Cmd)
    requires s.Valid()
    ensures Exec(s, c).memCtr == if c.func == 4 then 0 else if c.func == 5 then (s.memCtr + 2) % 0x100 else s.memCtr
    ensures forall a :: 0 <= a < 64 ==>
              Exec(s, c).tile[a] == if c.func == 5 && a == s.memCtr + 1 then c.in1
                                    else if c.func == 5 && a == s.memCtr then c.in0 else s.tile[a]
  {
    hide Advance, Clear, Addrs, TapId;
  }

  /** The write counter: twice the writes since the last func 4, modulo 256. */
  lemma {:induction false} WriteCounterCounts(s: Arch, cmds: seq<Cmd>, m: nat, n: nat)
    requires s.Valid() && m < n <= |cmds|
    requires cmds[m].func == 4 && forall i :: m < i < n ==> cmds[i].func != 4
    ensures Run(s, cmds, n).memCtr == 2 * Writes(cmds, m + 1, n) % 0x100
  {
    hide Exec;
    ScratchpadStep(Run(s, cmds, n - 1), cmds[n - 1]);
    if m < n - 1 {
      WriteCounterCounts(s, cmds, m, n - 1);
      if cmds[n - 1].func == 5 {
        EvenStep(Writes(cmds, m + 1, n - 1));
      }
    }
  }

  lemma EvenStep(k: nat)
    ensures (2 * k % 0x100 + 2) % 0x100 == 2 * (k + 1) % 0x100
  {
  }

  lemma {:induction false} MoreWrites(cmds: seq<Cmd>, m: nat, t: nat, n: nat)
    requires m <= t <= n <= |cmds|
    ensures Writes(cmds, m, t) <= Writes(cmds, m, n)
    ensures t < n && cmds[t].func == 5 ==> Writes(cmds, m, t) < Writes(cmds, m, n)
  {
    if t < n {
      MoreWrites(cmds, m, t, n - 1);
    }
  }

  /** The k-th write after a rewind fills words 2k and 2k+1, and they keep its operands until the counter wraps. */
  lemma {:induction false} WritesLand(s: Arch, cmds: seq<Cmd>, m: nat, t: nat, n: nat)
    requires s.Valid() && m < t < n <= |cmds|
    requires cmds[m].func == 4 && forall i :: m < i < n ==> cmds[i].func != 4
    requires cmds[t].func == 5 && Writes(cmds, m + 1, t) < 32 && Writes(cmds, m + 1, n) <= 128
    ensures var k := Writes(cmds, m + 1, t);
            Run(s, cmds, n).tile[2 * k] == cmds[t].in0 && Run(s, cmds, n).tile[2 * k + 1] == cmds[t].in1
  {
    hide Exec, Writes;
    var before := Run(s, cmds, n - 1);
    ScratchpadStep(before, cmds[n - 1]);
    WriteCounterCounts(s, cmds, m, n - 1);
    if t < n - 1 {
      MoreWrites(cmds, m + 1, n - 1, n);
      WritesLand(s, cmds, m, t, n - 1);
      MoreWrites(cmds, m + 1, t, n - 1);
    }
  }

  /** Words no write has reached since the rewind are as they were. */
  lemma {:induction false} UnwrittenStays(s: Arch, cmds: seq<Cmd>, m: nat, n: nat, a: nat)
    requires s.Valid() && m < n <= |cmds| && a < 64
    requires cmds[m].func == 4 && forall i :: m < i < n ==> cmds[i].func != 4
    requires 2 * Writes(cmds, m + 1, n) <= a
    ensures Run(s, cmds, n).tile[a] == Run(s, cmds, m).tile[a]
  {
    hide Exec;
    ScratchpadStep(Run(s, cmds, n - 1), cmds[n - 1]);
    if m < n - 1 {
      UnwrittenStays(s, cmds, m, n - 1, a);
      WriteCounterCounts(s, cmds, m, n - 1);
    }
  }

  /**
   After every command: the broadcast weight is its operand if it was func 1 and zero otherwise, and unit u
   reads the word of its tap, row u/4 and column u%4 of a tile six words wide.
   */
  lemma LastCommand(s: Arch, cmds: seq<Cmd>, n: nat, u: nat)
    requires s.Valid() && 0 < n <= |cmds| && u < 16
    ensures var t, c, k := Run(s, cmds, n), cmds[n - 1], Run(s, cmds, n - 1).ctr;
            && t.tileW == (if c.func == 1 then c.in0 else 0)
            && t.addr[u] == 6 * (u / 4) + u % 4
                            + if c.func != 1 || k >= 12 then 0 else if k >= 9 then 36 else 6 * (k / 3) + k % 3
  {
    hide Exec, Addrs;
    var before := Run(s, cmds, n - 1);
    OperandsStep(before, cmds[n - 1]);
    TapWord(before.ctr);
  }

  lemma OperandsStep(s: Arch, c: Cmd)
    requires s.Valid()
    ensures Exec(s, c).tileW == if c.func == 1 then c.in0 else 0
    ensures Exec(s, c).addr == Addrs(if c.func == 1 && s.ctr < 12 then TapId(s.ctr) else 0)
  {
    hide Advance, Clear, Store, Addrs, TapId;
  }

  lemma TapWord(k: nat)
    ensures k < 12 ==> TapId(k) == if k >= 9 then 36 else 6 * (k / 3) + k % 3
    ensures forall id: nat, u: nat :: u < UNITS ==> Addrs(id)[u] == id + 6 * (u / 4) + u % 4
  {
  }

  /** The units change only under func 3 and under func 1 while the counter is below 12. */
  lemma UnitsStay(s: Arch, c: Cmd)
    requires s.Valid() && c.func != 3 && (c.func != 1 || s.ctr >= 12)
    ensures Exec(s, c).pe == s.pe
  {
    hide Advance, Clear, Store, Addrs, TapId;
  }

  /** The byte of lane k of a word. */
  predicate IsBytes(l: Lanes, b0: int, b1: int, b2: int, b3: int) {
    l.l0 == b0 && l.l1 == b1 && l.l2 == b2 && l.l3 == b3
  }

  /** Four products of unsigned and signed bytes. */
  function Products(a: Lanes, w: Lanes): int {
    a.l0 * Signed8(w.l0) + a.l1 * Signed8(w.l1) + a.l2 * Signed8(w.l2) + a.l3 * Signed8(w.l3)
  }

  /**
   A func-1 command below 12, unit by unit and byte by byte: the old product into accumulator in1 % 8, the
   four products of the old operands into the product register, the new operands from scratchpad and broadcast.
   */
  lemma UnitStep(s: Arch, c: Cmd, u: nat)
    requires s.Valid() && c.func == 1 && s.ctr < 12 && u < 16
    ensures var m, t := s.pe[u], Exec(s, c).pe[u];
            && (t.acc[c.in1 % 8] - m.acc[c.in1 % 8] - m.prod) % 0x1_0000_0000 == 0
            && (forall i :: 0 <= i < 8 && i != c.in1 % 8 ==> t.acc[i] == m.acc[i])
            && (t.prod - Products(m.im, m.w)) % 0x1_0000_0000 == 0
    ensures var a: int := s.tile[s.addr[u]];
            IsBytes(Exec(s, c).pe[u].im, (a % 0x100 + 128) % 0x100, (a / 0x100 % 0x100 + 128) % 0x100,
                    (a / 0x1_0000 % 0x100 + 128) % 0x100, (a / 0x100_0000 + 128) % 0x100)
    ensures var w: int := s.tileW;
            IsBytes(Exec(s, c).pe[u].w, w % 0x100, w / 0x100 % 0x100, w / 0x1_0000 % 0x100, w / 0x100_0000)
  {
    var m := s.pe[u];
    var a, w := s.tile[s.addr[u]], s.tileW;
    StepIsAdvance(s, c, u);
    hide Exec;
    LaneBytes(a);
    LaneBytes(w);
    WrapDifference(m.acc[c.in1 % 8] + m.prod);
    WrapDifference(Dot(m.im, m.w));
    assert Dot(m.im, m.w) == Products(m.im, m.w);
    hide LanesOf, Signed8, Wrap, Dot, Products;
  }

  lemma StepIsAdvance(s: Arch, c: Cmd, u: nat)
    requires s.Valid() && c.func == 1 && s.ctr < 12 && u < UNITS
    ensures Exec(s, c).pe[u] == Advance(s.pe[u], c.in1 % 8, s.tileW, s.tile[s.addr[u]])
  {
    hide Advance, Clear, Store, Addrs, TapId;
  }

  lemma WrapDifference(x: int)
    ensures (Wrap(x) - x) % 0x1_0000_0000 == 0
  {
  }

  /**
   The reset pin clears scratchpad, write counter, compute counter and response whatever else is on the
   bus; it clears the units, as func 3 would, only while cmd_valid is high.
   */
  lemma ResetClears(s: Regs, p: Pins)
    requires s.Valid() && p.reset
    ensures var t := Tick(s, p);
            && !t.rspValid && t.output == 0 && t.arch.memCtr == 0 && t.arch.ctr == 0
            && (forall a :: 0 <= a < 64 ==> t.arch.tile[a] == 0)
            && (forall u :: 0 <= u < 16 ==>
                  t.arch.pe[u] == if p.cmdValid then
                    Pe(Lanes(0, 0, 0, 0), Lanes(0, 0, 0, 0), s.arch.pe[u].prod, [0, 0, 0, 0, 0, 0, 0, 0])
                  else s.arch.pe[u])
            && (!p.cmdValid ==> t.arch.tileW == s.arch.tileW && t.arch.addr == s.arch.addr)
  {
    hide Exec;
  }
}
