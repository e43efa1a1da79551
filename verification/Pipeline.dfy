/**
 What streams of commands do to the array: the weight block, its pipeline
 latency, the drained state, and the scratchpad load.
 */
module Pipeline {
  import opened Words
  import opened Sums
  import opened Mac
  import opened Cfu

  /** The state after the first n commands. */
  function Run(s: Arch, cmds: seq<Cmd>, n: nat): (t: Arch)
    requires s.Valid() && n <= |cmds|
    ensures t.Valid()
  {
    if n == 0 then s else Exec(Run(s, cmds, n - 1), cmds[n - 1])
  }

  lemma {:induction false} RunExtends(s: Arch, cmds: seq<Cmd>, more: seq<Cmd>, n: nat)
    requires s.Valid() && n <= |cmds|
    ensures Run(s, cmds + more, n) == Run(s, cmds, n)
  {
    if n > 0 {
      RunExtends(s, cmds, more, n - 1);
    }
  }

  /** func 4: back to the first tile word and the first tap. */
  const REWIND := Cmd(4, 0, 0)

  lemma RewindKeeps(s: Arch)
    requires s.Valid()
    ensures var t := Exec(s, REWIND);
            t.memCtr == 0 && t.ctr == 0 && t.tileW == 0 && t.pe == s.pe && t.tile == s.tile
  {
  }

  /** No product is on its way into unit u. */
  predicate Drained(m: Pe) {
    m.w == ZeroLanes && m.prod == 0
  }

  predicate AllDrained(s: Arch)
    requires |s.pe| == UNITS
  {
    forall u :: 0 <= u < UNITS ==> Drained(s.pe[u])
  }

  /** Tap k of unit u = 4r+c is scratchpad word 6*(r + k/3) + (c + k%3). */
  function Tap(u: nat, k: nat): nat {
    6 * (u / 4 + k / 3) + (u % 4 + k % 3)
  }

  lemma TapAddress(u: nat, k: nat)
    requires u < UNITS && k < 9
    ensures TapId(k) + Off(u) == Tap(u, k) < 36
  {
  }

  /** A run of func-1 commands on one accumulator. */
  ghost predicate IsStream(cmds: seq<Cmd>, sel: nat) {
    |cmds| <= 12 && forall k :: 0 <= k < |cmds| ==> cmds[k].func == 1 && cmds[k].in1 % 8 == sel
  }

  /**
   The operands entering unit u at step i of a stream. Steps 1 and 2 were
   already in flight when the stream began; step j+3 belongs to command j.
   */
  function StageIm(s: Arch, u: nat, i: int): Lanes
    requires s.Valid() && u < UNITS
  {
    if i <= 1 then s.pe[u].im
    else if i == 2 then Offset128(s.tile[s.addr[u]])
    else var a := TapId(i - 3) + Off(u); if a < DEPTH then Offset128(s.tile[a]) else ZeroLanes
  }

  function StageW(s: Arch, u: nat, cmds: seq<Cmd>, i: int): Lanes
    requires s.Valid() && u < UNITS
  {
    if i <= 1 then s.pe[u].w
    else if i == 2 then LanesOf(s.tileW)
    else if i - 3 < |cmds| then LanesOf(cmds[i - 3].in0) else ZeroLanes
  }

  /** The product that reaches the accumulator at step i. */
  function Term(s: Arch, u: nat, cmds: seq<Cmd>, i: int): int
    requires s.Valid() && u < UNITS
  {
    if i <= 0 then s.pe[u].prod else Dot(StageIm(s, u, i), StageW(s, u, cmds, i))
  }

  ghost function Terms(s: Arch, u: nat, cmds: seq<Cmd>): int -> int
    requires s.Valid() && u < UNITS
  {
    i => Term(s, u, cmds, i)
  }

  /** Outside the units a stream only moves the counter, the addresses and the broadcast weight. */
  lemma {:induction false} StreamControl(s: Arch, cmds: seq<Cmd>, sel: nat, n: nat)
    requires s.Valid() && IsStream(cmds, sel) && n <= |cmds| && s.ctr == 0
    ensures var t := Run(s, cmds, n);
            && t.tile == s.tile && t.memCtr == s.memCtr && t.ctr == n
            && t.tileW == (if n == 0 then s.tileW else cmds[n - 1].in0)
            && t.addr == (if n == 0 then s.addr else Addrs(TapId(n - 1)))
  {
    if n > 0 {
      StreamControl(s, cmds, sel, n - 1);
    }
  }

  /** Which operands unit u fetches at command n of the stream. */
  lemma StreamFetch(s: Arch, cmds: seq<Cmd>, sel: nat, u: nat, n: nat)
    requires s.Valid() && IsStream(cmds, sel) && u < UNITS && n < |cmds| && s.ctr == 0
    ensures var t := Run(s, cmds, n);
            Offset128(t.tile[t.addr[u]]) == StageIm(s, u, n + 2) && LanesOf(t.tileW) == StageW(s, u, cmds, n + 2)
  {
    StreamControl(s, cmds, sel, n);
  }

  /** One more func-1 command, seen by unit u. */
  lemma StreamStep(s: Arch, cmds: seq<Cmd>, sel: nat, u: nat, n: nat)
    requires s.Valid() && IsStream(cmds, sel) && sel < 8 && u < UNITS && n < |cmds| && s.ctr == 0
    ensures var m := Run(s, cmds, n).pe[u];
            Run(s, cmds, n + 1).pe[u]
            == Pe(StageIm(s, u, n + 2), StageW(s, u, cmds, n + 2), Wrap(Dot(m.im, m.w)),
                  m.acc[sel := Wrap(m.acc[sel] + m.prod)])
  {
    hide Dot, Offset128, LanesOf, Wrap, StageIm, StageW, TapId, Addrs;
    StreamControl(s, cmds, sel, n);
    StreamFetch(s, cmds, sel, u, n);
    var t := Run(s, cmds, n);
    assert Run(s, cmds, n + 1).pe[u] == Advance(t.pe[u], sel, t.tileW, t.tile[t.addr[u]]);
  }

  lemma Accumulate(acc: seq<Word>, sel: nat, total: int, term: int)
    requires sel < |acc|
    ensures var m := acc[sel := Wrap(acc[sel] + total)];
            m[sel := Wrap(m[sel] + Wrap(term))] == acc[sel := Wrap(acc[sel] + total + term)]
  {
    WrapAdd(acc[sel] + total, Wrap(term));
    WrapAdd(acc[sel] + total, term);
  }

  /**
   Unit contents after n commands of a stream that began in state s: the operands
   of step n+1, the product of step n, and the sum of steps 0 to n-1.
   */
  ghost predicate AtStep(m: Pe, s: Arch, u: nat, cmds: seq<Cmd>, sel: nat, n: nat)
    requires s.Valid() && sel < 8 && u < UNITS
  {
    && m.im == StageIm(s, u, n + 1) && m.w == StageW(s, u, cmds, n + 1)
    && m.prod == Wrap(Term(s, u, cmds, n))
    && m.acc == s.pe[u].acc[sel := Wrap(s.pe[u].acc[sel] + Sum(n, Terms(s, u, cmds)))]
  }

  lemma AtNextStep(m: Pe, s: Arch, u: nat, cmds: seq<Cmd>, sel: nat, n: nat)
    requires s.Valid() && sel < 8 && u < UNITS
    requires AtStep(m, s, u, cmds, sel, n)
    ensures AtStep(Pe(StageIm(s, u, n + 2), StageW(s, u, cmds, n + 2), Wrap(Dot(m.im, m.w)),
                      m.acc[sel := Wrap(m.acc[sel] + m.prod)]), s, u, cmds, sel, n + 1)
  {
    hide Dot, Offset128, LanesOf, Wrap, StageIm, StageW;
    Accumulate(s.pe[u].acc, sel, Sum(n, Terms(s, u, cmds)), Term(s, u, cmds, n));
    assert Dot(m.im, m.w) == Term(s, u, cmds, n + 1);
  }

  lemma AtStart(s: Arch, u: nat, cmds: seq<Cmd>, sel: nat)
    requires s.Valid() && sel < 8 && u < UNITS
    ensures AtStep(s.pe[u], s, u, cmds, sel, 0)
  {
    hide Dot, Terms;
    assert s.pe[u].acc[sel := s.pe[u].acc[sel]] == s.pe[u].acc;
  }

  /** Pipeline latency: a weight sent by command j reaches the accumulator with command j+3. */
  lemma {:induction false} StreamUnit(s: Arch, cmds: seq<Cmd>, sel: nat, u: nat, n: nat)
    requires s.Valid() && IsStream(cmds, sel) && sel < 8 && u < UNITS && n <= |cmds| && s.ctr == 0
    ensures AtStep(Run(s, cmds, n).pe[u], s, u, cmds, sel, n)
  {
    hide Dot, AtStep, Exec, StageIm, StageW, Wrap;
    if n == 0 {
      AtStart(s, u, cmds, sel);
    } else {
      StreamUnit(s, cmds, sel, u, n - 1);
      StreamStep(s, cmds, sel, u, n - 1);
      AtNextStep(Run(s, cmds, n - 1).pe[u], s, u, cmds, sel, n - 1);
    }
  }

  // ----- the weight block -----

  /** Nine weights and three zeros, as the driver sends them after a func-4 command. */
  function WeightBlock(ws: seq<Word>, sel: nat): (cmds: seq<Cmd>)
    requires |ws| == 9 && sel < 8
    ensures |cmds| == 12
  {
    seq(12, k requires 0 <= k < 12 => Cmd(1, if k < 9 then ws[k] else 0, sel))
  }

  /** What nine taps contribute to unit u. */
  ghost function TileDot(tile: seq<Word>, ws: seq<Word>, u: nat): int
    requires |tile| >= 36 && |ws| == 9 && u < UNITS
  {
    Sum(9, TapDots(tile, ws, u))
  }

  function TapDot(tile: seq<Word>, ws: seq<Word>, u: nat, k: int): int
    requires |tile| >= 36 && |ws| == 9 && u < UNITS
  {
    if 0 <= k < 9 then Dot(Offset128(tile[Tap(u, k)]), LanesOf(ws[k])) else 0
  }

  ghost function TapDots(tile: seq<Word>, ws: seq<Word>, u: nat): int -> int
    requires |tile| >= 36 && |ws| == 9 && u < UNITS
  {
    k => TapDot(tile, ws, u, k)
  }

  /** What was already in flight when a block begins. */
  function InFlight(s: Arch, u: nat): int
    requires s.Valid() && u < UNITS
  {
    s.pe[u].prod + Dot(s.pe[u].im, s.pe[u].w) + Dot(Offset128(s.tile[s.addr[u]]), LanesOf(s.tileW))
  }

  lemma BlockTerms(s: Arch, ws: seq<Word>, sel: nat, u: nat)
    requires s.Valid() && |ws| == 9 && sel < 8 && u < UNITS
    ensures Sum(12, Terms(s, u, WeightBlock(ws, sel))) == InFlight(s, u) + TileDot(s.tile, ws, u)
  {
    hide Dot, Offset128, LanesOf, TapId, Off, Tap;
    var f := Terms(s, u, WeightBlock(ws, sel));
    SumSplit(3, 9, f);
    assert Sum(3, f) == f(0) + f(1) + f(2) by {
      assert Sum(2, f) == Sum(1, f) + f(1);
      assert Sum(1, f) == Sum(0, f) + f(0);
    }
    forall k | 0 <= k < 9
      ensures f(3 + k) == TapDot(s.tile, ws, u, k)
    {
      TapAddress(u, k);
    }
    SumCong(9, Shift(f, 3), TapDots(s.tile, ws, u));
  }

  /**
   The weight-block theorem, from any pipeline contents: accumulator sel of unit u
   gains the nine tap products and whatever was in flight, the other seven stay,
   and the block leaves its own pipeline drained.
   */
  lemma WeightBlockEffect(s: Arch, ws: seq<Word>, sel: nat)
    requires s.Valid() && s.ctr == 0 && |ws| == 9 && sel < 8
    ensures var t := Run(s, WeightBlock(ws, sel), 12);
            && AllDrained(t) && t.tileW == 0
            && t.tile == s.tile && t.memCtr == s.memCtr && t.ctr == 12
            && forall u :: 0 <= u < UNITS ==>
                 t.pe[u].acc == s.pe[u].acc[sel := Wrap(s.pe[u].acc[sel] + InFlight(s, u) + TileDot(s.tile, ws, u))]
  {
    var cmds := WeightBlock(ws, sel);
    StreamControl(s, cmds, sel, 12);
    forall u | 0 <= u < UNITS
      ensures var m := Run(s, cmds, 12).pe[u];
              && Drained(m)
              && m.acc == s.pe[u].acc[sel := Wrap(s.pe[u].acc[sel] + InFlight(s, u) + TileDot(s.tile, ws, u))]
    {
      WeightBlockUnit(s, ws, sel, u);
    }
  }

  lemma WeightBlockUnit(s: Arch, ws: seq<Word>, sel: nat, u: nat)
    requires s.Valid() && s.ctr == 0 && |ws| == 9 && sel < 8 && u < UNITS
    ensures var m := Run(s, WeightBlock(ws, sel), 12).pe[u];
            && Drained(m)
            && m.acc == s.pe[u].acc[sel := Wrap(s.pe[u].acc[sel] + InFlight(s, u) + TileDot(s.tile, ws, u))]
  {
    hide Dot, Exec, Run, InFlight, TileDot, Terms, StageIm;
    var cmds := WeightBlock(ws, sel);
    StreamUnit(s, cmds, sel, u, 12);
    BlockTerms(s, ws, sel, u);
    ZeroWeight(StageIm(s, u, 12));
  }

  lemma ZeroWeight(im: Lanes)
    ensures LanesOf(0) == ZeroLanes
    ensures Dot(im, ZeroLanes) == 0
  {
  }

  lemma DrainedInFlight(s: Arch, u: nat)
    requires s.Valid() && u < UNITS && Drained(s.pe[u]) && s.tileW == 0
    ensures InFlight(s, u) == 0
  {
    ZeroWeight(s.pe[u].im);
    ZeroWeight(Offset128(s.tile[s.addr[u]]));
  }

  lemma WrapSame(x: int, y: int)
    ensures Wrap(x + y) == Wrap(x) <==> Wrap(y) == 0
  {
  }

  /** A block computes exactly its tap products if and only if what is in flight is 0 modulo 2^32. */
  lemma WeightBlockExactIff(s: Arch, ws: seq<Word>, sel: nat, u: nat)
    requires s.Valid() && s.ctr == 0 && |ws| == 9 && sel < 8 && u < UNITS
    ensures Run(s, WeightBlock(ws, sel), 12).pe[u].acc[sel] == Wrap(s.pe[u].acc[sel] + TileDot(s.tile, ws, u))
       <==> Wrap(InFlight(s, u)) == 0
  {
    hide Dot, Exec, Run, InFlight, TileDot;
    WeightBlockUnit(s, ws, sel, u);
    WrapSame(s.pe[u].acc[sel] + TileDot(s.tile, ws, u), InFlight(s, u));
  }
}
