/**
 The drained pipeline as an invariant of whole runs, the address ranges, and what
 a stale product register does: no clear ever assigns `prod`.
 */
module Drain {
  import opened Words
  import opened Mac
  import opened Cfu
  import opened Pipeline

  /** The driver's vocabulary: single commands other than func 1, and whole weight blocks behind a func 4. */
  datatype Phase = Plain(c: Cmd) | Weights(ws: seq<Word>, sel: nat)
  {
    predicate Valid() {
      match this
      case Plain(c) => c.func != 1
      case Weights(ws, sel) => |ws| == 9 && sel < 8
    }
  }

  ghost function RunPhase(s: Arch, p: Phase): (t: Arch)
    requires s.Valid() && p.Valid()
    ensures t.Valid()
  {
    match p
    case Plain(c) => Exec(s, c)
    case Weights(ws, sel) => Run(Exec(s, REWIND), WeightBlock(ws, sel), 12)
  }

  ghost function RunPhases(s: Arch, ps: seq<Phase>, n: nat): (t: Arch)
    requires s.Valid() && n <= |ps| && forall i :: 0 <= i < |ps| ==> ps[i].Valid()
    ensures t.Valid()
  {
    if n == 0 then s else RunPhase(RunPhases(s, ps, n - 1), ps[n - 1])
  }

  /** What accumulator `sel` of unit u owes to one phase. */
  ghost function Owed(tile: seq<Word>, p: Phase, u: nat, sel: nat): int
    requires |tile| == DEPTH && p.Valid() && u < UNITS
  {
    if p.Weights? && p.sel == sel then TileDot(tile, p.ws, u) else 0
  }

  /** One phase keeps the pipeline drained and adds its own taps to its own accumulator, nothing else. */
  lemma PhaseKeepsDrained(s: Arch, p: Phase)
    requires s.Valid() && p.Valid() && AllDrained(s)
    ensures AllDrained(RunPhase(s, p))
    ensures forall u, sel :: 0 <= u < UNITS && 0 <= sel < 8 && !(p.Plain? && p.c.func == 3) ==>
              RunPhase(s, p).pe[u].acc[sel] == Wrap(s.pe[u].acc[sel] + Owed(s.tile, p, u, sel))
  {
    hide TileDot, InFlight, Run;
    match p
    case Plain(c) =>
      PlainKeepsDrained(s, c);
    case Weights(ws, sel) =>
      hide Exec;
      var t := Exec(s, REWIND);
      RewindKeeps(s);
      WeightBlockEffect(t, ws, sel);
      forall u | 0 <= u < UNITS
        ensures InFlight(t, u) == 0
      {
        DrainedInFlight(t, u);
      }
  }

  lemma PlainKeepsDrained(s: Arch, c: Cmd)
    requires s.Valid() && c.func != 1 && AllDrained(s)
    ensures AllDrained(Exec(s, c))
    ensures c.func != 3 ==> Exec(s, c).pe == s.pe
  {
    if c.func == 3 {
      forall u | 0 <= u < UNITS
        ensures Drained(Exec(s, c).pe[u])
      {
      }
    }
  }

  /** Drained units, and no weight waiting on the broadcast register. */
  predicate Quiet(s: Arch)
    requires |s.pe| == UNITS
  {
    AllDrained(s) && s.tileW == 0
  }

  /** Nothing at all is in flight in a quiet array: no product, no operand pair, no weight about to be latched. */
  lemma QuietInFlight(s: Arch)
    requires s.Valid() && Quiet(s)
    ensures forall u :: 0 <= u < UNITS ==> InFlight(s, u) == 0
  {
    hide InFlight;
    forall u | 0 <= u < UNITS
      ensures InFlight(s, u) == 0
    {
      DrainedInFlight(s, u);
    }
  }

  lemma PhaseKeepsQuiet(s: Arch, p: Phase)
    requires s.Valid() && p.Valid() && Quiet(s)
    ensures Quiet(RunPhase(s, p))
  {
    hide TileDot, InFlight, Run, Exec;
    PhaseKeepsDrained(s, p);
    match p
    case Plain(c) => PlainClearsBroadcast(s, c);
    case Weights(ws, sel) =>
      RewindKeeps(s);
      WeightBlockEffect(Exec(s, REWIND), ws, sel);
  }

  lemma PlainClearsBroadcast(s: Arch, c: Cmd)
    requires s.Valid() && c.func != 1
    ensures Exec(s, c).tileW == 0
  {
  }

  /**
   Whole runs: at every phase boundary the products, the weight registers and the broadcast weight
   are all zero, so nothing in flight reaches a later accumulator.
   */
  lemma {:induction false} DrainedThroughout(s: Arch, ps: seq<Phase>, n: nat)
    requires s.Valid() && Quiet(s) && n <= |ps| && forall i :: 0 <= i < |ps| ==> ps[i].Valid()
    ensures var t := RunPhases(s, ps, n);
            && AllDrained(t) && t.tileW == 0
            && forall u :: 0 <= u < UNITS ==> InFlight(t, u) == 0
  {
    hide AllDrained, RunPhase, InFlight;
    if n > 0 {
      DrainedThroughout(s, ps, n - 1);
      PhaseKeepsQuiet(RunPhases(s, ps, n - 1), ps[n - 1]);
    }
    QuietInFlight(RunPhases(s, ps, n));
  }

  /** The driver's own beginning: once the product registers are clear, func 3 makes the array quiet. */
  lemma ClearMakesQuiet(s: Arch, c: Cmd)
    requires s.Valid() && c.func == 3 && forall u :: 0 <= u < UNITS ==> s.pe[u].prod == 0
    ensures Quiet(Exec(s, c))
  {
    hide Exec;
    ClearedUnits(s, c);
    PlainClearsBroadcast(s, c);
  }

  /** Every command leaves all sixteen read addresses below 58, whatever the counter held. */
  lemma ReadAddresses(s: Arch, c: Cmd)
    requires s.Valid()
    ensures forall u :: 0 <= u < UNITS ==> Exec(s, c).addr[u] < 58
  {
    hide Advance, Clear;
    forall u | 0 <= u < UNITS
      ensures Exec(s, c).addr[u] < 58
    {
      assert Off(u) <= 21;
      assert TapId(s.ctr) <= 36;
    }
  }

  lemma ClearedUnits(s: Arch, c: Cmd)
    requires s.Valid() && c.func == 3
    ensures forall u :: 0 <= u < UNITS ==> Exec(s, c).pe[u] == Clear(s.pe[u])
  {
  }

  /**
   After power-on: once func 3 has cleared the units and any scratchpad writes have left them alone,
   the first weight block is right in unit u if and only if u's product register held zero.
   */
  lemma StaleProductIff(s: Arch, c: Cmd, t: Arch, ws: seq<Word>, sel: nat, u: nat)
    requires s.Valid() && c.func == 3 && t.Valid() && t.pe == Exec(s, c).pe
    requires |ws| == 9 && sel < 8 && u < UNITS
    ensures Run(Exec(t, REWIND), WeightBlock(ws, sel), 12).pe[u].acc[sel] == Wrap(TileDot(t.tile, ws, u))
       <==> s.pe[u].prod == 0
  {
    hide TileDot, Run, Exec;
    ClearedUnits(s, c);
    RewindKeeps(t);
    var b := Exec(t, REWIND);
    WeightBlockExactIff(b, ws, sel, u);
    ClearedInFlight(b, u, s.pe[u].prod);
  }

  lemma ClearedInFlight(b: Arch, u: nat, prod: Word)
    requires b.Valid() && u < UNITS && b.tileW == 0 && b.pe[u].w == ZeroLanes && b.pe[u].prod == prod
    ensures Wrap(InFlight(b, u)) == 0 <==> prod == 0
  {
    hide Offset128;
    ZeroWeight(b.pe[u].im);
    ZeroWeight(Offset128(b.tile[b.addr[u]]));
    hide Dot;
  }
}
