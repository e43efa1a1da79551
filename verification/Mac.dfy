/**
 The processing element of proj/accel/cfu.v: a two-stage four-lane
 multiplier feeding one of eight accumulators.
 */
module Mac {
  import opened Words

  /** The registers of one processing element. */
  datatype Pe = Pe(im: Lanes, w: Lanes, prod: Word, acc: seq<Word>)
  {
    ghost predicate Valid() {
      |acc| == 8
    }
  }

  const Cleared: seq<Word> := [0, 0, 0, 0, 0, 0, 0, 0]

  /** Activations leave the scratchpad with 128 added, in eight bits. */
  function Offset128(im: Word): Lanes {
    var l := LanesOf(im);
    Lanes((l.l0 + 128) % 0x100, (l.l1 + 128) % 0x100, (l.l2 + 128) % 0x100, (l.l3 + 128) % 0x100)
  }

  /** Four products of an unsigned activation and a signed weight. */
  function Dot(im: Lanes, w: Lanes): int {
    im.l0 * Signed8(w.l0) + im.l1 * Signed8(w.l1) + im.l2 * Signed8(w.l2) + im.l3 * Signed8(w.l3)
  }

  /** func 3: everything but the product register is cleared. */
  function Clear(m: Pe): Pe {
    Pe(ZeroLanes, ZeroLanes, m.prod, Cleared)
  }

  /** One step of the pipeline: operands in, product along, previous product into accumulator `sel`. */
  function Advance(m: Pe, sel: nat, w: Word, im: Word): Pe
    requires m.Valid() && sel < 8
  {
    Pe(Offset128(im), LanesOf(w), Wrap(Dot(m.im, m.w)), m.acc[sel := Wrap(m.acc[sel] + m.prod)])
  }

  /** The `mac` module: its registers and its clocked block. */
  class Unit {
    var im: Lanes        // im0..im3
    var w: Lanes         // w0..w3
    var acc: seq<Word>   // acc1..acc8
    var prod: Word

    ghost predicate Valid()
      reads this
    {
      |acc| == 8
    }

    function Value(): Pe
      reads this
    {
      Pe(im, w, prod, acc)
    }

    /** No register of a unit has an initial value: it powers up holding anything. */
    constructor (power: Pe)
      requires power.Valid()
      ensures Valid() && Value() == power
    {
      im, w, prod, acc := power.im, power.w, power.prod, power.acc;
    }

    /** One rising edge. The non-blocking assignments all read the registers before it. */
    method Clock(reset: bool, start: bool, sel: nat, weight: Word, activation: Word)
      requires Valid() && sel < 8
      modifies this
      ensures Valid()
      ensures Value() == if reset then Clear(old(Value()))
                         else if start then Advance(old(Value()), sel, weight, activation)
                         else old(Value())
    {
      if reset {
        im, w := ZeroLanes, ZeroLanes;
        acc := Cleared;
      } else if start {
        im, w, prod, acc :=
          Offset128(activation),
          LanesOf(weight),
          Wrap(im.l0 * Signed8(w.l0) + im.l1 * Signed8(w.l1) + im.l2 * Signed8(w.l2) + im.l3 * Signed8(w.l3)),
          acc[sel := Wrap(acc[sel] + prod)];
      }
    }
  }
}
