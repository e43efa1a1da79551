/** Machine words and their bytes, as the C driver and the Verilog see them. */
module Words {

  datatype Option<T> = None | Some(value: T)

  type Byte = x: int | 0 <= x < 0x100
  type Int8 = x: int | -0x80 <= x < 0x80
  type Word = x: int | 0 <= x < 0x1_0000_0000
  newtype Int32 = x: int | -0x8000_0000 <= x < 0x8000_0000

  /** Truncation to a 32-bit register. */
  function Wrap(x: int): Word {
    x % 0x1_0000_0000
  }

  /** A 32-bit register read as two's complement. */
  function Signed32(w: Word): Int32 {
    if w < 0x8000_0000 then w as Int32 else (w - 0x1_0000_0000) as Int32
  }

  /** int32_t addition as the processor does it. */
  function Add32(a: Int32, b: Int32): Int32 {
    Signed32(Wrap(a as int + b as int))
  }

  /** A byte read as two's complement (`$signed` of an 8-bit register). */
  function Signed8(b: Byte): Int8 {
    if b < 0x80 then b else b - 0x100
  }

  /** The bits of an int8_t (`uint8_t(x)`). */
  function Bits8(x: Int8): Byte {
    if x < 0 then x + 0x100 else x
  }

  /** `static_cast<int8_t>`: keep the low eight bits. */
  function ToInt8(x: int): Int8 {
    Signed8(x % 0x100)
  }

  /** The four bytes of a word, lane 0 in the low bits. */
  datatype Lanes = Lanes(l0: Byte, l1: Byte, l2: Byte, l3: Byte)

  const ZeroLanes := Lanes(0, 0, 0, 0)

  function LanesOf(w: Word): Lanes {
    var q1 := w / 0x100;
    var q2 := q1 / 0x100;
    Lanes(w % 0x100, q1 % 0x100, q2 % 0x100, q2 / 0x100)
  }

  /** The word with these bytes. */
  function FromLanes(l: Lanes): Word {
    l.l0 + 0x100 * l.l1 + 0x1_0000 * l.l2 + 0x100_0000 * l.l3
  }

  /** A 32-bit little-endian load of four consecutive int8_t. */
  function Load32(x0: Int8, x1: Int8, x2: Int8, x3: Int8): Word {
    FromLanes(Lanes(Bits8(x0), Bits8(x1), Bits8(x2), Bits8(x3)))
  }

  lemma LowByte(b: Byte, q: int)
    ensures (b + 0x100 * q) % 0x100 == b
    ensures (b + 0x100 * q) / 0x100 == q
  {
  }

  /** Bytes survive being packed into a word. */
  lemma LanesBack(l: Lanes)
    ensures LanesOf(FromLanes(l)) == l
  {
    var q2 := l.l2 + 0x100 * l.l3;
    var q1 := l.l1 + 0x100 * q2;
    LowByte(l.l0, q1);
    LowByte(l.l1, q2);
    LowByte(l.l2, l.l3);
    assert FromLanes(l) == l.l0 + 0x100 * q1;
  }

  /** The lanes are the bytes of the word, lane k being its k-th digit to the base 256. */
  lemma LaneBytes(w: Word)
    ensures var l := LanesOf(w);
            && l.l0 == w % 0x100 && l.l1 == w / 0x100 % 0x100
            && l.l2 == w / 0x1_0000 % 0x100 && l.l3 == w / 0x100_0000
  {
    assert w / 0x100 / 0x100 == w / 0x1_0000;
    assert w / 0x1_0000 / 0x100 == w / 0x100_0000;
  }

  /** Unpacking loses nothing. */
  lemma LanesForth(w: Word)
    ensures FromLanes(LanesOf(w)) == w
  {
    var q1 := w / 0x100;
    var q2 := q1 / 0x100;
    assert w == w % 0x100 + 0x100 * q1 && q1 == q1 % 0x100 + 0x100 * q2 && q2 == q2 % 0x100 + 0x100 * (q2 / 0x100);
  }

  lemma WrapAdd(x: int, y: int)
    ensures Wrap(Wrap(x) + y) == Wrap(x + y)
    ensures Wrap(x + Wrap(y)) == Wrap(x + y)
  {
    WrapShift(Wrap(x) + y, x / 0x1_0000_0000);
    WrapShift(x + Wrap(y), y / 0x1_0000_0000);
  }

  lemma WrapShift(x: int, q: int)
    ensures Wrap(x + 0x1_0000_0000 * q) == Wrap(x)
  {
  }

  /** Wrapped sums and stored bytes differ from the exact value by a multiple of 2^32 and 2^8. */
  lemma Truncations(a: Int32, b: Int32, v: int)
    ensures (Add32(a, b) as int - a as int - b as int) % 0x1_0000_0000 == 0
    ensures (ToInt8(v) - v) % 0x100 == 0
  {
  }

  /** Within the int32_t range, wrapping hardware addition is ordinary addition. */
  lemma WrapFits(x: int)
    ensures -0x8000_0000 <= x < 0x8000_0000 <==> Signed32(Wrap(x)) as int == x
  {
  }
}
