/** The banked RAM of soc/hps_lattice_nx.py: whatever the striping, it behaves like one flat array. */
module Lram {
  import opened Words
  import opened Arith

  /** Words in one block. */
  const BLOCK := 0x4000

  /** Banks in depth, 32-bit blocks in width, and whether the bank is chosen by the low address bits. */
  datatype Layout = Layout(depth: nat, width: nat, striped: bool)
  {
    /** The sizes the constructor accepts. */
    predicate Valid() {
      && (width == 1 || width == 2) && (width == 1 ==> 1 <= depth <= 5) && (width == 2 ==> 1 <= depth <= 2)
      && (striped ==> Span() == depth)
    }

    /** 2^sel_bits, with sel_bits the bit length of depth-1. */
    function Span(): (s: nat)
      ensures s > 0
    {
      if depth <= 1 then 1 else if depth == 2 then 2 else if depth <= 4 then 4 else 8
    }

    /** The bank select bits of a bus address; a bank number >= depth selects nothing. */
    function Bank(adr: nat): nat {
      if striped then adr % Span() else adr / BLOCK % Span()
    }

    /** The address bits that reach the block. */
    function Inner(adr: nat): nat {
      if striped then adr / Span() % BLOCK else adr % BLOCK
    }

    function Size(): nat {
      depth * BLOCK
    }

    /** Block of bank d, lane w. */
    function Index(d: nat, w: nat): nat {
      d * width + w
    }

    /** The flat word behind (bank, inner). */
    function Flat(bank: nat, inner: nat): nat {
      if striped then inner * depth + bank else bank * BLOCK + inner
    }
  }

  lemma FlatInside(l: Layout, bank: nat, inner: nat)
    requires l.Valid() && bank < l.depth && inner < BLOCK
    ensures l.Flat(bank, inner) < l.Size()
  {
    if l.striped {
      Bounded(inner, BLOCK, l.depth, bank);
    } else {
      Bounded(bank, l.depth, BLOCK, inner);
    }
  }

  /** Address decoding inverts the flat numbering. */
  lemma FlatDecodes(l: Layout, bank: nat, inner: nat)
    requires l.Valid() && bank < l.depth && inner < BLOCK
    ensures l.Bank(l.Flat(bank, inner)) == bank && l.Inner(l.Flat(bank, inner)) == inner
  {
    if l.striped {
      Digit(inner, l.depth, bank);
    } else {
      Digit(bank, BLOCK, inner);
    }
  }

  /** Every address inside the memory decodes to a bank, and to its own flat word. */
  lemma DecodeInside(l: Layout, adr: nat)
    requires l.Valid() && adr < l.Size()
    ensures l.Bank(adr) < l.depth && l.Inner(adr) < BLOCK && l.Flat(l.Bank(adr), l.Inner(adr)) == adr
  {
    if l.striped {
      var q := adr / l.depth;
      assert adr == l.depth * q + adr % l.depth;
      assert l.depth * q == q * l.depth;
      if q >= BLOCK {
        MulMono(BLOCK, q, l.depth);
      }
    } else {
      var q := adr / BLOCK;
      assert adr == BLOCK * q + adr % BLOCK;
    }
  }

  /** The power of two at or above the number of banks. */
  predicate IsSpan(depth: nat, span: nat) {
    (span == 1 || span == 2 || span == 4 || span == 8) && depth <= span && (span > 1 ==> span / 2 < depth)
  }

  /** The size in bytes is 64 KiB per bank and lane. */
  lemma SizeInBytes(l: Layout)
    ensures l.Size() * 4 * l.width == l.depth * l.width * 0x1_0000
  {
  }

  /**
   Every bus address: the address modulo the power of two is the flat word where that is inside the
   memory, and selects an absent bank where it is not.
   */
  lemma DecodeAny(l: Layout, adr: nat, span: nat)
    requires l.Valid() && IsSpan(l.depth, span)
    ensures l.Inner(adr) < 0x4000
    ensures l.Bank(adr) < l.depth <==> adr % (span * 0x4000) < l.Size()
    ensures l.Bank(adr) < l.depth ==> l.Flat(l.Bank(adr), l.Inner(adr)) == adr % (span * 0x4000)
  {
    assert l.Span() == span;
    if l.striped {
      StripedAny(adr, span);
    } else {
      BankedAny(adr, span, l.depth);
    }
  }

  lemma BankedAny(adr: nat, span: nat, depth: nat)
    requires 0 < span && depth <= span
    ensures adr / 0x4000 % span < depth <==> adr % (span * 0x4000) < depth * 0x4000
    ensures adr / 0x4000 % span * 0x4000 + adr % 0x4000 == adr % (span * 0x4000)
  {
    TwoDigits(adr, span, 0x4000);
  }

  lemma StripedAny(adr: nat, span: nat)
    requires 0 < span
    ensures adr / span % 0x4000 * span + adr % span == adr % (span * 0x4000)
  {
    TwoDigits(adr, 0x4000, span);
    assert 0x4000 * span == span * 0x4000;
  }

  /** Four bytes, each taken from the new word where its lane is enabled. */
  function Merge(was: Word, data: Word, sel: seq<bool>): Word
    requires |sel| == 4
  {
    var a, b := LanesOf(was), LanesOf(data);
    FromLanes(Lanes(if sel[0] then b.l0 else a.l0, if sel[1] then b.l1 else a.l1,
                    if sel[2] then b.l2 else a.l2, if sel[3] then b.l3 else a.l3))
  }

  /** An enabled byte reads back as written, a disabled one as it was. */
  lemma MergedBytes(was: Word, data: Word, sel: seq<bool>)
    requires |sel| == 4
    ensures var r, a, b := LanesOf(Merge(was, data, sel)), LanesOf(was), LanesOf(data);
            && r.l0 == (if sel[0] then b.l0 else a.l0) && r.l1 == (if sel[1] then b.l1 else a.l1)
            && r.l2 == (if sel[2] then b.l2 else a.l2) && r.l3 == (if sel[3] then b.l3 else a.l3)
  {
    hide LanesOf, FromLanes;
    var a, b := LanesOf(was), LanesOf(data);
    LanesBack(Lanes(if sel[0] then b.l0 else a.l0, if sel[1] then b.l1 else a.l1,
                    if sel[2] then b.l2 else a.l2, if sel[3] then b.l3 else a.l3));
  }

  /** A bus word: `width` 32-bit lanes. */
  function MergeAll(was: seq<Word>, data: seq<Word>, sel: seq<bool>): (r: seq<Word>)
    requires |was| == |data| && |sel| == 4 * |was|
    ensures |r| == |was|
  {
    seq(|was|, w requires 0 <= w < |was| => Merge(was[w], data[w], sel[4 * w..4 * w + 4]))
  }

  /**
   Byte for byte, by division and remainder: byte k of lane w of the merged bus word is the new one where
   byte enable 4 * w + k is set and the old one where it is not.
   */
  lemma MergedByte(was: seq<Word>, data: seq<Word>, sel: seq<bool>, w: nat)
    requires |was| == |data| && |sel| == 4 * |was| && w < |was|
    ensures var r := MergeAll(was, data, sel)[w];
            && r % 0x100 == (if sel[4 * w] then data[w] else was[w]) % 0x100
            && r / 0x100 % 0x100 == (if sel[4 * w + 1] then data[w] else was[w]) / 0x100 % 0x100
            && r / 0x1_0000 % 0x100 == (if sel[4 * w + 2] then data[w] else was[w]) / 0x1_0000 % 0x100
            && r / 0x100_0000 == (if sel[4 * w + 3] then data[w] else was[w]) / 0x100_0000
  {
    var r := MergeAll(was, data, sel)[w];
    MergedBytes(was[w], data[w], sel[4 * w..4 * w + 4]);
    LaneBytes(r);
    LaneBytes(was[w]);
    LaneBytes(data[w]);
    hide Merge, LanesOf;
  }

  /** Writing the same bus word twice is writing it once. */
  lemma MergeTwice(was: seq<Word>, data: seq<Word>, sel: seq<bool>)
    requires |was| == |data| && |sel| == 4 * |was|
    ensures MergeAll(MergeAll(was, data, sel), data, sel) == MergeAll(was, data, sel)
  {
    hide Merge;
    forall w | 0 <= w < |was|
      ensures MergeAll(MergeAll(was, data, sel), data, sel)[w] == MergeAll(was, data, sel)[w]
    {
      MergeOnce(was[w], data[w], sel[4 * w..4 * w + 4]);
    }
  }

  lemma MergeOnce(was: Word, data: Word, sel: seq<bool>)
    requires |sel| == 4
    ensures Merge(Merge(was, data, sel), data, sel) == Merge(was, data, sel)
  {
    hide LanesOf, FromLanes;
    MergedBytes(was, data, sel);
  }

  // ----- blocks and the flat memory, on values -----

  /** The contents of all blocks, bank by bank. */
  ghost predicate Grid(l: Layout, g: seq<seq<Word>>) {
    l.Valid() && |g| == l.depth * l.width && forall i :: 0 <= i < |g| ==> |g[i]| == BLOCK
  }

  lemma IndexInside(l: Layout, d: nat, w: nat)
    requires d < l.depth && w < l.width
    ensures l.Index(d, w) < l.depth * l.width
  {
    Bounded(d, l.depth, l.width, w);
  }

  lemma AllInside(l: Layout, d: nat)
    requires d < l.depth
    ensures forall w :: 0 <= w < l.width ==> l.Index(d, w) < l.depth * l.width
  {
    forall w | 0 <= w < l.width
      ensures l.Index(d, w) < l.depth * l.width
    {
      IndexInside(l, d, w);
    }
  }

  /** One bus word of bank d. */
  ghost function WordAt(l: Layout, g: seq<seq<Word>>, d: nat, inner: nat): (r: seq<Word>)
    requires Grid(l, g) && d < l.depth && inner < BLOCK
    ensures |r| == l.width
  {
    seq(l.width, w requires 0 <= w < l.width => IndexInside(l, d, w); g[l.Index(d, w)][inner])
  }

  /** The flat memory. */
  ghost function Flatten(l: Layout, g: seq<seq<Word>>): (m: seq<seq<Word>>)
    requires Grid(l, g)
    ensures |m| == l.Size() && forall a :: 0 <= a < |m| ==> |m[a]| == l.width
  {
    seq(l.Size(), a requires 0 <= a < l.Size() => DecodeInside(l, a); WordAt(l, g, l.Bank(a), l.Inner(a)))
  }

  /** Bus words of the layout's width. */
  predicate Shape(l: Layout, data: seq<Word>, sel: seq<bool>) {
    |data| == l.width && |sel| == 4 * l.width
  }

  /** Block i after lanes 0 to done-1 of the bank have stored. */
  ghost function LaneStored(l: Layout, block: seq<Word>, i: nat, bank: nat, done: nat, inner: nat, data: seq<Word>,
                            sel: seq<bool>): (r: seq<Word>)
    requires |block| == BLOCK && inner < BLOCK && done <= l.width && Shape(l, data, sel)
    ensures |r| == BLOCK
  {
    var base := l.Index(bank, 0);
    if base <= i < base + done then
      block[inner := Merge(block[inner], data[i - base], sel[4 * (i - base)..4 * (i - base) + 4])]
    else block
  }

  /** The enabled bytes of one word of one block. */
  ghost function Poke(g: seq<seq<Word>>, i: nat, inner: nat, data: Word, sel: seq<bool>): seq<seq<Word>>
    requires i < |g| && inner < |g[i]| && |sel| == 4
  {
    var block: seq<Word> := g[i][inner := Merge(g[i][inner], data, sel)];
    g[i := block]
  }

  /** All blocks after those lanes have stored. */
  ghost function Stored(l: Layout, g: seq<seq<Word>>, bank: nat, done: nat, inner: nat, data: seq<Word>,
                        sel: seq<bool>): (r: seq<seq<Word>>)
    requires Grid(l, g) && inner < BLOCK && done <= l.width && Shape(l, data, sel)
    ensures Grid(l, r)
  {
    seq(|g|, i requires 0 <= i < |g| => LaneStored(l, g[i], i, bank, done, inner, data, sel))
  }

  lemma NextLane(l: Layout, g: seq<seq<Word>>, bank: nat, w: nat, inner: nat, data: seq<Word>, sel: seq<bool>)
    requires Grid(l, g) && inner < BLOCK && w < l.width && bank < l.depth && Shape(l, data, sel)
    ensures var now, i := Stored(l, g, bank, w, inner, data, sel), l.Index(bank, w);
            && i < |g|
            && Stored(l, g, bank, w + 1, inner, data, sel) == Poke(now, i, inner, data[w], sel[4 * w..4 * w + 4])
  {
    hide Merge;
    IndexInside(l, bank, w);
  }

  lemma NoLane(l: Layout, g: seq<seq<Word>>, bank: nat, inner: nat, data: seq<Word>, sel: seq<bool>)
    requires Grid(l, g) && inner < BLOCK && Shape(l, data, sel)
    ensures Stored(l, g, bank, 0, inner, data, sel) == g
  {
  }

  /** A block lies in the selected bank's range exactly when its bank is the selected one. */
  lemma LaneOfBank(l: Layout, d: nat, w: nat, bank: nat)
    requires w < l.width
    ensures l.Index(bank, 0) <= l.Index(d, w) < l.Index(bank, 0) + l.width <==> d == bank
    ensures d == bank ==> l.Index(d, w) - l.Index(bank, 0) == w
  {
    if d < bank {
      MulMono(d + 1, bank, l.width);
      assert (d + 1) * l.width == d * l.width + l.width;
    } else if bank < d {
      MulMono(bank + 1, d, l.width);
      assert (bank + 1) * l.width == bank * l.width + l.width;
    }
  }

  lemma BankStored(l: Layout, g: seq<seq<Word>>, d: nat, p: nat, bank: nat, inner: nat, data: seq<Word>, sel: seq<bool>)
    requires Grid(l, g) && Shape(l, data, sel) && bank < l.depth && inner < BLOCK && d < l.depth && p < BLOCK
    ensures WordAt(l, Stored(l, g, bank, l.width, inner, data, sel), d, p)
         == if d == bank && p == inner then MergeAll(WordAt(l, g, d, p), data, sel) else WordAt(l, g, d, p)
  {
    hide Merge, l.Index;
    var was := WordAt(l, g, d, p);
    forall w | 0 <= w < l.width
      ensures WordAt(l, Stored(l, g, bank, l.width, inner, data, sel), d, p)[w]
           == (if d == bank && p == inner then MergeAll(was, data, sel) else was)[w]
    {
      IndexInside(l, d, w);
      LaneOfBank(l, d, w, bank);
    }
  }

  /** The flat memory with one word merged; an address of an absent bank changes nothing. */
  ghost function Written(l: Layout, m: seq<seq<Word>>, adr: nat, data: seq<Word>, sel: seq<bool>): (r: seq<seq<Word>>)
    requires l.Valid() && Shape(l, data, sel) && |m| == l.Size() && forall a :: 0 <= a < |m| ==> |m[a]| == l.width
    ensures |r| == |m| && forall a :: 0 <= a < |r| ==> |r[a]| == l.width
  {
    if l.Bank(adr) >= l.depth then m
    else
      InnerInside(l, adr);
      FlatInside(l, l.Bank(adr), l.Inner(adr));
      var flat := l.Flat(l.Bank(adr), l.Inner(adr));
      m[flat := MergeAll(m[flat], data, sel)]
  }

  /** What the lanes of the selected bank store is, in the flat memory, that one word. */
  lemma StoredIsWritten(l: Layout, g: seq<seq<Word>>, adr: nat, data: seq<Word>, sel: seq<bool>)
    requires Grid(l, g) && Shape(l, data, sel) && l.Bank(adr) < l.depth && l.Inner(adr) < BLOCK
    ensures Flatten(l, Stored(l, g, l.Bank(adr), l.width, l.Inner(adr), data, sel)) == Written(l, Flatten(l, g), adr, data, sel)
  {
    hide WordAt, Stored, MergeAll, l.Bank, l.Inner, l.Flat;
    var bank, inner := l.Bank(adr), l.Inner(adr);
    var after := Stored(l, g, bank, l.width, inner, data, sel);
    FlatInside(l, bank, inner);
    FlatDecodes(l, bank, inner);
    forall a | 0 <= a < l.Size()
      ensures Flatten(l, after)[a] == Written(l, Flatten(l, g), adr, data, sel)[a]
    {
      DecodeInside(l, a);
      BankStored(l, g, l.Bank(a), l.Inner(a), bank, inner, data, sel);
    }
  }

  /** Inside the memory the word written is the addressed one. */
  lemma WrittenInside(l: Layout, m: seq<seq<Word>>, adr: nat, data: seq<Word>, sel: seq<bool>)
    requires l.Valid() && Shape(l, data, sel) && |m| == l.Size() && forall a :: 0 <= a < |m| ==> |m[a]| == l.width
    requires adr < l.Size()
    ensures Written(l, m, adr, data, sel) == m[adr := MergeAll(m[adr], data, sel)]
  {
    hide MergeAll;
    DecodeInside(l, adr);
  }

  lemma AbsentBank(l: Layout, m: seq<seq<Word>>, adr: nat, data: seq<Word>, sel: seq<bool>)
    requires l.Valid() && Shape(l, data, sel) && |m| == l.Size() && forall a :: 0 <= a < |m| ==> |m[a]| == l.width
    requires l.Bank(adr) >= l.depth
    ensures Written(l, m, adr, data, sel) == m
  {
  }

  lemma WrittenTwice(l: Layout, m: seq<seq<Word>>, adr: nat, data: seq<Word>, sel: seq<bool>)
    requires l.Valid() && Shape(l, data, sel) && |m| == l.Size() && forall a :: 0 <= a < |m| ==> |m[a]| == l.width
    ensures var once := Written(l, m, adr, data, sel); Written(l, once, adr, data, sel) == once
  {
    hide MergeAll, l.Bank, l.Inner, l.Flat;
    if l.Bank(adr) < l.depth {
      InnerInside(l, adr);
      FlatInside(l, l.Bank(adr), l.Inner(adr));
      MergeTwice(m[l.Flat(l.Bank(adr), l.Inner(adr))], data, sel);
    }
  }

  // ----- the hardware -----

  /** The Wishbone wires of one cycle. */
  datatype Bus = Bus(cyc: bool, stb: bool, we: bool, adr: nat, data: seq<Word>, sel: seq<bool>)
  {
    predicate Selected() {
      cyc && stb
    }
  }

  class NXLRAM {
    const layout: Layout
    const blocks: seq<array<Word>>
    var outs: seq<Word>     // the output register of every block
    var ack: bool

    ghost predicate Valid()
      reads `outs
    {
      && layout.Valid() && |blocks| == layout.depth * layout.width
      && (forall i :: 0 <= i < |blocks| ==> blocks[i].Length == BLOCK)
      && (forall i, j :: 0 <= i < j < |blocks| ==> blocks[i] != blocks[j])
      && |outs| == |blocks|
    }

    /** What all blocks hold. */
    ghost function Snapshot(): (g: seq<seq<Word>>)
      requires Valid()
      reads `outs, blocks
      ensures Grid(layout, g)
    {
      seq(|blocks|, i requires 0 <= i < |blocks| reads blocks => blocks[i][..])
    }

    ghost function Contents(): (m: seq<seq<Word>>)
      requires Valid()
      reads `outs, blocks
      ensures |m| == layout.Size() && forall a :: 0 <= a < |m| ==> |m[a]| == layout.width
    {
      Flatten(layout, Snapshot())
    }

    /** Acknowledge resets to false; the blocks hold anything. */
    constructor (l: Layout)
      requires l.Valid()
      ensures Valid() && layout == l && fresh(blocks) && !ack
    {
      var bs: seq<array<Word>> := [];
      for i := 0 to l.depth * l.width
        invariant |bs| == i
        invariant forall k :: 0 <= k < i ==> fresh(bs[k]) && bs[k].Length == BLOCK
        invariant forall k, m :: 0 <= k < m < i ==> bs[k] != bs[m]
      {
        var b := new Word[BLOCK];
        bs := bs + [b];
      }
      layout, blocks, ack := l, bs, false;
      outs := seq(|bs|, _ => 0);
    }

    /** The write reaching one block: chip select, then the enabled bytes. */
    method WriteLane(i: nat, inner: nat, data: Word, sel: seq<bool>)
      requires Valid() && i < |blocks| && inner < BLOCK && |sel| == 4
      modifies blocks[i]
      ensures Snapshot() == Poke(old(Snapshot()), i, inner, data, sel)
    {
      hide Merge;
      ghost var before := Snapshot();
      var b := blocks[i];
      b[inner] := Merge(b[inner], data, sel);
      assert Snapshot() == Poke(before, i, inner, data, sel);
    }

    /** All lanes of the selected bank. */
    method WriteBank(bank: nat, inner: nat, data: seq<Word>, sel: seq<bool>)
      requires Valid() && Shape(layout, data, sel) && bank < layout.depth && inner < BLOCK
      modifies blocks
      ensures Snapshot() == Stored(layout, old(Snapshot()), bank, layout.width, inner, data, sel)
    {
      hide Stored, Merge, Grid, layout.Index;
      ghost var before := Snapshot();
      NoLane(layout, before, bank, inner, data, sel);
      for w := 0 to layout.width
        invariant Snapshot() == Stored(layout, before, bank, w, inner, data, sel)
      {
        NextLane(layout, before, bank, w, inner, data, sel);
        WriteLane(layout.Index(bank, w), inner, data[w], sel[4 * w..4 * w + 4]);
      }
    }

    /**
     The write side of one edge: the loops over d and w give every block its chip select and write
     enable; only the lanes of the selected bank store.
     */
    method Write(adr: nat, data: seq<Word>, sel: seq<bool>)
      requires Valid() && Shape(layout, data, sel)
      modifies blocks
      ensures Contents() == Written(layout, old(Contents()), adr, data, sel)
    {
      hide Stored, Written, Flatten, layout.Bank, layout.Inner;
      var bank, inner := layout.Bank(adr), layout.Inner(adr);
      InnerInside(layout, adr);
      if bank < layout.depth {
        StoredIsWritten(layout, Snapshot(), adr, data, sel);
        WriteBank(bank, inner, data, sel);
      } else {
        AbsentBank(layout, Contents(), adr, data, sel);
      }
    }

    /** The read side of one edge: the blocks of the selected bank latch their word; any other output is unspecified. */
    method Latch(bank: nat, inner: nat, reading: bool)
      requires Valid() && inner < BLOCK
      modifies `outs
      ensures Valid() && Snapshot() == old(Snapshot())
      ensures reading && bank < layout.depth ==> Shown(bank) == WordAt(layout, Snapshot(), bank, inner)
    {
      var latched: seq<Word> := [];
      for i := 0 to |blocks|
        invariant |latched| == i
        invariant reading ==> forall k :: 0 <= k < i && layout.Index(bank, 0) <= k < layout.Index(bank, 0) + layout.width ==>
                    latched[k] == blocks[k][inner]
      {
        var out: Word := *;
        if reading && layout.Index(bank, 0) <= i < layout.Index(bank, 0) + layout.width {
          out := blocks[i][inner];
        }
        latched := latched + [out];
      }
      outs := latched;
      if reading && bank < layout.depth {
        forall w | 0 <= w < layout.width
          ensures Shown(bank)[w] == WordAt(layout, Snapshot(), bank, inner)[w]
        {
          IndexInside(layout, bank, w);
        }
      }
    }

    /** The output registers of one bank. */
    ghost function Shown(bank: nat): (r: seq<Word>)
      requires Valid() && bank < layout.depth
      reads `outs
      ensures |r| == layout.width
    {
      AllInside(layout, bank);
      var now := outs;
      seq(layout.width, w requires 0 <= w < layout.width && layout.Index(bank, w) < |now| =>
        now[layout.Index(bank, w)])
    }

    /** The data lines: the selected bank drives them, an absent one leaves them at zero. */
    method Drive(adr: nat) returns (data: seq<Word>)
      requires Valid()
      ensures |data| == layout.width
      ensures layout.Bank(adr) < layout.depth ==> data == Shown(layout.Bank(adr))
      ensures layout.Bank(adr) >= layout.depth ==> forall w :: 0 <= w < layout.width ==> data[w] == 0
    {
      var bank := layout.Bank(adr);
      data := seq(layout.width, _ => 0);
      for d := 0 to layout.depth
        invariant |data| == layout.width
        invariant d <= bank ==> forall w :: 0 <= w < layout.width ==> data[w] == 0
        invariant bank < d ==> data == Shown(bank)
      {
        if bank == d {
          for w := 0 to layout.width
            invariant |data| == layout.width
            invariant forall v :: 0 <= v < w ==> data[v] == Shown(bank)[v]
          {
            IndexInside(layout, d, w);
            data := data[w := outs[layout.Index(d, w)]];
          }
        }
      }
    }

    /** One rising edge: data lines and acknowledge as they are before it, memory and registers after it. */
    method Clock(b: Bus) returns (acked: bool, data: seq<Word>)
      requires Valid() && Shape(layout, b.data, b.sel)
      modifies this`outs, this`ack, blocks
      ensures Valid() && acked == old(ack) && ack == (b.Selected() && !old(ack))
      ensures |data| == layout.width
      ensures layout.Bank(b.adr) < layout.depth ==> data == old(Shown(layout.Bank(b.adr)))
      ensures layout.Bank(b.adr) >= layout.depth ==> forall w :: 0 <= w < layout.width ==> data[w] == 0
      ensures Contents() == if b.we && b.Selected() then Written(layout, old(Contents()), b.adr, b.data, b.sel) else old(Contents())
      ensures layout.Bank(b.adr) < layout.depth && layout.Inner(b.adr) < BLOCK && !(b.we && b.Selected()) ==>
                Shown(layout.Bank(b.adr)) == old(WordAt(layout, Snapshot(), layout.Bank(b.adr), layout.Inner(b.adr)))
    {
      hide Written, WordAt, layout.Bank, layout.Inner, Flatten;
      acked := ack;
      data := Drive(b.adr);
      InnerInside(layout, b.adr);
      Latch(layout.Bank(b.adr), layout.Inner(b.adr), !(b.we && b.Selected()));
      ack := b.Selected() && !ack;
      if b.we && b.Selected() {
        Write(b.adr, b.data, b.sel);
      }
    }

    /**
     A bus transfer: the master holds its wires until it sees the acknowledge, which is in the second
     cycle. The word is written on both edges; that is the same as once. A read is one edge old by then.
     */
    method Transfer(we: bool, adr: nat, data: seq<Word>, sel: seq<bool>) returns (read: seq<Word>)
      requires Valid() && !ack && Shape(layout, data, sel)
      modifies this`outs, this`ack, blocks
      ensures Valid() && !ack && |read| == layout.width
      ensures Contents() == if we then Written(layout, old(Contents()), adr, data, sel) else old(Contents())
      ensures we && adr < layout.Size() ==> Contents() == old(Contents())[adr := MergeAll(old(Contents())[adr], data, sel)]
      ensures !we && adr < layout.Size() ==> read == old(Contents())[adr]
      ensures layout.Bank(adr) >= layout.depth ==>
                Contents() == old(Contents()) && forall w :: 0 <= w < layout.width ==> read[w] == 0
    {
      hide Written, WordAt, MergeAll, layout.Bank, layout.Inner;
      var bus := Bus(true, true, we, adr, data, sel);
      ghost var before := Contents();
      InnerInside(layout, adr);
      if adr < layout.Size() {
        DecodeInside(layout, adr);
        WrittenInside(layout, before, adr, data, sel);
      }
      if layout.Bank(adr) >= layout.depth {
        AbsentBank(layout, before, adr, data, sel);
      }
      WrittenTwice(layout, before, adr, data, sel);
      var acked, _ := Clock(bus);
      assert !acked && ack;
      acked, read := Clock(bus);
      assert acked;
    }

    /** Port B of bank i at address p, in striped mode: flat word depth*p + i. */
    method ReadPortB(i: nat, p: nat) returns (data: seq<Word>)
      requires Valid() && layout.striped && i < layout.depth && p < BLOCK
      ensures layout.depth * p + i < layout.Size() && data == Contents()[layout.depth * p + i]
    {
      data := [];
      for w := 0 to layout.width
        invariant |data| == w
        invariant forall v :: 0 <= v < w ==> data[v] == WordAt(layout, Snapshot(), i, p)[v]
      {
        IndexInside(layout, i, w);
        data := data + [blocks[layout.Index(i, w)][p]];
      }
      FlatInside(layout, i, p);
      FlatDecodes(layout, i, p);
      assert layout.Flat(i, p) == layout.depth * p + i;
    }
  }

  lemma InnerInside(l: Layout, adr: nat)
    requires l.Valid()
    ensures l.Inner(adr) < BLOCK
  {
  }
}
