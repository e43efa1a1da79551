/** The untorn 64-bit cycle read of common/src/perf.h. */
module CycleCounter {

  const LIMIT: int := 0x1_0000_0000_0000_0000

  /** The counter at each instant: 64 bits, never running backwards, not wrapping while it is read. */
  ghost predicate Counter(c: nat -> nat) {
    && (forall t: nat :: c(t) < LIMIT)
    && (forall s: nat, t: nat :: s <= t ==> c(s) <= c(t))
  }

  /** The instants of successive csrr instructions. */
  ghost predicate Schedule(at: nat -> nat) {
    forall i: nat, j: nat :: i < j ==> at(i) < at(j)
  }

  function High(v: nat): nat { v / 0x1_0000_0000 }
  function Low(v: nat): nat { v % 0x1_0000_0000 }

  lemma Untorn(a: nat, b: nat, c: nat)
    requires a <= b <= c && High(a) == High(c)
    ensures High(b) == High(a) && High(a) * 0x1_0000_0000 + Low(b) == b
  {
  }

  /** Two high-word changes are at least 2^32 cycles apart. */
  lemma TwoCarries(a: nat, b: nat, c: nat, d: nat)
    requires a <= b <= c <= d && High(a) != High(b) && High(c) != High(d)
    ensures a + 0x1_0000_0000 < d
  {
    assert High(a) < High(b) <= High(c) < High(d);
  }

  lemma HighGrows(a: nat, b: nat)
    requires a <= b && High(a) != High(b)
    ensures High(a) < High(b)
  {
  }

  lemma HighFits(v: nat)
    requires v < LIMIT
    ensures High(v) < 0x1_0000_0000
  {
  }

  /** What the i-th csrr would find in the whole counter. */
  function Seen(c: nat -> nat, at: nat -> nat, i: nat): nat {
    c(at(i))
  }

  /** Any two consecutive passes of three reads take at most 2^32 cycles. */
  ghost predicate QuickPasses(c: nat -> nat, at: nat -> nat) {
    forall i: nat, j: nat :: j == i + 5 ==> Seen(c, at, j) <= Seen(c, at, i) + 0x1_0000_0000
  }

  /** The pass of three reads beginning with the i-th finds the same upper 32 bits twice. */
  predicate Agree(c: nat -> nat, at: nat -> nat, i: nat) {
    Seen(c, at, i) / 0x1_0000_0000 == Seen(c, at, i + 2) / 0x1_0000_0000
  }

  /** No pass before the i-th read did. */
  predicate Disagree(c: nat -> nat, at: nat -> nat, i: nat) {
    forall j :: 0 <= j < i && j % 3 == 0 ==> !Agree(c, at, j)
  }

  lemma NoneBefore(c: nat -> nat, at: nat -> nat)
    ensures Disagree(c, at, 0)
  {
  }

  lemma MoreDisagree(c: nat -> nat, at: nat -> nat, i: nat)
    requires i % 3 == 0 && Disagree(c, at, i) && !Agree(c, at, i)
    ensures Disagree(c, at, i + 3)
  {
    hide Agree;
  }

  lemma AgreeHigh(c: nat -> nat, at: nat -> nat, i: nat)
    ensures Agree(c, at, i) <==> High(Seen(c, at, i)) == High(Seen(c, at, i + 2))
  {
  }

  lemma Ordered(c: nat -> nat, at: nat -> nat, i: nat, j: nat)
    requires Counter(c) && Schedule(at) && i <= j
    ensures Seen(c, at, i) <= Seen(c, at, j) < LIMIT
  {
  }

  /** A pass whose two high words differ is followed by one that starts with a larger high word. */
  lemma Retry(c: nat -> nat, at: nat -> nat, i: nat)
    requires Counter(c) && Schedule(at) && High(Seen(c, at, i)) != High(Seen(c, at, i + 2))
    ensures High(Seen(c, at, i)) < High(Seen(c, at, i + 3)) < 0x1_0000_0000
  {
    hide Counter, Schedule, Seen;
    Ordered(c, at, i, i + 2);
    Ordered(c, at, i + 2, i + 3);
    HighGrows(Seen(c, at, i), Seen(c, at, i + 2));
    HighMonotone(Seen(c, at, i + 2), Seen(c, at, i + 3));
    HighFits(Seen(c, at, i + 3));
  }

  /** Two failing passes in a row take more than 2^32 cycles. */
  lemma TwoRetries(c: nat -> nat, at: nat -> nat, i: nat)
    requires Counter(c) && Schedule(at)
    requires High(Seen(c, at, i)) != High(Seen(c, at, i + 2)) && High(Seen(c, at, i + 3)) != High(Seen(c, at, i + 5))
    ensures !QuickPasses(c, at)
  {
    Ordered(c, at, i, i + 2);
    Ordered(c, at, i + 2, i + 3);
    Ordered(c, at, i + 3, i + 5);
    hide Counter, Schedule, Seen;
    TwoCarries(Seen(c, at, i), Seen(c, at, i + 2), Seen(c, at, i + 3), Seen(c, at, i + 5));
  }

  /**
   perf_get_mcycle64: high, low, high again, until the two high words agree. `last` numbers the low
   read of the final pass: the result is the whole counter at that very instant, and unless two
   consecutive passes take more than 2^32 cycles there is at most one retry.
   */
  method PerfGetMcycle64(c: nat -> nat, at: nat -> nat) returns (value: nat, last: nat)
    requires Counter(c) && Schedule(at)
    ensures last % 3 == 1 && value == Seen(c, at, last)
    ensures Agree(c, at, last - 1) && Disagree(c, at, last - 1)
    ensures QuickPasses(c, at) ==> last <= 4
  {
    hide Counter, Schedule, QuickPasses, Seen, High, Low, Agree, Disagree;
    var i: nat := 0;
    var cycleHigh := High(Seen(c, at, i));
    var cycleLow := Low(Seen(c, at, i + 1));
    var cycleHigh2 := High(Seen(c, at, i + 2));
    Ordered(c, at, 0, 0);
    NoneBefore(c, at);
    HighFits(Seen(c, at, 0));
    while cycleHigh != cycleHigh2
      invariant i % 3 == 0
      invariant cycleHigh == High(Seen(c, at, i)) && cycleLow == Low(Seen(c, at, i + 1))
      invariant cycleHigh2 == High(Seen(c, at, i + 2))
      invariant cycleHigh < 0x1_0000_0000
      invariant Disagree(c, at, i)
      invariant i >= 3 ==> High(Seen(c, at, i - 3)) != High(Seen(c, at, i - 1))
      invariant QuickPasses(c, at) ==> i <= 3
      decreases 0x1_0000_0000 - cycleHigh
    {
      Retry(c, at, i);
      AgreeHigh(c, at, i);
      MoreDisagree(c, at, i);
      if i >= 3 {
        TwoRetries(c, at, i - 3);
      }
      i := i + 3;
      cycleHigh := High(Seen(c, at, i));
      cycleLow := Low(Seen(c, at, i + 1));
      cycleHigh2 := High(Seen(c, at, i + 2));
    }
    AgreeHigh(c, at, i);
    Ordered(c, at, i, i + 1);
    Ordered(c, at, i + 1, i + 2);
    Untorn(Seen(c, at, i), Seen(c, at, i + 1), Seen(c, at, i + 2));
    value := cycleHigh * 0x1_0000_0000 + cycleLow;
    last := i + 1;
  }

  lemma HighMonotone(a: nat, b: nat)
    requires a <= b
    ensures High(a) <= High(b)
  {
  }
}
