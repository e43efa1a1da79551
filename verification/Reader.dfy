/**
 The prefetching SequentialMemoryReader of python/amaranth_cfu/util.py over a memory
 whose read port takes one cycle: it looks like a plain pointer.
 */
module Reader {
  import opened Words
  import opened Arith

  datatype Inputs = Inputs(next: bool, restart: bool)

  /** The reader's registers and the memory's output register. */
  datatype Regs = Regs(wasRestart: bool, wasNext: bool, lastAddr: nat, lastData: Word, memData: Word)

  /** Circular increment below `limit`. */
  function Increment(a: nat, limit: nat): nat
    requires limit > 0
  {
    if a == limit - 1 then 0 else a + 1
  }

  /** The address driven this cycle. */
  function Address(r: Regs, i: Inputs, limit: nat): nat
    requires limit > 0
  {
    if i.restart then 0
    else if r.wasNext || r.wasRestart then Increment(r.lastAddr, limit)
    else r.lastAddr
  }

  /** The data offered this cycle. */
  function Data(r: Regs): Word {
    if r.wasRestart || r.wasNext then r.memData else r.lastData
  }

  predicate InRange(r: Regs, limit: nat) {
    r.lastAddr < limit
  }

  lemma AddressInRange(r: Regs, i: Inputs, limit: nat)
    requires limit > 0 && InRange(r, limit)
    ensures Address(r, i, limit) < limit
  {
  }

  function Next(r: Regs, i: Inputs, mem: seq<Word>, limit: nat): (s: Regs)
    requires 0 < limit <= |mem| && InRange(r, limit)
    ensures InRange(s, limit)
  {
    AddressInRange(r, i, limit);
    var a := Address(r, i, limit);
    Regs(i.restart, i.next, a, Data(r), mem[a])
  }

  /** The reader wired to its memory. */
  class MemoryReader {
    const limit: nat
    const mem: array<Word>
    var wasRestart: bool
    var wasNext: bool
    var lastAddr: nat
    var lastData: Word
    var memData: Word

    ghost predicate Valid()
      reads this
    {
      0 < limit <= mem.Length && lastAddr < limit
    }

    function State(): Regs
      reads this
    {
      Regs(wasRestart, wasNext, lastAddr, lastData, memData)
    }

    constructor (contents: array<Word>, items: nat)
      requires 0 < items <= contents.Length
      ensures Valid() && mem == contents && limit == items && State() == Regs(false, false, 0, 0, 0)
    {
      mem, limit := contents, items;
      wasRestart, wasNext, lastAddr, lastData, memData := false, false, 0, 0, 0;
    }

    /** One cycle: the data visible during it, the registers after it. */
    method Clock(i: Inputs) returns (data: Word)
      requires Valid()
      modifies this
      ensures Valid()
      ensures data == Data(old(State()))
      ensures State() == Next(old(State()), i, mem[..], limit)
    {
      var incremented := if lastAddr == limit - 1 then 0 else lastAddr + 1;
      var memAddr := lastAddr;
      if i.restart {
        memAddr := 0;
      } else if wasNext || wasRestart {
        memAddr := incremented;
      }
      data := lastData;
      if wasRestart || wasNext {
        data := memData;
      }
      wasRestart, wasNext, lastAddr, lastData, memData := i.restart, i.next, memAddr, data, mem[memAddr];
    }
  }

  // ----- runs -----

  function Run(r: Regs, trace: seq<Inputs>, mem: seq<Word>, limit: nat, n: nat): (s: Regs)
    requires 0 < limit <= |mem| && InRange(r, limit) && n <= |trace|
    ensures InRange(s, limit)
  {
    if n == 0 then r else Next(Run(r, trace, mem, limit, n - 1), trace[n - 1], mem, limit)
  }

  /** `next` pulses in cycles from..to-1. */
  function Pulses(trace: seq<Inputs>, from: nat, to: nat): nat
    requires from <= to <= |trace|
  {
    if from == to then 0 else Pulses(trace, from, to - 1) + if trace[to - 1].next then 1 else 0
  }

  /** How far the prefetch has run when `count` words have been consumed. */
  ghost predicate Prefetched(r: Regs, mem: seq<Word>, limit: nat, count: nat)
    requires 0 < limit <= |mem|
  {
    if r.wasRestart || r.wasNext then
      r.lastAddr == count % limit && r.memData == mem[count % limit]
    else
      && r.lastData == mem[count % limit]
      && r.lastAddr == (count + 1) % limit && r.memData == mem[(count + 1) % limit]
  }

  lemma Wraps(count: nat, limit: nat)
    requires limit > 0
    ensures Increment(count % limit, limit) == (count + 1) % limit
  {
    var q, r := count / limit, count % limit;
    assert count == q * limit + r;
    if r == limit - 1 {
      assert count + 1 == (q + 1) * limit + 0;
      Digit(q + 1, limit, 0);
    } else {
      Digit(q, limit, r + 1);
    }
  }

  lemma PrefetchedNext(r: Regs, i: Inputs, mem: seq<Word>, limit: nat, count: nat)
    requires 0 < limit <= |mem| && InRange(r, limit) && !i.restart && Prefetched(r, mem, limit, count)
    ensures Prefetched(Next(r, i, mem, limit), mem, limit, count + if i.next then 1 else 0)
  {
    Wraps(count, limit);
  }

  lemma {:induction false} PrefetchedAfter(r: Regs, trace: seq<Inputs>, mem: seq<Word>, limit: nat, start: nat, t: nat)
    requires 0 < limit <= |mem| && InRange(r, limit) && start < t <= |trace|
    requires trace[start].restart && forall m :: start < m < t ==> !trace[m].restart
    ensures Prefetched(Run(r, trace, mem, limit, t), mem, limit, Pulses(trace, start + 1, t))
  {
    hide Prefetched, Next;
    if t == start + 1 {
      Restarted(Run(r, trace, mem, limit, start), trace[start], mem, limit);
    } else {
      PrefetchedAfter(r, trace, mem, limit, start, t - 1);
      PrefetchedNext(Run(r, trace, mem, limit, t - 1), trace[t - 1], mem, limit, Pulses(trace, start + 1, t - 1));
    }
  }

  lemma Restarted(r: Regs, i: Inputs, mem: seq<Word>, limit: nat)
    requires 0 < limit <= |mem| && InRange(r, limit) && i.restart
    ensures Prefetched(Next(r, i, mem, limit), mem, limit, 0)
  {
    assert 0 % limit == 0;
  }

  /** Before any restart, from the registers' reset values: nothing has been fetched before the first pulse. */
  ghost predicate PoweredUp(r: Regs, mem: seq<Word>, limit: nat, count: nat)
    requires 0 < limit <= |mem|
  {
    if count == 0 then !r.wasRestart && !r.wasNext && r.lastData == 0 && r.lastAddr == 0
    else Prefetched(r, mem, limit, count - 1)
  }

  lemma {:induction false} PoweredUpAfter(trace: seq<Inputs>, mem: seq<Word>, limit: nat, t: nat)
    requires 0 < limit <= |mem| && t <= |trace| && forall m :: 0 <= m < t ==> !trace[m].restart
    ensures PoweredUp(Run(Regs(false, false, 0, 0, 0), trace, mem, limit, t), mem, limit, Pulses(trace, 0, t))
  {
    if t > 0 {
      PoweredUpAfter(trace, mem, limit, t - 1);
      var r, count := Run(Regs(false, false, 0, 0, 0), trace, mem, limit, t - 1), Pulses(trace, 0, t - 1);
      if count > 0 {
        hide Prefetched, Next;
        PrefetchedNext(r, trace[t - 1], mem, limit, count - 1);
      }
    }
  }

  /** A reader that was never restarted shows zero until the first pulse, and is one word behind after it. */
  lemma WithoutRestart(trace: seq<Inputs>, mem: seq<Word>, limit: nat, t: nat)
    requires 0 < limit <= |mem| && t <= |trace| && forall m :: 0 <= m < t ==> !trace[m].restart
    ensures var count := Pulses(trace, 0, t);
            Data(Run(Regs(false, false, 0, 0, 0), trace, mem, limit, t)) == if count == 0 then 0 else mem[(count - 1) % limit]
  {
    PoweredUpAfter(trace, mem, limit, t);
  }

  /**
   In every cycle after a restart the reader shows word n mod limit, where n counts the `next`
   pulses since the restart's cycle, for any pattern of pulses and any state before the restart.
   */
  lemma ReadsLikeAPointer(r: Regs, trace: seq<Inputs>, mem: seq<Word>, limit: nat, start: nat, t: nat)
    requires 0 < limit <= |mem| && InRange(r, limit) && start < t <= |trace|
    requires trace[start].restart && forall m :: start < m < t ==> !trace[m].restart
    ensures Data(Run(r, trace, mem, limit, t)) == mem[Pulses(trace, start + 1, t) % limit]
  {
    PrefetchedAfter(r, trace, mem, limit, start, t);
  }
}
