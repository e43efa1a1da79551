/**
 The clocked module against its commands: any polite clock run simulates the
 accepted commands, one response each; and what happens when a command is held
 valid while the module is not ready.
 */
module Protocol {
  import opened Words
  import opened Mac
  import opened Cfu
  import opened Pipeline

  /** The registers after n clock edges. */
  function ClockRun(s: Regs, pins: seq<Pins>, n: nat): (t: Regs)
    requires s.Valid() && n <= |pins|
    ensures t.Valid()
  {
    if n == 0 then s else Tick(ClockRun(s, pins, n - 1), pins[n - 1])
  }

  /** The CPU raises cmd_valid only while cmd_ready, and never pulls reset. */
  predicate Polite(s: Regs, pins: seq<Pins>)
    requires s.Valid()
  {
    forall t :: 0 <= t < |pins| ==> !pins[t].reset && (pins[t].cmdValid ==> !ClockRun(s, pins, t).rspValid)
  }

  /** Commands taken (valid and ready) in the first n cycles. */
  function Accepted(s: Regs, pins: seq<Pins>, n: nat): seq<Cmd>
    requires s.Valid() && n <= |pins|
  {
    if n == 0 then []
    else Accepted(s, pins, n - 1)
         + if pins[n - 1].cmdValid && !ClockRun(s, pins, n - 1).rspValid then [pins[n - 1].Command()] else []
  }

  /** Responses taken (valid and ready) in the first n cycles. */
  function Delivered(s: Regs, pins: seq<Pins>, n: nat): seq<Word>
    requires s.Valid() && n <= |pins|
  {
    if n == 0 then []
    else Delivered(s, pins, n - 1)
         + var r := ClockRun(s, pins, n - 1); if r.rspValid && pins[n - 1].rspReady then [r.output] else []
  }

  /** The instruction-level answers to the accepted commands, in order. */
  function Expected(s: Regs, pins: seq<Pins>, n: nat): seq<Word>
    requires s.Valid() && n <= |pins|
  {
    if n == 0 then []
    else
      var before := Accepted(s, pins, n - 1);
      Expected(s, pins, n - 1)
      + if pins[n - 1].cmdValid && !ClockRun(s, pins, n - 1).rspValid
        then [Response(Run(s.arch, before, |before|), pins[n - 1].Command(), pins[n - 1].floating)] else []
  }

  /**
   Refinement: each accepted command takes effect exactly once, whatever idle cycles and
   back-pressure surround it, and is answered exactly once, in order.
   */
  lemma {:induction false} ClockRefinesCommands(s: Regs, pins: seq<Pins>, n: nat)
    requires s.Valid() && Polite(s, pins) && !s.rspValid && n <= |pins|
    ensures var done := Accepted(s, pins, n);
            ClockRun(s, pins, n).arch == Run(s.arch, done, |done|)
    ensures var r := ClockRun(s, pins, n);
            Delivered(s, pins, n) + (if r.rspValid then [r.output] else []) == Expected(s, pins, n)
  {
    hide Exec;
    if n > 0 {
      ClockRefinesCommands(s, pins, n - 1);
      var r := ClockRun(s, pins, n - 1);
      var p := pins[n - 1];
      var before := Accepted(s, pins, n - 1);
      if p.cmdValid && !r.rspValid {
        RunExtends(s.arch, before, [p.Command()], |before|);
        assert (before + [p.Command()])[|before|] == p.Command();
      } else {
        assert before + [] == before;
      }
    }
  }

  /** One response per accepted command: at most the last one is still outstanding. */
  lemma {:induction false} OneResponseEach(s: Regs, pins: seq<Pins>, n: nat)
    requires s.Valid() && Polite(s, pins) && !s.rspValid && n <= |pins|
    ensures |Accepted(s, pins, n)| == |Delivered(s, pins, n)| + if ClockRun(s, pins, n).rspValid then 1 else 0
  {
    hide Exec, Run;
    if n > 0 {
      OneResponseEach(s, pins, n - 1);
    }
  }

  /** An untaken response neither disappears nor changes, even if commands are pressed meanwhile. */
  lemma {:induction false} ResponseHeld(s: Regs, pins: seq<Pins>, m: nat, n: nat)
    requires s.Valid() && m <= n <= |pins|
    requires ClockRun(s, pins, m).rspValid
    requires forall t :: m <= t < n ==> !pins[t].reset && !pins[t].rspReady
    ensures ClockRun(s, pins, n).rspValid && ClockRun(s, pins, n).output == ClockRun(s, pins, m).output
  {
    hide Exec;
    if m < n {
      ResponseHeld(s, pins, m, n - 1);
    }
  }

  // ----- a command held valid while the module is not ready -----

  /** The guard under which repeating a command changes nothing. */
  predicate Repeatable(s: Arch, c: Cmd) {
    || c.func == 2 || c.func == 3 || c.func == 4
    || (c.func == 1 && s.ctr >= 12)
    || (c.func != 1 && c.func != 5 && s.ctr >= 11)
  }

  /** `times` edges with the same command on the bus. */
  function Repeat(s: Arch, c: Cmd, times: nat): (t: Arch)
    requires s.Valid()
    ensures t.Valid()
  {
    if times == 0 then s else Exec(Repeat(s, c, times - 1), c)
  }

  lemma RepeatOnceIff(s: Arch, c: Cmd)
    requires s.Valid()
    ensures Exec(Exec(s, c), c) == Exec(s, c) <==> Repeatable(s, c)
  {
    hide Advance, Clear;
    var once := Exec(s, c);
    var twice := Exec(once, c);
    if c.func == 3 {
      ClearTwice(s, c);
    } else if c.func == 1 && s.ctr == 11 {
      assert once.addr[0] == 36 && twice.addr[0] == 0;
    }
  }

  lemma ClearTwice(s: Arch, c: Cmd)
    requires s.Valid() && c.func == 3
    ensures Exec(Exec(s, c), c) == Exec(s, c)
  {
    assert Exec(Exec(s, c), c).pe == Exec(s, c).pe;
  }

  lemma {:induction false} RepeatedRepeatable(s: Arch, c: Cmd, times: nat)
    requires s.Valid() && Repeatable(s, c) && times > 0
    ensures Repeat(s, c, times) == Exec(s, c)
  {
    hide Exec, Repeatable;
    RepeatOnceIff(s, c);
    if times > 1 {
      RepeatedRepeatable(s, c, times - 1);
    }
  }

  /**
   State updates are gated on cmd_valid alone, so a command held for some cycles before it is
   accepted acts on every one of them. That is harmless, however long it is held, exactly when
   it is Repeatable.
   */
  lemma HeldCommandIff(s: Arch, c: Cmd)
    requires s.Valid()
    ensures (forall times: nat :: times > 0 ==> Repeat(s, c, times) == Exec(s, c)) <==> Repeatable(s, c)
  {
    hide Exec, Repeatable;
    if Repeatable(s, c) {
      forall times: nat | times > 0
        ensures Repeat(s, c, times) == Exec(s, c)
      {
        RepeatedRepeatable(s, c, times);
      }
    } else {
      RepeatOnceIff(s, c);
      assert Repeat(s, c, 1) == Exec(s, c);
      assert Repeat(s, c, 2) == Exec(Exec(s, c), c);
    }
  }

  /** Clock view of the same: `held` stalled cycles, then the accepting one. */
  lemma {:induction false} StalledRun(s: Regs, p: Pins, pins: seq<Pins>, n: nat)
    requires s.Valid() && n <= |pins|
    requires forall t :: 0 <= t < n ==> pins[t].cmdValid && !pins[t].reset && pins[t].Command() == p.Command()
    ensures ClockRun(s, pins, n).arch == Repeat(s.arch, p.Command(), n)
  {
    hide Exec;
    if n > 0 {
      StalledRun(s, p, pins, n - 1);
    }
  }
}
