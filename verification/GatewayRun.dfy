/** What every run of an accepted gateway does. */
module GatewayRun {
  import opened Words
  import opened Opcodes
  import opened Sh4
  import opened Cursor
  import opened EntryFrame
  import opened Gateway
  import Instructions

  // ---------- verdicts of guarded segments ----------

  lemma {:induction false} DoAllVerdict(items: seq<Item>, rest: seq<Check>, cpu: Cpu, after: Cpu)
    requires ApplyAll(items, cpu) == Running(after)
    ensures RunChecks(DoAll(items) + rest, cpu) == RunChecks(rest, after)
    decreases |items|
  {
    hide Apply;
    if items == [] {
      assert DoAll(items) + rest == rest;
    } else {
      var next := Apply(items[0], cpu).cpu;
      assert DoAll(items) == [Do(items[0])] + DoAll(items[1..]);
      assert (DoAll(items) + rest)[1..] == DoAll(items[1..]) + rest;
      DoAllVerdict(items[1..], rest, next, after);
    }
  }

  lemma SegmentVerdict(items: seq<Item>, onTrue: bool, rest: seq<Check>, cpu: Cpu, after: Cpu)
    requires ApplyAll(items, cpu) == Running(after)
    ensures RunChecks(Guarded(items, onTrue) + rest, cpu) ==
      if after.t == onTrue then Stopped(after) else RunChecks(rest, after)
  {
    hide Apply, ApplyAll;
    var tail := [Refuse(onTrue)] + rest;
    assert Guarded(items, onTrue) + rest == DoAll(items) + tail;
    DoAllVerdict(items, tail, cpu, after);
    assert tail[1..] == rest;
  }

  // ---------- effects of the segments ----------

  function Cell(mem: Memory, base: int, offset: int): Word { Peek(mem, Key(Plus(base, offset))) }

  /** Registers and T may change; nothing else does. */
  predicate Pure(cpu: Cpu, after: Cpu) { after == cpu.(r := after.r, t := after.t) }

  predicate Keeps(cpu: Cpu, after: Cpu, registers: set<Nibble>) {
    forall i: Nibble {:trigger after.r[i]} :: i in registers ==> after.r[i] == cpu.r[i]
  }

  lemma MaskEffect(cpu: Cpu, state: Word) returns (after: Cpu)
    ensures ApplyAll(MaskItems(state), cpu) == Running(after)
    ensures after == cpu.(r := after.r, upper := after.upper, t := after.t) && after.r[1] == state
    ensures Sr(after) == OrWord(Sr(cpu), 0x1000_00f0)
  {
    hide Exec, ApplyAll, Put, OrWord, BankSelected;
    var items := MaskItems(state);
    var c1 := Put(cpu, 0, Sr(cpu));
    PutFrame(cpu, 0, Sr(cpu));
    assert Apply(Op(Opcode(0, 0, 0, 2)), cpu) == Running(c1) by { Instructions.StcSr(0, cpu); }
    var c2 := Put(c1, 1, 0x1000_00f0);
    PutFrame(c1, 1, 0x1000_00f0);
    var masked := OrWord(Sr(cpu), 0x1000_00f0);
    var c3 := Put(c2, 0, masked);
    PutFrame(c2, 0, masked);
    assert Apply(Op(Opcode(2, 0, 1, 11)), c2) == Running(c3) by { Instructions.OrRegister(0, 1, c2); }
    var c4 := c3.(upper := masked / 2, t := masked % 2 == 1);
    assert Apply(Op(Opcode(4, 0, 0, 14)), c3) == Running(c4) by { Instructions.Ldc(0, 0, c3); GateKeepsBank(cpu); }
    ApplyFour(items[0], items[1], items[2], items[3], cpu, c1, c2, c3, c4);
    after := Put(c4, 1, state);
    PutFrame(c4, 1, state);
    ApplyOne(items[4], c4, after);
    ApplyAppend([items[0], items[1], items[2], items[3]], [items[4]], cpu);
    assert items == [items[0], items[1], items[2], items[3]] + [items[4]];
  }

  lemma GateKeepsBank(cpu: Cpu)
    ensures BankSelected(OrWord(Sr(cpu), 0x1000_00f0) / 2) == BankSelected(cpu.upper)
  {
    var masked := OrWord(Sr(cpu), 0x1000_00f0);
    ShiftBytes(0x1000_00f0, 0x10_0000, 0x1000, 0x10);
    ShiftCompose(0x1000_00f0, 29, 1);
    OrKeepsHighBits(Sr(cpu), 0x1000_00f0, 30);
    OrKeepsHighBits(Sr(cpu), 0x1000_00f0, 29);
    assert Shift(masked / 2, 29) == Shift(Sr(cpu) / 2, 29);
    assert Shift(masked / 2, 28) == Shift(Sr(cpu) / 2, 28);
  }

  lemma ReadsLong(n: Nibble, m: Nibble, cpu: Cpu)
    requires cpu.r[m] % 4 == 0
    ensures Apply(Op(Opcode(6, n, m, 2)), cpu) == Running(Put(cpu, n, Cell(cpu.mem, cpu.r[m], 0)))
  {
    hide Exec, Put, Key;
    Instructions.LoadLong(n, m, cpu);
  }

  lemma AlignedPlus(a: Word, k: nat)
    requires a % 4 == 0 && k < 16
    ensures Plus(a, 4 * k) % 4 == 0
  {
    hide Wrap;
    WrapAlignment(a + 4 * k);
  }

  lemma ReadsDisplaced(n: Nibble, m: Nibble, low: Nibble, cpu: Cpu)
    requires cpu.r[m] % 4 == 0
    ensures Apply(Op(Opcode(5, n, m, low)), cpu) == Running(Put(cpu, n, Cell(cpu.mem, cpu.r[m], 4 * low)))
  {
    hide Exec, Put, Key, Plus;
    AlignedPlus(cpu.r[m], low);
    Instructions.LoadDisplaced(n, m, low, cpu);
  }

  lemma ReadyEffect(cpu: Cpu) returns (after: Cpu)
    requires cpu.r[1] % 4 == 0
    ensures ApplyAll(ReadyItems(), cpu) == Running(after) && Pure(cpu, after)
    ensures after.r[1] == cpu.r[1] && after.t == (Cell(cpu.mem, cpu.r[1], 0) == 0x4456_5342)
  {
    hide Exec, ApplyAll, Put, Cell;
    var c1 := Put(cpu, 0, Cell(cpu.mem, cpu.r[1], 0));
    PutFrame(cpu, 0, Cell(cpu.mem, cpu.r[1], 0));
    ReadsLong(0, 1, cpu);
    var c2 := Put(c1, 2, 0x4456_5342);
    PutFrame(c1, 2, 0x4456_5342);
    after := SetT(c2, c2.r[0] == c2.r[2]);
    assert Apply(Op(Opcode(3, 0, 2, 0)), c2) == Running(after) by { Instructions.CmpEq(0, 2, c2); }
    ApplyThree(ReadyItems()[0], ReadyItems()[1], ReadyItems()[2], cpu, c1, c2, after);
  }

  lemma PinEffect(cpu: Cpu, exports: Word) returns (after: Cpu)
    requires cpu.r[1] % 4 == 0
    ensures ApplyAll(PinItems(exports), cpu) == Running(after) && Pure(cpu, after)
    ensures after.r[1] == exports && after.r[3] == Cell(cpu.mem, cpu.r[1], 4)
      && after.r[4] == Cell(cpu.mem, cpu.r[1], 8)
    ensures after.t == (after.r[4] == exports)
  {
    hide Exec, ApplyAll, Put, Cell;
    var items := PinItems(exports);
    var c1 := Put(cpu, 3, Cell(cpu.mem, cpu.r[1], 4));
    PutFrame(cpu, 3, Cell(cpu.mem, cpu.r[1], 4));
    ReadsDisplaced(3, 1, 1, cpu);
    var c2 := Put(c1, 4, Cell(cpu.mem, cpu.r[1], 8));
    PutFrame(c1, 4, Cell(cpu.mem, cpu.r[1], 8));
    ReadsDisplaced(4, 1, 2, c1);
    var c3 := Put(c2, 1, exports);
    PutFrame(c2, 1, exports);
    after := SetT(c3, c3.r[4] == c3.r[1]);
    assert Apply(Op(Opcode(3, 4, 1, 0)), c3) == Running(after) by { Instructions.CmpEq(4, 1, c3); }
    ApplyFour(items[0], items[1], items[2], items[3], cpu, c1, c2, c3, after);
  }

  /** The worker ends where the support module begins; the P1 alias lies one window below. */
  function Worker(exports: Word): Word { Minus(exports, 0x1_2000) }

  function Cached(a: Word): Word { Minus(a, 0x2000_0000) }

  lemma MagicEffect(cpu: Cpu, exports: Word) returns (after: Cpu)
    requires cpu.r[1] == exports && Worker(exports) % 4 == 0
    ensures ApplyAll(MagicItems(), cpu) == Running(after) && Pure(cpu, after) && Keeps(cpu, after, {3, 4})
    ensures after.r[1] == Worker(exports) && after.t == (Cell(cpu.mem, Worker(exports), 0) == 0x4b4e_5031)
  {
    hide Exec, ApplyAll, Put, Cell, Minus;
    var items, worker := MagicItems(), Worker(exports);
    var c1 := Put(cpu, 2, 0x1_2000);
    PutFrame(cpu, 2, 0x1_2000);
    var c2 := Put(c1, 1, worker);
    PutFrame(c1, 1, worker);
    assert Apply(Op(Opcode(3, 1, 2, 8)), c1) == Running(c2) by { Instructions.Sub(1, 2, c1); }
    var c3 := Put(c2, 0, Cell(cpu.mem, worker, 0));
    PutFrame(c2, 0, Cell(cpu.mem, worker, 0));
    ReadsLong(0, 1, c2);
    var c4 := Put(c3, 2, 0x4b4e_5031);
    PutFrame(c3, 2, 0x4b4e_5031);
    ApplyFour(items[0], items[1], items[2], items[3], cpu, c1, c2, c3, c4);
    after := SetT(c4, c4.r[0] == c4.r[2]);
    assert Apply(Op(Opcode(3, 0, 2, 0)), c4) == Running(after) by { Instructions.CmpEq(0, 2, c4); }
    ApplyOne(items[4], c4, after);
    ApplyAppend([items[0], items[1], items[2], items[3]], [items[4]], cpu);
    assert items == [items[0], items[1], items[2], items[3]] + [items[4]];
  }

  /** A misaligned worker faults at its magic. */
  lemma MagicFaults(cpu: Cpu, exports: Word, rest: seq<Check>)
    requires cpu.r[1] == exports && Worker(exports) % 4 != 0
    ensures var v := RunChecks(Guarded(MagicItems(), false) + rest, cpu); v.Faulted? && v.cpu.mem == cpu.mem
  {
    hide Exec, ApplyAll, Put, Minus, RunChecks;
    var items, worker := MagicItems(), Worker(exports);
    var c1 := Put(cpu, 2, 0x1_2000);
    PutFrame(cpu, 2, 0x1_2000);
    var c2 := Put(c1, 1, worker);
    PutFrame(c1, 1, worker);
    assert Apply(items[1], c1) == Running(c2) by { Instructions.Sub(1, 2, c1); }
    ApplyTwo(items[0], items[1], cpu, c1, c2);
    var later := [Do(items[2]), Do(items[3]), Do(items[4]), Refuse(false)] + rest;
    assert Guarded(items, false) + rest == DoAll([items[0], items[1]]) + later;
    DoAllVerdict([items[0], items[1]], later, cpu, c2);
    LoadFaults(0, 1, c2, later);
  }

  lemma LoadFaults(n: Nibble, m: Nibble, cpu: Cpu, checks: seq<Check>)
    requires checks != [] && checks[0] == Do(Op(Opcode(6, n, m, 2))) && cpu.r[m] % 4 != 0
    ensures RunChecks(checks, cpu) == Faulted(cpu)
  {
    hide Exec, Put, Key;
    Instructions.LoadLong(n, m, cpu);
  }

  lemma ImmediateEffect(word: Nibble, high: Nibble, low: Nibble, cpu: Cpu) returns (after: Cpu)
    requires cpu.r[1] % 4 == 0 && high < 8
    ensures ApplyAll(ImmediateItems(word, high, low), cpu) == Running(after) && Pure(cpu, after)
    ensures Keeps(cpu, after, {1, 3, 4}) && after.t == (Cell(cpu.mem, cpu.r[1], 4 * word) == 16 * high + low)
  {
    hide Exec, ApplyAll, Put, Cell;
    var v := Cell(cpu.mem, cpu.r[1], 4 * word);
    var c1 := Put(cpu, 0, v);
    PutFrame(cpu, 0, v);
    ReadsDisplaced(0, 1, word, cpu);
    after := SetT(c1, v == 16 * high + low);
    assert Apply(Op(Opcode(8, 8, high, low)), c1) == Running(after) by { Instructions.CmpEqImmediate(high, low, c1); }
    ApplyTwo(Op(Opcode(5, 0, 1, word)), Op(Opcode(8, 8, high, low)), cpu, c1, after);
  }

  lemma PinnedEffect(word: Nibble, pin: Nibble, cpu: Cpu) returns (after: Cpu)
    requires cpu.r[1] % 4 == 0 && pin in {3, 4}
    ensures ApplyAll(PinnedItems(word, pin), cpu) == Running(after) && Pure(cpu, after)
    ensures Keeps(cpu, after, {1, 3, 4}) && after.t == (Cell(cpu.mem, cpu.r[1], 4 * word) == cpu.r[pin])
  {
    hide Exec, ApplyAll, Put, Cell;
    var v := Cell(cpu.mem, cpu.r[1], 4 * word);
    var c1 := Put(cpu, 0, v);
    PutFrame(cpu, 0, v);
    ReadsDisplaced(0, 1, word, cpu);
    after := SetT(c1, v == cpu.r[pin]);
    assert Apply(Op(Opcode(3, 0, pin, 0)), c1) == Running(after) by { Instructions.CmpEq(0, pin, c1); }
    ApplyTwo(Op(Opcode(5, 0, 1, word)), Op(Opcode(3, 0, pin, 0)), cpu, c1, after);
  }

  lemma LowerEffect(cpu: Cpu) returns (after: Cpu)
    ensures ApplyAll(LowerItems(), cpu) == Running(after) && Pure(cpu, after) && Keeps(cpu, after, {3, 4})
    ensures after.r[2] == 0x2000_0000 && after.t == (cpu.r[3] >= Plus(Cached(cpu.r[1]), 80))
  {
    hide Exec, ApplyAll, Put, Plus, Minus;
    var items, base := LowerItems(), Cached(cpu.r[1]);
    var c1 := Put(cpu, 2, 0x2000_0000);
    PutFrame(cpu, 2, 0x2000_0000);
    var c2 := Put(c1, 1, base);
    PutFrame(c1, 1, base);
    assert Apply(Op(Opcode(3, 1, 2, 8)), c1) == Running(c2) by { Instructions.Sub(1, 2, c1); }
    var c3 := Put(c2, 1, Plus(base, 80));
    PutFrame(c2, 1, Plus(base, 80));
    assert Apply(Op(Opcode(7, 1, 5, 0)), c2) == Running(c3) by { Instructions.AddImmediate(1, 5, 0, c2); }
    after := SetT(c3, c3.r[3] >= c3.r[1]);
    assert Apply(Op(Opcode(3, 3, 1, 2)), c3) == Running(after) by { Instructions.CmpHs(3, 1, c3); }
    ApplyFour(items[0], items[1], items[2], items[3], cpu, c1, c2, c3, after);
  }

  lemma UpperEffect(cpu: Cpu) returns (after: Cpu)
    requires cpu.r[2] == 0x2000_0000
    ensures ApplyAll(UpperItems(), cpu) == Running(after) && Pure(cpu, after) && Keeps(cpu, after, {2, 3, 4})
    ensures after.t == (cpu.r[3] >= Minus(Cached(cpu.r[4]), 4096))
  {
    hide Exec, ApplyAll, Put, Minus;
    var items, stack := UpperItems(), Cached(cpu.r[4]);
    var c1 := Put(cpu, 1, cpu.r[4]);
    PutFrame(cpu, 1, cpu.r[4]);
    assert Apply(Op(Opcode(6, 1, 4, 3)), cpu) == Running(c1) by { Instructions.Mov(1, 4, cpu); }
    var c2 := Put(c1, 1, stack);
    PutFrame(c1, 1, stack);
    assert Apply(Op(Opcode(3, 1, 2, 8)), c1) == Running(c2) by { Instructions.Sub(1, 2, c1); }
    var c3 := Put(c2, 0, 4096);
    PutFrame(c2, 0, 4096);
    var c4 := Put(c3, 1, Minus(stack, 4096));
    PutFrame(c3, 1, Minus(stack, 4096));
    assert Apply(Op(Opcode(3, 1, 0, 8)), c3) == Running(c4) by { Instructions.Sub(1, 0, c3); }
    ApplyFour(items[0], items[1], items[2], items[3], cpu, c1, c2, c3, c4);
    after := SetT(c4, c4.r[3] >= c4.r[1]);
    assert Apply(Op(Opcode(3, 3, 1, 2)), c4) == Running(after) by { Instructions.CmpHs(3, 1, c4); }
    ApplyOne(items[4], c4, after);
    ApplyAppend([items[0], items[1], items[2], items[3]], [items[4]], cpu);
    assert items == [items[0], items[1], items[2], items[3]] + [items[4]];
  }

  lemma ParityEffect(cpu: Cpu) returns (after: Cpu)
    ensures ApplyAll(ParityItems(), cpu) == Running(after) && Pure(cpu, after) && Keeps(cpu, after, {2, 3, 4})
    ensures after.t == (cpu.r[3] % 2 == 0)
  {
    hide Exec, ApplyAll, Put, AndWord;
    var c1 := Put(cpu, 0, cpu.r[3]);
    PutFrame(cpu, 0, cpu.r[3]);
    assert Apply(Op(Opcode(6, 0, 3, 3)), cpu) == Running(c1) by { Instructions.Mov(0, 3, cpu); }
    after := SetT(c1, cpu.r[3] % 2 == 0);
    assert Apply(Op(Opcode(12, 8, 0, 1)), c1) == Running(after) by {
      Instructions.TstImmediate(0, 1, c1);
      LowestBit(cpu.r[3]);
    }
    ApplyTwo(ParityItems()[0], ParityItems()[1], cpu, c1, after);
  }

  lemma LowestBit(a: Word)
    ensures AndWord(a, 1) == a % 2
  {
    AndOne(a);
  }

  lemma StackEffect(cpu: Cpu) returns (after: Cpu)
    requires cpu.r[2] == 0x2000_0000
    ensures ApplyAll(StackItems(), cpu) == Running(after) && Pure(cpu, after) && Keeps(cpu, after, {3})
    ensures after.r[15] == Cached(cpu.r[4])
  {
    hide Exec, ApplyAll, Put, Minus;
    var c1 := Put(cpu, 15, cpu.r[4]);
    PutFrame(cpu, 15, cpu.r[4]);
    assert Apply(Op(Opcode(6, 15, 4, 3)), cpu) == Running(c1) by { Instructions.Mov(15, 4, cpu); }
    after := Put(c1, 15, Cached(cpu.r[4]));
    PutFrame(c1, 15, Cached(cpu.r[4]));
    assert Apply(Op(Opcode(3, 15, 2, 8)), c1) == Running(after) by { Instructions.Sub(15, 2, c1); }
    ApplyTwo(StackItems()[0], StackItems()[1], cpu, c1, after);
  }

  // ---------- the decision ----------

  /** The exports the gateway insists on, at the worker that ends where the support module begins. */
  predicate ExportsHold(mem: Memory, worker: Word, terminal: Word, stack: Word) {
    && Cell(mem, worker, 4) == 4 && Cell(mem, worker, 8) == 80
    && Cell(mem, worker, 24) == terminal && Cell(mem, worker, 40) == stack && Cell(mem, worker, 44) == stack
  }

  /** The terminal lies in the worker's code: above its 80-byte exports, below its 4 KiB stack, even. */
  predicate TerminalBounded(terminal: Word, worker: Word, stack: Word) {
    Plus(Cached(worker), 80) <= terminal < Minus(Cached(stack), 4096) && terminal % 2 == 0
  }

  /** The state is bound, and to a stack at the exports. */
  predicate BoundState(mem: Memory, state: Word, exports: Word) {
    Cell(mem, state, 0) == 0x4456_5342 && Cell(mem, state, 8) == exports
  }

  predicate Admitted(mem: Memory, state: Word, exports: Word) {
    && state % 4 == 0 && exports % 4 == 0 && BoundState(mem, state, exports)
    && Cell(mem, Worker(exports), 0) == 0x4b4e_5031
    && ExportsHold(mem, Worker(exports), Cell(mem, state, 4), exports)
    && TerminalBounded(Cell(mem, state, 4), Worker(exports), exports)
  }

  /** A misaligned state cannot be read; a misaligned worker cannot either, once a bound state leads there. */
  predicate Unreadable(mem: Memory, state: Word, exports: Word) {
    state % 4 != 0 || (exports % 4 != 0 && BoundState(mem, state, exports))
  }

  lemma BoundVerdict(cpu: Cpu)
    ensures var v := RunChecks(BoundChecks(), cpu);
      && !v.Faulted? && v.cpu.mem == cpu.mem
      && (v.Passed? <==> TerminalBounded(cpu.r[3], cpu.r[1], cpu.r[4]))
      && (v.Passed? ==> v.cpu.r[3] == cpu.r[3] && v.cpu.r[15] == Cached(cpu.r[4]))
  {
    hide RunChecks, ApplyAll, Guarded, DoAll, Plus, Minus;
    var parity := Guarded(ParityItems(), false) + DoAll(StackItems());
    var upper := Guarded(UpperItems(), true) + parity;
    var c1 := LowerEffect(cpu);
    SegmentVerdict(LowerItems(), false, upper, cpu, c1);
    if c1.t {
      var c2 := UpperEffect(c1);
      SegmentVerdict(UpperItems(), true, parity, c1, c2);
      if !c2.t {
        var c3 := ParityEffect(c2);
        SegmentVerdict(ParityItems(), false, DoAll(StackItems()), c2, c3);
        if c3.t {
          var c4 := StackEffect(c3);
          DoAllVerdict(StackItems(), [], c3, c4);
          assert DoAll(StackItems()) + [] == DoAll(StackItems());
          NothingLeft(c4);
        }
      }
    }
  }

  lemma NothingLeft(cpu: Cpu)
    ensures RunChecks([], cpu) == Passed(cpu)
  {
  }

  lemma ExportVerdict(cpu: Cpu)
    requires cpu.r[1] % 4 == 0
    ensures var v := RunChecks(ExportChecks() + BoundChecks(), cpu);
      && !v.Faulted? && v.cpu.mem == cpu.mem
      && (v.Passed? <==>
            ExportsHold(cpu.mem, cpu.r[1], cpu.r[3], cpu.r[4]) && TerminalBounded(cpu.r[3], cpu.r[1], cpu.r[4]))
      && (v.Passed? ==> v.cpu.r[3] == cpu.r[3] && v.cpu.r[15] == Cached(cpu.r[4]))
  {
    hide RunChecks, ApplyAll, Guarded, BoundChecks, Cell, TerminalBounded, Minus;
    var k5 := Guarded(PinnedItems(11, 4), false) + BoundChecks();
    var k4 := Guarded(PinnedItems(10, 4), false) + k5;
    var k3 := Guarded(PinnedItems(6, 3), false) + k4;
    var k2 := Guarded(ImmediateItems(2, 5, 0), false) + k3;
    assert ExportChecks() + BoundChecks() == Guarded(ImmediateItems(1, 0, 4), false) + k2;
    var c1 := ImmediateEffect(1, 0, 4, cpu);
    SegmentVerdict(ImmediateItems(1, 0, 4), false, k2, cpu, c1);
    if c1.t {
      var c2 := ImmediateEffect(2, 5, 0, c1);
      SegmentVerdict(ImmediateItems(2, 5, 0), false, k3, c1, c2);
      if c2.t {
        var c3 := PinnedEffect(6, 3, c2);
        SegmentVerdict(PinnedItems(6, 3), false, k4, c2, c3);
        if c3.t {
          var c4 := PinnedEffect(10, 4, c3);
          SegmentVerdict(PinnedItems(10, 4), false, k5, c3, c4);
          if c4.t {
            var c5 := PinnedEffect(11, 4, c4);
            SegmentVerdict(PinnedItems(11, 4), false, BoundChecks(), c4, c5);
            BoundVerdict(c5);
          }
        }
      }
    }
  }

  lemma WorkerAligned(exports: Word)
    ensures Worker(exports) % 4 == exports % 4
  {
    hide Wrap;
    WrapAlignment(exports - 0x1_2000);
  }

  /** Three verdicts: the checks fault exactly when a guard word cannot be read, pass exactly when memory
      admits the jump and then select the worker's own stack, and stop otherwise. */
  lemma ChecksDecide(state: Word, exports: Word, cpu: Cpu)
    ensures var v := RunChecks(Checks(state, exports), cpu);
      && v.cpu.mem == cpu.mem
      && (v.Faulted? <==> Unreadable(cpu.mem, state, exports))
      && (v.Passed? <==> Admitted(cpu.mem, state, exports))
      && (v.Passed? ==> v.cpu.r[3] == Cell(cpu.mem, state, 4) && v.cpu.r[15] == Cached(exports))
  {
    hide RunChecks, ApplyAll, Guarded, DoAll, ExportChecks, BoundChecks, Cell, ExportsHold, TerminalBounded, OrWord,
      Minus;
    var k3 := ExportChecks() + BoundChecks();
    var k2 := Guarded(MagicItems(), false) + k3;
    var k1 := Guarded(PinItems(exports), false) + k2;
    var k0 := Guarded(ReadyItems(), false) + k1;
    var c0 := MaskEffect(cpu, state);
    DoAllVerdict(MaskItems(state), k0, cpu, c0);
    WorkerAligned(exports);
    if state % 4 != 0 {
      FirstIsLoad(k1);
      LoadFaults(0, 1, c0, k0);
    } else {
      var c1 := ReadyEffect(c0);
      SegmentVerdict(ReadyItems(), false, k1, c0, c1);
      if c1.t {
        var c2 := PinEffect(c1, exports);
        SegmentVerdict(PinItems(exports), false, k2, c1, c2);
        if c2.t {
          if exports % 4 != 0 {
            MagicFaults(c2, exports, k3);
          } else {
            var c3 := MagicEffect(c2, exports);
            SegmentVerdict(MagicItems(), false, k3, c2, c3);
            if c3.t { ExportVerdict(c3); }
          }
        }
      }
    }
  }

  lemma FirstIsLoad(rest: seq<Check>)
    ensures var k := Guarded(ReadyItems(), false) + rest; k != [] && k[0] == Do(Op(Opcode(6, 0, 1, 2)))
  {
  }

  // ---------- nothing in the gateway stores ----------

  /** The instruction forms the gateway is made of: loads, moves, arithmetic and comparisons. */
  predicate LoadOnly(op: Opcode) {
    || op == Opcode(0, 0, 0, 2) || op == NOP
    || (op.top == 2 && op.low == 11) || (op.top == 3 && op.low in {0, 2, 8})
    || op == Opcode(4, 0, 0, 14) || op.top == 5 || (op.top == 6 && op.low in {2, 3})
    || op.top == 7 || (op.top == 8 && op.n == 8) || (op.top == 12 && op.n == 8)
  }

  lemma LoadOnlyKeepsMemory(op: Opcode, cpu: Cpu)
    requires LoadOnly(op) && Exec(op, cpu).Running?
    ensures Exec(op, cpu).cpu.mem == cpu.mem && Exec(op, cpu).cpu.purged == cpu.purged
  {
    hide Exec, Key, OrWord, AndWord, BankSelected, Plus, Minus, Signed8, Wrap;
    match op.top
    case 0 => Instructions.StcSr(op.n, cpu); Instructions.Nop(cpu);
    case 2 => Instructions.OrRegister(op.n, op.m, cpu);
    case 3 =>
      Instructions.CmpEq(op.n, op.m, cpu); Instructions.CmpHs(op.n, op.m, cpu); Instructions.Sub(op.n, op.m, cpu);
    case 4 => Instructions.Ldc(op.n, op.m, cpu);
    case 5 => Instructions.LoadDisplaced(op.n, op.m, op.low, cpu);
    case 6 => Instructions.LoadLong(op.n, op.m, cpu); Instructions.Mov(op.n, op.m, cpu);
    case 7 => Instructions.AddImmediate(op.n, op.m, op.low, cpu);
    case 8 => Instructions.CmpEqImmediate(op.m, op.low, cpu);
    case 12 => Instructions.TstImmediate(op.m, op.low, cpu);
  }

  predicate Benign(check: Check) {
    check.Do? && check.item.Op? ==> Straight(check.item) && LoadOnly(check.item.op)
  }

  predicate AllBenign(checks: seq<Check>) {
    forall i {:trigger checks[i]} :: 0 <= i < |checks| ==> Benign(checks[i])
  }

  predicate BenignItems(items: seq<Item>) {
    forall i {:trigger items[i]} :: 0 <= i < |items| ==> Benign(Do(items[i]))
  }

  lemma BenignJoin(a: seq<Check>, b: seq<Check>)
    requires AllBenign(a) && AllBenign(b)
    ensures AllBenign(a + b)
  {
    hide Benign;
    forall i | 0 <= i < |a + b| ensures Benign((a + b)[i]) {
      assert (a + b)[i] == if i < |a| then a[i] else b[i - |a|];
    }
  }

  lemma BenignSegment(items: seq<Item>, onTrue: bool)
    requires BenignItems(items)
    ensures AllBenign(DoAll(items)) && AllBenign(Guarded(items, onTrue))
  {
    assert AllBenign([Refuse(onTrue)]);
    forall i | 0 <= i < |items| ensures Benign(DoAll(items)[i]) {
      hide Benign;
      assert DoAll(items)[i] == Do(items[i]);
      assert Benign(Do(items[i]));
    }
    BenignJoin(DoAll(items), [Refuse(onTrue)]);
  }

  lemma BoundsBenign()
    ensures AllBenign(BoundChecks())
  {
    hide AllBenign, DoAll, Guarded;
    BenignSegment(LowerItems(), false); BenignSegment(UpperItems(), true);
    BenignSegment(ParityItems(), false); BenignSegment(StackItems(), false);
    BenignJoin(Guarded(ParityItems(), false), DoAll(StackItems()));
    BenignJoin(Guarded(UpperItems(), true), Guarded(ParityItems(), false) + DoAll(StackItems()));
    BenignJoin(Guarded(LowerItems(), false),
      Guarded(UpperItems(), true) + (Guarded(ParityItems(), false) + DoAll(StackItems())));
  }

  lemma ExportsBenign()
    ensures AllBenign(ExportChecks())
  {
    hide AllBenign, Guarded;
    BenignSegment(ImmediateItems(1, 0, 4), false); BenignSegment(ImmediateItems(2, 5, 0), false);
    BenignSegment(PinnedItems(6, 3), false); BenignSegment(PinnedItems(10, 4), false);
    BenignSegment(PinnedItems(11, 4), false);
    var k4 := Guarded(PinnedItems(10, 4), false) + Guarded(PinnedItems(11, 4), false);
    BenignJoin(Guarded(PinnedItems(10, 4), false), Guarded(PinnedItems(11, 4), false));
    BenignJoin(Guarded(PinnedItems(6, 3), false), k4);
    BenignJoin(Guarded(ImmediateItems(2, 5, 0), false), Guarded(PinnedItems(6, 3), false) + k4);
    BenignJoin(Guarded(ImmediateItems(1, 0, 4), false),
      Guarded(ImmediateItems(2, 5, 0), false) + (Guarded(PinnedItems(6, 3), false) + k4));
  }

  lemma ChecksBenign(state: Word, exports: Word)
    ensures AllBenign(Checks(state, exports)) && StraightChecks(Checks(state, exports))
  {
    assert AllBenign(Checks(state, exports)) by {
      hide AllBenign, Guarded, DoAll, ExportChecks, BoundChecks;
      BoundsBenign(); ExportsBenign();
      BenignSegment(MaskItems(state), false); BenignSegment(ReadyItems(), false);
      BenignSegment(PinItems(exports), false); BenignSegment(MagicItems(), false);
      var k3 := ExportChecks() + BoundChecks();
      BenignJoin(ExportChecks(), BoundChecks());
      BenignJoin(Guarded(MagicItems(), false), k3);
      BenignJoin(Guarded(PinItems(exports), false), Guarded(MagicItems(), false) + k3);
      BenignJoin(Guarded(ReadyItems(), false), Guarded(PinItems(exports), false) + (Guarded(MagicItems(), false) + k3));
      BenignJoin(DoAll(MaskItems(state)),
        Guarded(ReadyItems(), false) + (Guarded(PinItems(exports), false) + (Guarded(MagicItems(), false) + k3)));
    }
    hide Checks;
  }

  // ---------- every run ----------

  /** Where control can be inside the gateway: at a check, at the jump or at the stop loop. */
  ghost predicate Inside(image: Image, base: int, state: Word, exports: Word, pc: int) {
    exists i :: AtHalfword(base, |Checks(state, exports)|, pc, i)
  }

  predicate AtHalfword(base: int, count: int, pc: int, i: int) {
    (0 <= i <= count || i == count + 2) && Alias(pc, base + 2 * i)
  }

  /** The stop loop is a fixed point of the machine. */
  lemma StopLoops(image: Image, code: Code, at: int, s: State)
    requires Loaded(image, code) && ItemAt(image, at, Op(Opcode(10, 15, 15, 14))) && ItemAt(image, at + 2, Op(NOP))
    requires Alias(s.pc, at)
    ensures Step(code, s) == Some(s)
  {
    hide Loaded, Fetch, Plain, Exec, Half, Alias;
    HalfFetched(image, code, at, s.pc);
    AliasPlus(s.pc, at, 2);
    HalfFetched(image, code, at + 2, s.pc + 2);
    Instructions.Nop(s.cpu);
    assert Plus(s.pc, 0) == s.pc;
  }

  lemma {:induction false} StopsForever(code: Code, s: State, count: nat)
    requires Step(code, s) == Some(s)
    ensures Steps(code, s, count) == Some(s)
    decreases count
  {
    hide Step;
    if count > 0 { StopsForever(code, s, count - 1); }
  }

  lemma JumpHalfwords(image: Image, at: int)
    requires Matches(image, at, JumpAndStop())
    ensures ItemAt(image, at, Op(Opcode(4, 3, 2, 11))) && ItemAt(image, at + 2, Op(NOP))
    ensures ItemAt(image, at + 4, Op(Opcode(10, 15, 15, 14))) && ItemAt(image, at + 6, Op(NOP))
  {
    hide ItemAt;
    var items := JumpAndStop();
    assert ItemAt(image, at + 2 * 0, items[0]) && ItemAt(image, at + 2 * 1, items[1]);
    assert ItemAt(image, at + 2 * 2, items[2]) && ItemAt(image, at + 2 * 3, items[3]);
  }

  /** One step from inside writes nothing, and stays inside unless it is the jump. */
  lemma InsideStep(image: Image, code: Code, base: int, state: Word, exports: Word, s: State, i: int)
    requires Loaded(image, code) && GatewayAccepted(image, base, state, exports)
    requires AtHalfword(base, |Checks(state, exports)|, s.pc, i) && Step(code, s).Some?
    ensures var next := Step(code, s).value;
      && next.cpu.mem == s.cpu.mem && next.cpu.purged == s.cpu.purged
      && (i == |Checks(state, exports)| ==> next.pc == s.cpu.r[3])
      && (i != |Checks(state, exports)| ==> Inside(image, base, state, exports, next.pc))
  {
    hide Step, Loaded, Checks, Matches, Exec, ItemAt, Half, Alias, ChecksAt, RefusesTo;
    var checks := Checks(state, exports);
    var count := |checks|;
    JumpHalfwords(image, base + 2 * count);
    if i == count + 2 {
      StopLoops(image, code, base + 2 * count + 4, s);
    } else if i == count {
      JumpStep(image, code, base + 2 * count, s);
    } else {
      ChecksBenign(state, exports);
      ChecksGrow(image, base, checks, base + 2 * count + 4, i);
      assert Benign(checks[i]);
      if checks[i].Refuse? {
        var next := RefusalStep(image, code, base + 2 * i, checks[i].onTrue, base + 2 * count + 4, s);
        assert AtHalfword(base, count, next.pc, if s.cpu.t == checks[i].onTrue then count + 2 else i + 1);
      } else {
        ItemExecuted(image, code, base + 2 * i, checks[i].item, s);
        AliasPlus(s.pc, base + 2 * i, 2);
        assert AtHalfword(base, count, Plus(s.pc, 2), i + 1);
        if checks[i].item.Op? { LoadOnlyKeepsMemory(checks[i].item.op, s.cpu); }
      }
    }
  }

  lemma JumpStep(image: Image, code: Code, at: int, s: State)
    requires Loaded(image, code) && ItemAt(image, at, Op(Opcode(4, 3, 2, 11))) && ItemAt(image, at + 2, Op(NOP))
    requires Alias(s.pc, at)
    ensures Step(code, s) == Some(State(s.cpu.r[3], s.cpu))
  {
    hide Step, Loaded, Fetch, Exec, Half, Alias;
    HalfFetched(image, code, at, s.pc);
    AliasPlus(s.pc, at, 2);
    HalfFetched(image, code, at + 2, s.pc + 2);
    Instructions.Nop(s.cpu);
    StepJump(code, s, Opcode(4, 3, 2, 11), NOP);
  }

  /** True while a run has not yet taken the terminal jump. */
  ghost predicate NotLeft(code: Code, s: State, jump: int, count: nat) {
    forall m: nat :: m < count && Steps(code, s, m).Some? ==> !Alias(Steps(code, s, m).value.pc, jump)
  }

  /** However long an accepted gateway runs, until it jumps it stays inside and memory is untouched. */
  lemma {:induction false} GatewayNeverStores(image: Image, code: Code, base: int, state: Word, exports: Word,
    s: State, count: nat)
    requires Loaded(image, code) && GatewayAccepted(image, base, state, exports)
      && Inside(image, base, state, exports, s.pc)
    requires NotLeft(code, s, base + 2 * |Checks(state, exports)|, count) && Steps(code, s, count).Some?
    ensures Steps(code, s, count).value.cpu.mem == s.cpu.mem
    ensures Steps(code, s, count).value.cpu.purged == s.cpu.purged
    ensures Inside(image, base, state, exports, Steps(code, s, count).value.pc)
    decreases count
  {
    hide Step, Loaded, Checks, GatewayAccepted, Alias;
    if count > 0 {
      var i :| AtHalfword(base, |Checks(state, exports)|, s.pc, i);
      assert Steps(code, s, 0) == Some(s);
      assert i != |Checks(state, exports)|;
      InsideStep(image, code, base, state, exports, s, i);
      var next := Step(code, s).value;
      forall m: nat | m < count - 1 && Steps(code, next, m).Some?
        ensures !Alias(Steps(code, next, m).value.pc, base + 2 * |Checks(state, exports)|)
      {
        assert Steps(code, s, m + 1) == Steps(code, next, m);
      }
      GatewayNeverStores(image, code, base, state, exports, next, count - 1);
    }
  }

  /** The whole outcome: it jumps exactly when memory admits it, on the worker's own P1 stack; it faults
      exactly when a guard word cannot be read; otherwise it reaches the stop loop and stays there for ever. */
  lemma GatewayOutcome(image: Image, code: Code, base: int, state: Word, exports: Word, s: State) returns (end: State)
    requires Loaded(image, code) && GatewayAccepted(image, base, state, exports) && Alias(s.pc, base)
    ensures Reaches(code, s, end) && end.cpu.mem == s.cpu.mem
    ensures Admitted(s.cpu.mem, state, exports) ==>
      end.pc == Cell(s.cpu.mem, state, 4) && end.cpu.r[15] == Cached(exports)
    ensures Unreadable(s.cpu.mem, state, exports) ==> Step(code, end).None?
    ensures !Admitted(s.cpu.mem, state, exports) && !Unreadable(s.cpu.mem, state, exports) ==>
      Alias(end.pc, base + 2 * |Checks(state, exports)| + 4)
        && forall count: nat :: Steps(code, end, count) == Some(end)
  {
    hide Step, Loaded, Checks, RunChecks, Matches, Reaches, Alias, ItemAt, ChecksAt, Admitted, Unreadable, Cell, Steps,
      Minus;
    var checks := Checks(state, exports);
    var at := base + 2 * |checks|;
    ChecksBenign(state, exports);
    ChecksDecide(state, exports, s.cpu);
    var verdict := RunChecks(checks, s.cpu);
    var decided := ChecksExecute(image, code, base, checks, at + 4, s);
    JumpHalfwords(image, at);
    end := decided;
    if verdict.Passed? {
      JumpStep(image, code, at, decided);
      end := State(decided.cpu.r[3], decided.cpu);
      ReachesStep(code, decided, end);
      ReachesCompose(code, s, decided, end);
    } else if verdict.Stopped? {
      StopLoops(image, code, at + 4, end);
      forall count: nat ensures Steps(code, end, count) == Some(end) {
        StopsForever(code, end, count);
      }
    }
  }
}
