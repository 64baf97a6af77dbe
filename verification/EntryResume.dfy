/** Running the accepted trampoline and resume code around a relay. */
module EntryResume {
  import opened Words
  import opened Opcodes
  import opened Sh4
  import opened Cursor
  import opened Publication
  import opened EntryFrame
  import Instructions

  // ---------- the sequences, cut where control or memory changes ----------

  lemma TrampolineParts(resume: int)
    ensures |Trampoline(resume)| == 27
    ensures Trampoline(resume)[0..21] == Saves(FRAME_WORDS) && Trampoline(resume)[21..25] == MaskAndLoad(resume)
    ensures Trampoline(resume)[25] == Op(Opcode(4, 0, 2, 11)) && Trampoline(resume)[26] == Op(NOP)
    ensures AllStraight(Saves(FRAME_WORDS)) && AllStraight(MaskAndLoad(resume))
  {
  }

  function Resume(relay: int): seq<Item> { ResumeHead(relay) + ResumeTail() }

  lemma HeadParts(relay: int)
    ensures |Resume(relay)| == 66
    ensures Resume(relay)[0..4] == KeepFrame() && Resume(relay)[4..10] == Publish()
    ensures Resume(relay)[10..13] == ScanMode() && Resume(relay)[13..21] == Nops()
    ensures Resume(relay)[21..24] == Arguments(relay)
    ensures Resume(relay)[24] == Op(Opcode(4, 0, 0, 11)) && Resume(relay)[25] == Op(NOP)
    ensures AllStraight(KeepFrame()) && AllStraight(ScanMode()) && AllStraight(Nops()) && AllStraight(Arguments(relay))
  {
  }

  lemma TailParts(relay: int)
    ensures |Resume(relay)| == 66
    ensures Resume(relay)[26..30] == RestoreMode() && Resume(relay)[30..38] == Nops()
    ensures Resume(relay)[38..45] == RestoreControls() && Resume(relay)[45..59] == Pops(14)
    ensures Resume(relay)[59..64] == RestoreSr()
    ensures Resume(relay)[64] == Op(Opcode(4, 0, 2, 11)) && Resume(relay)[65] == Op(Opcode(6, 0, 15, 6))
  {
  }

  lemma TailStraight()
    ensures AllStraight(RestoreMode()) && AllStraight(Nops()) && AllStraight(RestoreControls())
    ensures AllStraight(Pops(14)) && AllStraight(RestoreSr())
  {
  }

  // ---------- entry to relay ----------

  /** The trampoline saves the frame, masks interrupts and enters the uncached resume code. */
  lemma TrampolineRuns(image: Image, code: Code, start: int, resume: int, s: State) returns (next: State)
    requires Loaded(image, code) && Matches(image, start, Trampoline(resume)) && Alias(s.pc, start)
    requires s.cpu.r[15] % 4 == 0
    ensures 0 <= resume + UNCACHED < 0x1_0000_0000
    ensures next == State(resume + UNCACHED, Masked(Saved(s.cpu, FRAME_WORDS), resume + UNCACHED))
    ensures Reaches(code, s, next)
  {
    hide Step, Exec, ApplyAll, Loaded, Reaches, Alias, Half, Long, Saved, Masked, Trampoline;
    var items := Trampoline(resume);
    TrampolineParts(resume);
    assert items[24] == items[21..25][3] == Lit(0, resume + UNCACHED);
    assert ItemAt(image, start + 2 * 24, items[24]);
    hide Matches, Saves, MaskAndLoad, AllStraight;
    SavesRun(s.cpu, FRAME_WORDS);
    var saved := PartReached(image, code, start, items, 0, Saves(FRAME_WORDS), s, Saved(s.cpu, FRAME_WORDS));
    MaskRuns(saved.cpu, resume);
    var masked := Masked(saved.cpu, resume + UNCACHED);
    var loaded := PartReached(image, code, start, items, 21, MaskAndLoad(resume), saved, masked);
    ReachesCompose(code, s, saved, loaded);
    Instructions.Nop(masked);
    next := JumpReached(image, code, start, items, 25, Opcode(4, 0, 2, 11), NOP, loaded, masked);
    ReachesCompose(code, s, loaded, next);
    MaskedLoads(saved.cpu, resume + UNCACHED);
  }

  lemma MaskedLoads(cpu: Cpu, resume: Word)
    ensures Masked(cpu, resume).r[0] == resume
  {
    hide OrWord;
  }

  /** The resume code hands the frame and the owner's cache mode to the relay. */
  lemma HeadRuns(image: Image, code: Code, resume: int, relay: Word, s: State) returns (call: State)
    requires Loaded(image, code) && Matches(image, resume, Resume(relay)) && Alias(s.pc, resume)
    ensures Reaches(code, s, call) && call.pc == relay && Alias(call.cpu.pr, resume + 52)
    ensures call.cpu.r[4] == call.cpu.r[8] == s.cpu.r[15]
    ensures call.cpu.r[5] == call.cpu.r[9] == Peek(s.cpu.mem, CCR)
    ensures call.cpu.mem == s.cpu.mem[CCR := 0x908]
    ensures call.cpu.upper == s.cpu.upper && call.cpu.bank == s.cpu.bank
    ensures call.cpu.purged == s.cpu.purged + Lines(0)
  {
    hide Step, Exec, ApplyAll, Loaded, Reaches, Alias, Resume, AllStraight, Publish, Lines, Matches;
    var items := Resume(relay);
    HeadParts(relay);
    var c1 := Put(Put(Put(Put(s.cpu, 8, s.cpu.r[15]), 15, 0x8cff_0000), 0, CCR), 9, Peek(s.cpu.mem, CCR));
    KeepFrameRuns(s.cpu, c1);
    var kept := PartReached(image, code, resume, items, 0, KeepFrame(), s, c1);
    MatchesPart(image, resume, items, 4, 10);
    PublishRuns(image, code, resume + 8, kept);
    var published := State(Plus(kept.pc, 12), Published(c1));
    ReachesCompose(code, s, kept, published);
    AliasPlus(kept.pc, resume + 8, 12);
    var call' := RelayCalled(image, code, resume, relay, published);
    ReachesCompose(code, s, published, call');
    call := call';
  }

  lemma RelayCalled(image: Image, code: Code, resume: int, relay: Word, s: State) returns (call: State)
    requires Loaded(image, code) && Matches(image, resume, Resume(relay)) && Alias(s.pc, resume + 20)
    ensures Reaches(code, s, call) && call.pc == relay && Alias(call.cpu.pr, resume + 52)
    ensures call.cpu.r[4] == call.cpu.r[8] == s.cpu.r[8] && call.cpu.r[5] == call.cpu.r[9] == s.cpu.r[9]
    ensures call.cpu.mem == s.cpu.mem[CCR := 0x908]
    ensures call.cpu.upper == s.cpu.upper && call.cpu.bank == s.cpu.bank && call.cpu.purged == s.cpu.purged
  {
    hide Step, Exec, ApplyAll, Loaded, Reaches, Alias, Resume, AllStraight, Matches;
    var items := Resume(relay);
    HeadParts(relay);
    var c2 := Put(Put(s.cpu, 0, CCR), 1, 0x908).(mem := s.cpu.mem[CCR := 0x908]);
    ScanModeRuns(s.cpu);
    var scanning := PartReached(image, code, resume, items, 10, ScanMode(), s, c2);
    NopsRun(8, c2);
    var settled := PartReached(image, code, resume, items, 13, Nops(), scanning, c2);
    ReachesCompose(code, s, scanning, settled);
    var c3 := Put(Put(Put(c2, 4, c2.r[8]), 5, c2.r[9]), 0, relay);
    ArgumentsRun(c2, relay, c3);
    var ready := PartReached(image, code, resume, items, 21, Arguments(relay), settled, c3);
    ReachesCompose(code, s, settled, ready);
    var linked := c3.(pr := Plus(ready.pc, 4));
    Instructions.Nop(linked);
    call := JumpReached(image, code, resume, items, 24, Opcode(4, 0, 0, 11), NOP, ready, linked);
    ReachesCompose(code, s, ready, call);
    AliasPlus(ready.pc, resume + 48, 4);
  }

  // ---------- relay to owner ----------

  lemma RestoreModeRuns(cpu: Cpu) returns (after: Cpu)
    ensures ApplyAll(RestoreMode(), cpu) == Running(after)
    ensures after.mem == cpu.mem[CCR := OrWord(0x808, cpu.r[9])]
    ensures after == cpu.(r := after.r, mem := after.mem)
    ensures forall i: Nibble {:trigger after.r[i]} :: i >= 2 ==> after.r[i] == cpu.r[i]
  {
    hide Exec, ApplyAll, Put, OrWord;
    var c1 := Put(cpu, 0, 0x808);
    PutFrame(cpu, 0, 0x808);
    var mode := OrWord(0x808, cpu.r[9]);
    var c2 := Put(c1, 0, mode);
    PutFrame(c1, 0, mode);
    assert Apply(Op(Opcode(2, 0, 9, 11)), c1) == Running(c2) by { Instructions.OrRegister(0, 9, c1); }
    var c3 := Put(c2, 1, CCR);
    PutFrame(c2, 1, CCR);
    StoreCcr(1, 0, c3);
    after := c3.(mem := c3.mem[CCR := c3.r[0]]);
    ApplyFour(Lit(0, 0x808), Op(Opcode(2, 0, 9, 11)), Lit(1, CCR), Op(Opcode(2, 1, 0, 2)), cpu, c1, c2, c3, after);
  }

  /** Pops one system register: MACH, MACL, PR by LDS.L, GBR and VBR by LDC.L. */
  lemma PopsSystem(op: Opcode, base: Word, k: int, cpu: Cpu, after: Cpu)
    requires base % 4 == 0 && 0 <= k < FRAME_WORDS && cpu.r[15] == StackWord(base, k)
    requires op.top == 4 && op.n == 15 && ((op.low == 6 && op.m in {0, 1, 2}) || (op.low == 7 && op.m in {1, 2}))
    requires after == (
      var v := Stored(cpu.mem, base, k);
      var up := Put(cpu, 15, StackWord(base, k + 1));
      if op.low == 6 then (if op.m == 0 then up.(mach := v) else if op.m == 1 then up.(macl := v) else up.(pr := v))
      else (if op.m == 1 then up.(gbr := v) else up.(vbr := v)))
    ensures Apply(Op(op), cpu) == Running(after)
  {
    hide Exec, Put, Key, StackWord;
    StackWordMoves(base, 0, k);
    StackWordAligned(base, k);
    if op.low == 6 { Instructions.PopRegister(15, op.m, cpu); } else { Instructions.PopControl(15, op.m, cpu); }
  }

  /** MACL, MACH, GBR, VBR and PR come back from words 0-3 and 5; SR is skipped. */
  lemma RestoreControlsRun(cpu: Cpu, base: Word) returns (after: Cpu)
    requires base % 4 == 0 && cpu.r[8] == base
    ensures ApplyAll(RestoreControls(), cpu) == Running(after)
    ensures after == cpu.(r := after.r, macl := Stored(cpu.mem, base, 0), mach := Stored(cpu.mem, base, 1),
      gbr := Stored(cpu.mem, base, 2), vbr := Stored(cpu.mem, base, 3), pr := Stored(cpu.mem, base, 5))
    ensures after.r[15] == StackWord(base, 6)
    ensures forall i: Nibble {:trigger after.r[i]} :: i < 15 ==> after.r[i] == cpu.r[i]
  {
    hide Exec, ApplyAll, Put, Stored, StackWord;
    StackWordMoves(base, 0, 0);
    StackWordMoves(base, 0, 4);
    var items := RestoreControls();
    var c0 := Put(cpu, 15, base);
    PutFrame(cpu, 15, base);
    assert Apply(Op(Opcode(6, 15, 8, 3)), cpu) == Running(c0) by { Instructions.Mov(15, 8, cpu); }
    var c1 := Put(c0, 15, StackWord(base, 1)).(macl := Stored(cpu.mem, base, 0));
    PutFrame(c0, 15, StackWord(base, 1));
    PopsSystem(Opcode(4, 15, 1, 6), base, 0, c0, c1);
    var c2 := Put(c1, 15, StackWord(base, 2)).(mach := Stored(cpu.mem, base, 1));
    PutFrame(c1, 15, StackWord(base, 2));
    PopsSystem(Opcode(4, 15, 0, 6), base, 1, c1, c2);
    var c3 := Put(c2, 15, StackWord(base, 3)).(gbr := Stored(cpu.mem, base, 2));
    PutFrame(c2, 15, StackWord(base, 3));
    PopsSystem(Opcode(4, 15, 1, 7), base, 2, c2, c3);
    ApplyFour(items[0], items[1], items[2], items[3], cpu, c0, c1, c2, c3);
    var c4 := Put(c3, 15, StackWord(base, 4)).(vbr := Stored(cpu.mem, base, 3));
    PutFrame(c3, 15, StackWord(base, 4));
    PopsSystem(Opcode(4, 15, 2, 7), base, 3, c3, c4);
    var c5 := Put(c4, 15, StackWord(base, 5));
    PutFrame(c4, 15, StackWord(base, 5));
    assert Apply(Op(Opcode(7, 15, 0, 4)), c4) == Running(c5) by { Instructions.AddImmediate(15, 0, 4, c4); }
    after := Put(c5, 15, StackWord(base, 6)).(pr := Stored(cpu.mem, base, 5));
    PutFrame(c5, 15, StackWord(base, 6));
    PopsSystem(Opcode(4, 15, 2, 6), base, 5, c5, after);
    ApplyThree(items[4], items[5], items[6], c3, c4, c5, after);
    ApplyAppend([items[0], items[1], items[2], items[3]], [items[4], items[5], items[6]], cpu);
    assert items == [items[0], items[1], items[2], items[3]] + [items[4], items[5], items[6]];
  }

  /** r14 down to r(15 - count), from words 6 upwards. */
  function Popped(cpu: Cpu, base: Word, count: int): Cpu
    requires base % 4 == 0 && 0 <= count <= 14
  {
    if count == 0 then cpu
    else Put(Put(Popped(cpu, base, count - 1), 15, StackWord(base, 6 + count)), 15 - count,
      Stored(cpu.mem, base, 5 + count))
  }

  lemma {:induction false} PoppedFrame(cpu: Cpu, base: Word, count: int)
    requires base % 4 == 0 && 0 <= count <= 14 && cpu.r[15] == StackWord(base, 6)
    ensures Popped(cpu, base, count) == cpu.(r := Popped(cpu, base, count).r)
    ensures Popped(cpu, base, count).r[15] == StackWord(base, 6 + count)
    ensures forall i: Nibble {:trigger Popped(cpu, base, count).r[i]} :: 15 - count <= i < 15 ==>
      Popped(cpu, base, count).r[i] == Stored(cpu.mem, base, 20 - i)
    decreases count
  {
    hide Put, Stored;
    if count > 0 {
      PoppedFrame(cpu, base, count - 1);
      var mid := Popped(cpu, base, count - 1);
      PutFrame(mid, 15, StackWord(base, 6 + count));
      PutFrame(Put(mid, 15, StackWord(base, 6 + count)), 15 - count, Stored(cpu.mem, base, 5 + count));
    }
  }

  lemma {:induction false} PopsRun(cpu: Cpu, base: Word, count: int)
    requires base % 4 == 0 && 0 <= count <= 14 && cpu.r[15] == StackWord(base, 6)
    ensures ApplyAll(Pops(count), cpu) == Running(Popped(cpu, base, count))
    decreases count
  {
    hide Exec, Put, Key, StackWord;
    if count > 0 {
      StackWordMoves(base, 0, 5 + count);
      StackWordAligned(base, 5 + count);
      PopsRun(cpu, base, count - 1);
      PoppedFrame(cpu, base, count - 1);
      var mid := Popped(cpu, base, count - 1);
      var last := Op(Opcode(6, 15 - count, 15, 6));
      assert Pops(count) == Pops(count - 1) + [last];
      ApplyAppend(Pops(count - 1), [last], cpu);
      assert Apply(last, mid) == Running(Popped(cpu, base, count)) by {
        Instructions.PopLong(15 - count, 15, mid);
        PutFrame(mid, 15, StackWord(base, 6 + count));
      }
      ApplyOne(last, mid, Popped(cpu, base, count));
    }
  }

  /** SR is read back through r0, and r0 then names the executable entry. */
  lemma RestoreSrRuns(cpu: Cpu, base: Word) returns (after: Cpu)
    requires base % 4 == 0 && cpu.r[15] == StackWord(base, 20)
    ensures ApplyAll(RestoreSr(), cpu) == Running(after)
    ensures Sr(after) == Stored(cpu.mem, base, 4) && after.r[0] == ENTRY
    ensures after == cpu.(r := after.r, bank := after.bank, upper := after.upper, t := after.t)
    ensures forall i: Nibble {:trigger after.r[i]} :: 8 <= i ==> after.r[i] == cpu.r[i]
    ensures forall i: Nibble {:trigger after.r[i]} :: 1 <= i < 8 ==>
      after.r[i] == if BankSelected(after.upper) == BankSelected(cpu.upper) then cpu.r[i] else cpu.bank[i]
  {
    hide Exec, ApplyAll, Put, Stored, BankSelected;
    var c1 := Put(cpu, 0, StackWord(base, 20));
    PutFrame(cpu, 0, StackWord(base, 20));
    assert Apply(Op(Opcode(6, 0, 15, 3)), cpu) == Running(c1) by { Instructions.Mov(0, 15, cpu); }
    var c2 := Put(c1, 0, StackWord(base, 4));
    PutFrame(c1, 0, StackWord(base, 4));
    assert Apply(Op(Opcode(7, 0, 12, 0)), c1) == Running(c2) by {
      Instructions.AddImmediate(0, 12, 0, c1);
      StackWordMoves(base, 20, -16);
    }
    var sr := Stored(cpu.mem, base, 4);
    var c3 := Put(c2, 0, sr);
    PutFrame(c2, 0, sr);
    assert Apply(Op(Opcode(6, 0, 0, 2)), c2) == Running(c3) by { LoadsWord4(c2, base); }
    var c4 := SetSr(c3, sr);
    assert Apply(Op(Opcode(4, 0, 0, 14)), c3) == Running(c4) by { hide SetSr; Instructions.Ldc(0, 0, c3); }
    after := Put(c4, 0, ENTRY);
    PutFrame(c4, 0, ENTRY);
    ApplyFour(Op(Opcode(6, 0, 15, 3)), Op(Opcode(7, 0, 12, 0)), Op(Opcode(6, 0, 0, 2)), Op(Opcode(4, 0, 0, 14)), cpu,
      c1, c2, c3, c4);
    ApplyOne(Lit(0, ENTRY), c4, after);
    var first := [Op(Opcode(6, 0, 15, 3)), Op(Opcode(7, 0, 12, 0)), Op(Opcode(6, 0, 0, 2)), Op(Opcode(4, 0, 0, 14))];
    ApplyAppend(first, [Lit(0, ENTRY)], cpu);
    assert RestoreSr() == first + [Lit(0, ENTRY)];
  }

  lemma LoadsWord4(cpu: Cpu, base: Word)
    requires base % 4 == 0 && cpu.r[0] == StackWord(base, 4)
    ensures Apply(Op(Opcode(6, 0, 0, 2)), cpu) == Running(Put(cpu, 0, Stored(cpu.mem, base, 4)))
  {
    hide Exec, Put, Key, StackWord;
    StackWordAligned(base, 4);
    Instructions.LoadLong(0, 0, cpu);
  }

  /** Writing the cache mode changes a frame word only where the frame lies over the cache control register. */
  lemma CcrInFrame(mem: Memory, mode: Word, base: Word, k: int)
    ensures Stored(mem[CCR := mode], base, k) == if StackWord(base, k) == CCR then mode else Stored(mem, base, k)
  {
    hide Key, StackWord;
    CcrDiffers(base, k);
  }

  /** The registers the resume code leaves, from the frame as it is once the cache mode is restored. */
  ghost predicate Resumed(back: Cpu, base: Word, final: Cpu) {
    var mem := back.mem[CCR := OrWord(0x808, back.r[9])];
    && final.macl == Stored(mem, base, 0) && final.mach == Stored(mem, base, 1)
    && final.gbr == Stored(mem, base, 2) && final.vbr == Stored(mem, base, 3)
    && Sr(final) == Stored(mem, base, 4) && final.pr == Stored(mem, base, 5)
    && final.r[15] == StackWord(base, 21) && final.mem == mem
    && (forall i: Nibble {:trigger final.r[i]} :: i == 0 || 8 <= i < 15 ==> final.r[i] == Stored(mem, base, 20 - i))
    && (forall i: Nibble {:trigger final.r[i]} :: 1 <= i < 8 ==>
          final.r[i] == if BankSelected(final.upper) == BankSelected(back.upper)
                        then Stored(mem, base, 20 - i) else back.bank[i])
  }

  lemma TailRuns(image: Image, code: Code, resume: int, relay: Word, back: State, base: Word) returns (final: State)
    requires Loaded(image, code) && Matches(image, resume, Resume(relay)) && Alias(back.pc, resume + 52)
    requires base % 4 == 0 && back.cpu.r[8] == base
    ensures Reaches(code, back, final) && final.pc == 0xac01_0000 && Resumed(back.cpu, base, final.cpu)
  {
    hide Step, Exec, ApplyAll, Loaded, Reaches, Alias, Resume, AllStraight, Matches, Stored, BankSelected, OrWord,
      Popped, Put;
    var items := Resume(relay);
    TailParts(relay);
    TailStraight();
    var c1 := RestoreModeRuns(back.cpu);
    var s1 := PartReached(image, code, resume, items, 26, RestoreMode(), back, c1);
    NopsRun(8, c1);
    var s2 := PartReached(image, code, resume, items, 30, Nops(), s1, c1);
    ReachesCompose(code, back, s1, s2);
    var c3 := RestoreControlsRun(c1, base);
    var s3 := PartReached(image, code, resume, items, 38, RestoreControls(), s2, c3);
    ReachesCompose(code, back, s2, s3);
    PopsRun(c3, base, 14);
    PoppedFrame(c3, base, 14);
    var c4 := Popped(c3, base, 14);
    var s4 := PartReached(image, code, resume, items, 45, Pops(14), s3, c4);
    ReachesCompose(code, back, s3, s4);
    var c5 := RestoreSrRuns(c4, base);
    var s5 := PartReached(image, code, resume, items, 59, RestoreSr(), s4, c5);
    ReachesCompose(code, back, s4, s5);
    var c6 := FinalSlot(c5, base);
    final := JumpReached(image, code, resume, items, 64, Opcode(4, 0, 2, 11), Opcode(6, 0, 15, 6), s5, c6);
    ReachesCompose(code, back, s5, final);
  }

  lemma FinalSlot(cpu: Cpu, base: Word) returns (after: Cpu)
    requires base % 4 == 0 && cpu.r[15] == StackWord(base, 20)
    ensures Exec(Opcode(6, 0, 15, 6), cpu) == Running(after)
    ensures after == cpu.(r := after.r) && after.r[15] == StackWord(base, 21) && after.r[0] == Stored(cpu.mem, base, 20)
    ensures forall i: Nibble {:trigger after.r[i]} :: 0 < i < 15 ==> after.r[i] == cpu.r[i]
  {
    hide Exec, Put, Key, StackWord;
    StackWordMoves(base, 0, 20);
    StackWordAligned(base, 20);
    Instructions.PopLong(0, 15, cpu);
    var up := Put(cpu, 15, StackWord(base, 21));
    PutFrame(cpu, 15, StackWord(base, 21));
    after := Put(up, 0, Stored(cpu.mem, base, 20));
    PutFrame(up, 0, Stored(cpu.mem, base, 20));
  }

  // ---------- the whole round trip ----------

  function FrameBase(owner: Cpu): Word { StackWord(owner.r[15], -FRAME_WORDS) }

  /** Word k of the owner's frame lies over the cache control register. */
  predicate OverCcr(owner: Cpu, k: int) { StackWord(FrameBase(owner), k) == CCR }

  /** The cache mode the resume code reads: the owner's, unless the frame was saved over it. */
  function CcrSeen(owner: Cpu): Word { Peek(SavedMemory(owner, FRAME_WORDS), CCR) }

  lemma CcrSeenExactly(owner: Cpu)
    ensures forall k :: 0 <= k < FRAME_WORDS && OverCcr(owner, k) ==> CcrSeen(owner) == FrameWord(owner, k)
    ensures (forall k :: 0 <= k < FRAME_WORDS ==> !OverCcr(owner, k)) ==> CcrSeen(owner) == Peek(owner.mem, CCR)
  {
    hide Key, FrameWord, StackWord, SavedMemory;
    CcrKey();
    forall k | 0 <= k < FRAME_WORDS && OverCcr(owner, k) ensures CcrSeen(owner) == FrameWord(owner, k) {
      SavedMemoryHolds(owner, FRAME_WORDS, k);
    }
    if forall k :: 0 <= k < FRAME_WORDS ==> !OverCcr(owner, k) { SavedMemoryElsewhere(owner, FRAME_WORDS); }
  }

  lemma {:induction false} SavedMemoryElsewhere(owner: Cpu, count: int)
    requires 0 <= count <= FRAME_WORDS && forall k :: 0 <= k < FRAME_WORDS ==> !OverCcr(owner, k)
    ensures Peek(SavedMemory(owner, count), CCR) == Peek(owner.mem, CCR)
    decreases count
  {
    hide Key, FrameWord, StackWord;
    if count > 0 {
      SavedMemoryElsewhere(owner, count - 1);
      var sp := owner.r[15];
      StackWordMoves(sp, -FRAME_WORDS, FRAME_WORDS - count);
      CcrDiffers(sp, -count);
      assert !OverCcr(owner, FRAME_WORDS - count);
    }
  }

  /** What the relay finds: the frame, and its address and the cache mode as arguments.  Scan mode was set
      over a frame word if the frame lies there. */
  ghost predicate RelayEntered(owner: Cpu, relay: Word, call: State) {
    var base := FrameBase(owner);
    && call.pc == relay
    && call.cpu.r[4] == call.cpu.r[8] == base
    && call.cpu.r[5] == call.cpu.r[9] == CcrSeen(owner)
    && BankSelected(call.cpu.upper) == BankSelected(owner.upper)
    && call.cpu.purged == owner.purged + Lines(0)
    && forall k {:trigger Stored(call.cpu.mem, base, k)} :: 0 <= k < FRAME_WORDS ==>
         Stored(call.cpu.mem, base, k) == if OverCcr(owner, k) then 0x908 else FrameWord(owner, k)
  }

  /** The relay's contract: it returns, keeps r8 and r9, and rewrites at most word 5 of the frame. */
  ghost predicate RelayReturns(owner: Cpu, call: State, back: State) {
    var base := FrameBase(owner);
    && back.pc == call.cpu.pr && back.cpu.r[8] == call.cpu.r[8] && back.cpu.r[9] == call.cpu.r[9]
    && forall k {:trigger Stored(back.cpu.mem, base, k)} :: 0 <= k < FRAME_WORDS && k != 5 ==>
         Stored(back.cpu.mem, base, k) == Stored(call.cpu.mem, base, k)
  }

  /** Where the relay call returns: just after its delay slot. */
  function ReturnPoint(image: Image): int
    requires "_kui_disc_vmu_game_resume" in image.symbols
  {
    var resume: int := image.symbols["_kui_disc_vmu_game_resume"];
    resume + 52
  }

  /** A trampoline standing anywhere delivers the owner's complete frame to the relay. */
  lemma TemplateReachesRelay(image: Image, code: Code, template: Image, at: int, owner: State) returns (call: State)
    requires Loaded(image, code) && EntryAccepted(image) && owner.cpu.r[15] % 4 == 0
    requires Loaded(template, code) && Matches(template, at, Trampoline(image.symbols["_kui_disc_vmu_game_resume"]))
    requires Alias(owner.pc, at)
    ensures Reaches(code, owner, call)
    ensures RelayEntered(owner.cpu, image.symbols["_kui_disc_vmu_stage_relay"], call)
    ensures Alias(call.cpu.pr, ReturnPoint(image))
  {
    hide Step, Loaded, Reaches, Matches, Trampoline, ResumeHead, ResumeTail, BankSelected, Lines, Stored, FrameWord,
      SavedMemory, Physical, StackWord;
    var resume, relay := image.symbols["_kui_disc_vmu_game_resume"], image.symbols["_kui_disc_vmu_stage_relay"];
    var inside := TrampolineRuns(template, code, at, resume, owner);
    PhysicalPeriod(resume, 1);
    call := HeadRuns(image, code, resume, relay, inside);
    ReachesCompose(code, owner, inside, call);
    var saved := Saved(owner.cpu, FRAME_WORDS);
    var base := FrameBase(owner.cpu);
    MaskKeepsBank(saved);
    forall k | 0 <= k < FRAME_WORDS
      ensures Stored(call.cpu.mem, base, k) == if OverCcr(owner.cpu, k) then 0x908 else FrameWord(owner.cpu, k)
    {
      SavedMemoryHolds(owner.cpu, FRAME_WORDS, k);
      CcrInFrame(saved.mem, 0x908, base, k);
    }
  }

  // ---------- what the owner gets back ----------

  /** Word k as it is restored: as saved, word 5 as the relay left it, and a word over the cache control
      register with the invalidation bits of the restored mode. */
  function Returned(owner: Cpu, back: Cpu, k: int): Word
    requires 0 <= k < FRAME_WORDS
  {
    if OverCcr(owner, k) then OrWord(0x808, FrameWord(owner, k))
    else if k == 5 then Stored(back.mem, FrameBase(owner), 5)
    else FrameWord(owner, k)
  }

  predicate SameBank(owner: Cpu, back: Cpu) { BankSelected(back.upper) == BankSelected(owner.upper) }

  /** Every register at the executable entry, for every owner. */
  ghost predicate OwnerReturned(owner: Cpu, back: Cpu, final: Cpu) {
    && final.macl == Returned(owner, back, 0) && final.mach == Returned(owner, back, 1)
    && final.gbr == Returned(owner, back, 2) && final.vbr == Returned(owner, back, 3)
    && Sr(final) == Returned(owner, back, 4) && final.pr == Returned(owner, back, 5)
    && final.r[15] == owner.r[15] && Peek(final.mem, CCR) == OrWord(0x808, CcrSeen(owner))
    && (forall i: Nibble {:trigger final.r[i]} :: i == 0 || 8 <= i < 15 ==> final.r[i] == Returned(owner, back, 20 - i))
    && forall i: Nibble {:trigger final.r[i]} :: 1 <= i < 8 ==>
         final.r[i] == if SameBank(owner, back) then Returned(owner, back, 20 - i) else back.bank[i]
  }

  /** The promise: everything as saved, PR from word 5.  r1-r7 come back exactly when the relay returned with
      the owner's register bank selected; otherwise restoring SR exchanges them for the other bank. */
  ghost predicate OwnerRestored(owner: Cpu, back: Cpu, final: Cpu) {
    && final.macl == owner.macl && final.mach == owner.mach && final.gbr == owner.gbr && final.vbr == owner.vbr
    && Sr(final) == Sr(owner) && final.pr == Stored(back.mem, FrameBase(owner), 5)
    && final.r[15] == owner.r[15]
    && (forall i: Nibble {:trigger final.r[i]} :: i == 0 || 8 <= i < 15 ==> final.r[i] == owner.r[i])
    && forall i: Nibble {:trigger final.r[i]} :: 1 <= i < 8 ==>
         final.r[i] == if SameBank(owner, back) then owner.r[i] else back.bank[i]
  }

  /** A word over the cache control register does no harm: it is not restored from, or has the bits already. */
  predicate Harmless(owner: Cpu, back: Cpu, k: int)
    requires 0 <= k < FRAME_WORDS
  {
    var kept := if k == 5 then Stored(back.mem, FrameBase(owner), 5) else FrameWord(owner, k);
    (13 <= k <= 19 && !SameBank(owner, back)) || OrWord(0x808, FrameWord(owner, k)) == kept
  }

  /** The promise is kept exactly when no word of the frame lies over the cache control register, or the one
      that does is harmless. */
  lemma RestoredExactly(owner: Cpu, back: Cpu, final: Cpu)
    requires OwnerReturned(owner, back, final)
    ensures OwnerRestored(owner, back, final) <==>
      forall k :: 0 <= k < FRAME_WORDS && OverCcr(owner, k) ==> Harmless(owner, back, k)
  {
    hide Stored, BankSelected, OrWord, StackWord, Sr;
    if OwnerRestored(owner, back, final) {
      forall k | 0 <= k < FRAME_WORDS && OverCcr(owner, k) ensures Harmless(owner, back, k) {
        if k >= 6 {
          var i: Nibble := 20 - k;
          assert final.r[i] == (if 1 <= i < 8 && !SameBank(owner, back) then back.bank[i] else owner.r[i]);
        }
      }
    }
    if forall k :: 0 <= k < FRAME_WORDS && OverCcr(owner, k) ==> Harmless(owner, back, k) {
      forall k | 0 <= k < FRAME_WORDS
        ensures (13 <= k <= 19 && !SameBank(owner, back))
          || Returned(owner, back, k) == if k == 5 then Stored(back.mem, FrameBase(owner), 5) else FrameWord(owner, k)
      {
        assert OverCcr(owner, k) ==> Harmless(owner, back, k);
      }
    }
  }

  /** For every accepted image, every aligned owner stack and every relay that keeps its contract. */
  lemma EntryRoundTrip(image: Image, code: Code, owner: State, call: State, back: State) returns (final: State)
    requires Loaded(image, code) && EntryAccepted(image) && owner.cpu.r[15] % 4 == 0
    requires RelayEntered(owner.cpu, image.symbols["_kui_disc_vmu_stage_relay"], call)
    requires Alias(call.cpu.pr, ReturnPoint(image))
    requires RelayReturns(owner.cpu, call, back)
    ensures Reaches(code, back, final) && final.pc == 0xac01_0000
    ensures OwnerReturned(owner.cpu, back.cpu, final.cpu)
    ensures OwnerRestored(owner.cpu, back.cpu, final.cpu) <==>
      forall k :: 0 <= k < FRAME_WORDS && OverCcr(owner.cpu, k) ==> Harmless(owner.cpu, back.cpu, k)
  {
    hide Step, Loaded, Reaches, Matches, Trampoline, ResumeHead, ResumeTail, BankSelected, Lines, Key, Alias, OrWord,
      StackWord, OwnerReturned, OwnerRestored, Harmless, CcrSeen, FrameWord, Resumed;
    var resume := image.symbols["_kui_disc_vmu_game_resume"];
    var relay := image.symbols["_kui_disc_vmu_stage_relay"];
    var base := FrameBase(owner.cpu);
    StackWordAligned(owner.cpu.r[15], -FRAME_WORDS);
    final := TailRuns(image, code, resume, relay, back, base);
    forall k | 0 <= k < FRAME_WORDS && k != 5 && !OverCcr(owner.cpu, k)
      ensures Stored(back.cpu.mem, base, k) == FrameWord(owner.cpu, k)
    {
      assert Stored(back.cpu.mem, base, k) == Stored(call.cpu.mem, base, k);
    }
    RegistersReturn(owner.cpu, back.cpu, final.cpu);
    RestoredExactly(owner.cpu, back.cpu, final.cpu);
  }

  lemma RegistersReturn(owner: Cpu, back: Cpu, final: Cpu)
    requires var base := FrameBase(owner);
      && Resumed(back, base, final) && back.r[9] == CcrSeen(owner)
      && forall k {:trigger Stored(back.mem, base, k)} :: 0 <= k < FRAME_WORDS && k != 5 && !OverCcr(owner, k) ==>
           Stored(back.mem, base, k) == FrameWord(owner, k)
    ensures OwnerReturned(owner, back, final)
  {
    hide Stored, BankSelected, OrWord, StackWord, CcrSeen;
    var base := FrameBase(owner);
    StackWordMoves(owner.r[15], -FRAME_WORDS, FRAME_WORDS);
    StackWordMoves(owner.r[15], 0, 0);
    CcrSeenExactly(owner);
    var mem := back.mem[CCR := OrWord(0x808, back.r[9])];
    forall k | 0 <= k < FRAME_WORDS ensures Stored(mem, base, k) == Returned(owner, back, k) {
      CcrInFrame(back.mem, OrWord(0x808, back.r[9]), base, k);
    }
    assert Sr(final) == Returned(owner, back, 4);
    FinalBank(owner, back, final);
  }

  /** The restored SR selects the owner's bank, with or without the invalidation bits. */
  lemma FinalBank(owner: Cpu, back: Cpu, final: Cpu)
    requires Sr(final) == Returned(owner, back, 4)
    ensures BankSelected(final.upper) == BankSelected(owner.upper)
  {
    hide StackWord;
    if OverCcr(owner, 4) {
      OrKeepsBank(Sr(owner), 0x808);
      assert final.upper == OrWord(0x808, Sr(owner)) / 2;
    } else {
      assert final.upper == owner.upper;
    }
  }

  lemma OrKeepsBank(sr: Word, mask: Word)
    requires mask == 0x808
    ensures BankSelected(OrWord(mask, sr) / 2) == BankSelected(sr / 2)
  {
    var masked := OrWord(mask, sr);
    OrCommutes(mask, sr);
    assert Shift(0x808, 12) == 0;
    ShiftCompose(0x808, 12, 18);
    ShiftZero(18);
    ShiftCompose(0x808, 12, 17);
    ShiftZero(17);
    OrKeepsHighBits(sr, 0x808, 30);
    OrKeepsHighBits(sr, 0x808, 29);
    assert Shift(masked / 2, 29) == Shift(sr / 2, 29);
    assert Shift(masked / 2, 28) == Shift(sr / 2, 28);
  }
}
