/** The disc stage's bootstrap wrapper: publish all of RAM, set a fixed CPU
    state and enter the second bootstrap. */
module Bootstrap {
  import opened Words
  import opened Opcodes
  import opened Sh4
  import opened Cursor
  import opened Publication
  import opened EntryFrame
  import Instructions

  const BOOTSTRAP2: Word := 0xac00_e000
  const STACK: Word := 0x8c00_f400
  const STATUS: Word := 0x7000_00f0

  function Enter(entry: nat): seq<Item> {
    [Lit(0, Or(entry + 6, 0x2000_0000)), Op(Opcode(4, 0, 2, 11)), Op(NOP)]
  }

  function CacheMode(): seq<Item> { [Lit(0, CCR), Lit(1, 0x909), Op(Opcode(2, 0, 1, 2))] }

  function StatusAndBase(): seq<Item> {
    [Lit(0, STATUS), Op(Opcode(4, 0, 3, 14)), Op(Opcode(4, 0, 0, 14)), Lit(0, 0x8c00_0000), Op(Opcode(4, 0, 1, 14))]
  }

  function StackAndFloat(): seq<Item> {
    [Lit(15, STACK), Op(Opcode(4, 15, 2, 14)), Lit(0, 0x4_0001), Op(Opcode(4, 0, 6, 10))]
  }

  function ReturnAndTarget(returned: int): seq<Item> {
    [Lit(0, returned), Op(Opcode(4, 0, 2, 10)), Lit(14, BOOTSTRAP2), Op(Opcode(4, 14, 4, 14))]
  }

  function Clears(count: int): seq<Item>
    requires 0 <= count <= 15
  {
    seq(count, i requires 0 <= i < count => Op(Opcode(14, i, 0, 0)))
  }

  function ClearMac(): seq<Item> { [Op(Opcode(0, 0, 2, 8)), Op(Opcode(0, 0, 0, 8))] }

  function Leave(): seq<Item> { [Op(Opcode(4, 14, 2, 11)), Op(Opcode(14, 14, 0, 0))] }

  function Diagnose(handler: int): seq<Item> {
    [Lit(15, 0x8cff_0000), Lit(0, handler), Op(Opcode(4, 0, 2, 11)), Op(NOP)]
  }

  /** The wrapper's whole instruction sequence; its return handler is the fallthrough. */
  function Wrapper(entry: nat, handler: int): seq<Item> {
    Enter(entry) + Publish() + CacheMode() + Nops() + StatusAndBase() + StackAndFloat()
    + ReturnAndTarget(entry + 102) + Clears(14) + ClearMac() + Leave() + Diagnose(handler)
  }

  ghost predicate BootstrapAccepted(image: Image) {
    && "_kui_disc_stage_enter" in image.symbols
    && "_kui_disc_stage_returned" in image.symbols
    && "__retail_boot_fpscr_init" in image.symbols
    && var entry: int := image.symbols["_kui_disc_stage_enter"];
       && entry % 4 == 0 && 0x8ce0_0000 <= entry < 0x8ce1_0000
       && image.symbols["__retail_boot_fpscr_init"] == entry + 56
       && Matches(image, entry, Wrapper(entry, image.symbols["_kui_disc_stage_returned"]))
  }

  /** `audit_elf` after symbol lookup: walk to the FPSCR witness, check it, walk on. */
  method AuditBootstrap(image: Image) returns (ok: bool)
    ensures ok == BootstrapAccepted(image)
  {
    hide Wrapper, Matches, AllWitnesses;
    if "_kui_disc_stage_enter" !in image.symbols || "_kui_disc_stage_returned" !in image.symbols ||
       "__retail_boot_fpscr_init" !in image.symbols {
      return false;
    }
    var entry: int := image.symbols["_kui_disc_stage_enter"];
    if entry % 4 != 0 || entry < 0x8ce0_0000 || entry >= 0x8ce1_0000 {
      return false;
    }
    var items := Wrapper(entry, image.symbols["_kui_disc_stage_returned"]);
    WrapperParts(entry, image.symbols["_kui_disc_stage_returned"]);
    var c := new Walker(image, entry);
    ok := c.ExpectAll(items[..28]);
    if ok && image.symbols["__retail_boot_fpscr_init"] == c.pc {
      ok := c.ExpectAll(items[28..]);
      MatchesJoin(image, entry, items, 28);
    } else {
      if !ok { MatchesJoin(image, entry, items, 28); }
      ok := false;
    }
  }

  lemma WrapperParts(entry: nat, handler: int)
    ensures var w := Wrapper(entry, handler);
      && |w| == 55
      && w[0] == Lit(0, Or(entry + 6, 0x2000_0000)) && w[1] == Op(Opcode(4, 0, 2, 11)) && w[2] == Op(NOP)
      && w[3..9] == Publish() && w[9..12] == CacheMode() && w[12..20] == Nops()
      && w[20..25] == StatusAndBase() && w[25..29] == StackAndFloat()
  {
    hide Or;
  }

  lemma WrapperEnd(entry: nat, handler: int)
    ensures var w := Wrapper(entry, handler);
      && |w| == 55
      && w[29..33] == ReturnAndTarget(entry + 102) && w[33..47] == Clears(14) && w[47..49] == ClearMac()
      && w[49] == Op(Opcode(4, 14, 2, 11)) && w[50] == Op(Opcode(14, 14, 0, 0))
  {
    hide Or;
  }

  lemma PartsStraight(entry: int)
    ensures AllStraight(CacheMode()) && AllStraight(Nops()) && AllStraight(StatusAndBase())
    ensures AllStraight(StackAndFloat()) && AllStraight(ReturnAndTarget(entry)) && AllStraight(Clears(14))
    ensures AllStraight(ClearMac())
  {
  }

  // ---------- effects ----------

  lemma CacheModeRuns(cpu: Cpu) returns (after: Cpu)
    ensures ApplyAll(CacheMode(), cpu) == Running(after)
    ensures after == cpu.(r := after.r, mem := cpu.mem[CCR := 0x909])
  {
    hide Exec, ApplyAll, Put;
    var c1 := Put(cpu, 0, CCR);
    var c2 := Put(c1, 1, 0x909);
    PutFrame(cpu, 0, CCR);
    PutFrame(c1, 1, 0x909);
    StoreCcr(0, 1, c2);
    after := c2.(mem := cpu.mem[CCR := 0x909]);
    ApplyThree(Lit(0, CCR), Lit(1, 0x909), Op(Opcode(2, 0, 1, 2)), cpu, c1, c2, after);
  }

  lemma StatusAndBaseRuns(cpu: Cpu) returns (after: Cpu)
    ensures ApplyAll(StatusAndBase(), cpu) == Running(after)
    ensures after ==
      cpu.(r := after.r, bank := after.bank, upper := STATUS / 2, t := false, ssr := STATUS, gbr := 0x8c00_0000)
  {
    hide Exec, ApplyAll, Put, BankSelected;
    var items := StatusAndBase();
    var c1 := Put(cpu, 0, STATUS);
    PutFrame(cpu, 0, STATUS);
    var c2 := c1.(ssr := STATUS);
    assert Apply(Op(Opcode(4, 0, 3, 14)), c1) == Running(c2) by { Instructions.Ldc(0, 3, c1); }
    var c3 := SetSr(c2, STATUS);
    assert Apply(Op(Opcode(4, 0, 0, 14)), c2) == Running(c3) by { hide SetSr; Instructions.Ldc(0, 0, c2); }
    var c4 := Put(c3, 0, 0x8c00_0000);
    PutFrame(c3, 0, 0x8c00_0000);
    ApplyFour(items[0], items[1], items[2], items[3], cpu, c1, c2, c3, c4);
    after := c4.(gbr := 0x8c00_0000);
    assert Apply(Op(Opcode(4, 0, 1, 14)), c4) == Running(after) by { Instructions.Ldc(0, 1, c4); }
    ApplyOne(items[4], c4, after);
    ApplyAppend([items[0], items[1], items[2], items[3]], [items[4]], cpu);
    assert items == [items[0], items[1], items[2], items[3]] + [items[4]];
  }

  lemma StackAndFloatRuns(cpu: Cpu) returns (after: Cpu)
    ensures ApplyAll(StackAndFloat(), cpu) == Running(after)
    ensures after == cpu.(r := after.r, vbr := STACK, fpscr := 0x4_0001) && after.r[15] == STACK
  {
    hide Exec, ApplyAll, Put;
    var items := StackAndFloat();
    var c1 := Put(cpu, 15, STACK);
    PutFrame(cpu, 15, STACK);
    var c2 := c1.(vbr := STACK);
    assert Apply(Op(Opcode(4, 15, 2, 14)), c1) == Running(c2) by { Instructions.Ldc(15, 2, c1); }
    var c3 := Put(c2, 0, 0x4_0001);
    PutFrame(c2, 0, 0x4_0001);
    after := c3.(fpscr := 0x4_0001);
    assert Apply(Op(Opcode(4, 0, 6, 10)), c3) == Running(after) by { Instructions.Lds(0, 6, c3); }
    ApplyFour(items[0], items[1], items[2], items[3], cpu, c1, c2, c3, after);
  }

  lemma ReturnAndTargetRun(cpu: Cpu, returned: Word) returns (after: Cpu)
    ensures ApplyAll(ReturnAndTarget(returned), cpu) == Running(after)
    ensures after == cpu.(r := after.r, pr := returned, spc := BOOTSTRAP2)
    ensures after.r[15] == cpu.r[15] && after.r[14] == BOOTSTRAP2
  {
    hide Exec, ApplyAll, Put;
    var items := ReturnAndTarget(returned);
    var c1 := Put(cpu, 0, returned);
    PutFrame(cpu, 0, returned);
    var c2 := c1.(pr := returned);
    assert Apply(Op(Opcode(4, 0, 2, 10)), c1) == Running(c2) by { Instructions.Lds(0, 2, c1); }
    var c3 := Put(c2, 14, BOOTSTRAP2);
    PutFrame(c2, 14, BOOTSTRAP2);
    after := c3.(spc := BOOTSTRAP2);
    assert Apply(Op(Opcode(4, 14, 4, 14)), c3) == Running(after) by { Instructions.Ldc(14, 4, c3); }
    ApplyFour(items[0], items[1], items[2], items[3], cpu, c1, c2, c3, after);
  }

  lemma {:induction false} ClearsRun(cpu: Cpu, count: int) returns (after: Cpu)
    requires 0 <= count <= 15
    ensures ApplyAll(Clears(count), cpu) == Running(after)
    ensures after == cpu.(r := after.r)
    ensures forall i: Nibble {:trigger after.r[i]} :: after.r[i] == if i < count then 0 else cpu.r[i]
    decreases count
  {
    hide Exec, Put;
    if count == 0 {
      after := cpu;
    } else {
      var mid := ClearsRun(cpu, count - 1);
      var last := Op(Opcode(14, count - 1, 0, 0));
      after := Put(mid, count - 1, 0);
      PutFrame(mid, count - 1, 0);
      assert Apply(last, mid) == Running(after) by { Instructions.MovImmediate(count - 1, 0, 0, mid); }
      ApplyOne(last, mid, after);
      assert Clears(count) == Clears(count - 1) + [last];
      ApplyAppend(Clears(count - 1), [last], cpu);
    }
  }

  lemma ClearMacRuns(cpu: Cpu)
    ensures ApplyAll(ClearMac(), cpu) == Running(cpu.(mach := 0, macl := 0, t := false))
  {
    hide Exec, ApplyAll;
    Instructions.Clrmac(cpu);
    Instructions.Clrt(cpu.(mach := 0, macl := 0));
    ApplyTwo(ClearMac()[0], ClearMac()[1], cpu, cpu.(mach := 0, macl := 0), cpu.(mach := 0, macl := 0, t := false));
  }

  // ---------- the whole wrapper ----------

  /** The uncached address names the same physical byte, wherever the wrapper is linked. */
  lemma UncachedAlias(a: nat)
    ensures Alias(Or(a, 0x2000_0000), a)
  {
    hide Or, Physical;
    assert Pow2(29) == 0x2000_0000 by { Pow2Word(); assert Pow2(32) == 8 * Pow2(29); }
    if Shift(a, 29) % 2 == 0 { OrFreshBit(a, 29); } else { OrSetBit(a, 29); }
    PhysicalPeriod(a, 1);
  }

  /** The state in which the second bootstrap is entered. */
  ghost predicate Handed(entry: int, after: Cpu) {
    && (forall i: Nibble {:trigger after.r[i]} :: after.r[i] == if i < 15 then 0 else 0x8c00_f400)
    && after.vbr == 0x8c00_f400 && after.gbr == 0x8c00_0000 && after.ssr == 0x7000_00f0 && Sr(after) == 0x7000_00f0
    && after.fpscr == 0x4_0001 && after.pr == entry + 102 && after.spc == 0xac00_e000
    && after.mach == 0 && after.macl == 0
  }

  /** Every accepted wrapper, from any machine state, reaches the second bootstrap as promised. */
  lemma BootstrapHandsOver(image: Image, code: Code, s: State) returns (final: State)
    requires Loaded(image, code) && BootstrapAccepted(image)
    requires Alias(s.pc, image.symbols["_kui_disc_stage_enter"])
    ensures Reaches(code, s, final) && final.pc == 0xac00_e000
    ensures Handed(image.symbols["_kui_disc_stage_enter"], final.cpu)
    ensures final.cpu.mem == s.cpu.mem[0xff00_001c := 0x909] && final.cpu.purged == s.cpu.purged + Lines(0)
  {
    hide Loaded, Reaches, Alias, Wrapper, Lines, Matches;
    final := WrapperHandsOver(image, code, image.symbols["_kui_disc_stage_enter"],
      image.symbols["_kui_disc_stage_returned"], s);
  }

  /** What `audit_stage` asks of the VMU stage's own entry: the same wrapper with its own return handler. */
  ghost predicate StageEnterAccepted(image: Image) {
    && "_kui_disc_vmu_stage_enter" in image.symbols && "_kui_disc_vmu_stage_returned" in image.symbols
    && Matches(image, image.symbols["_kui_disc_vmu_stage_enter"],
         Wrapper(image.symbols["_kui_disc_vmu_stage_enter"], image.symbols["_kui_disc_vmu_stage_returned"]))
  }

  method AuditStageEnter(image: Image) returns (ok: bool)
    ensures ok == StageEnterAccepted(image)
  {
    hide Wrapper, Matches, AllWitnesses;
    if "_kui_disc_vmu_stage_enter" !in image.symbols || "_kui_disc_vmu_stage_returned" !in image.symbols {
      return false;
    }
    var entry: nat := image.symbols["_kui_disc_vmu_stage_enter"];
    var c := new Walker(image, entry);
    ok := c.ExpectAll(Wrapper(entry, image.symbols["_kui_disc_vmu_stage_returned"]));
  }

  /** An accepted VMU stage hands over exactly like the disc stage. */
  lemma StageHandsOver(image: Image, code: Code, s: State) returns (final: State)
    requires Loaded(image, code) && StageEnterAccepted(image)
    requires Alias(s.pc, image.symbols["_kui_disc_vmu_stage_enter"])
    ensures Reaches(code, s, final) && final.pc == 0xac00_e000
    ensures Handed(image.symbols["_kui_disc_vmu_stage_enter"], final.cpu)
    ensures final.cpu.mem == s.cpu.mem[0xff00_001c := 0x909] && final.cpu.purged == s.cpu.purged + Lines(0)
  {
    hide Loaded, Reaches, Alias, Wrapper, Lines, Matches;
    final := WrapperHandsOver(image, code, image.symbols["_kui_disc_vmu_stage_enter"],
      image.symbols["_kui_disc_vmu_stage_returned"], s);
  }

  /** Both stages share the wrapper, wherever it is linked. */
  lemma WrapperHandsOver(image: Image, code: Code, entry: nat, handler: int, s: State) returns (final: State)
    requires Loaded(image, code) && Matches(image, entry, Wrapper(entry, handler)) && Alias(s.pc, entry)
    ensures Reaches(code, s, final) && final.pc == BOOTSTRAP2
    ensures Handed(entry, final.cpu)
    ensures final.cpu.mem == s.cpu.mem[CCR := 0x909] && final.cpu.purged == s.cpu.purged + Lines(0)
  {
    hide Step, Exec, ApplyAll, Loaded, Reaches, Alias, Wrapper, AllStraight, Half, Long, Lines, Or, Put, Publish;
    var items := Wrapper(entry, handler);
    WrapperParts(entry, handler);
    UncachedAlias(entry + 6);
    assert ItemAt(image, entry + 2 * 0, items[0]);
    var target: Word := Or(entry + 6, 0x2000_0000);
    var c0 := Put(s.cpu, 0, target);
    PutFrame(s.cpu, 0, target);
    ItemExecuted(image, code, entry, items[0], s);
    ReachesStep(code, s, State(Plus(s.pc, 2), c0));
    AliasPlus(s.pc, entry, 2);
    Instructions.Nop(c0);
    var uncached := JumpReached(image, code, entry, items, 1, Opcode(4, 0, 2, 11), NOP, State(Plus(s.pc, 2), c0), c0);
    ReachesCompose(code, s, State(Plus(s.pc, 2), c0), uncached);
    MatchesPart(image, entry, items, 3, 9);
    PublishRuns(image, code, entry + 6, uncached);
    var published := State(Plus(uncached.pc, 12), Published(c0));
    ReachesCompose(code, s, uncached, published);
    AliasPlus(uncached.pc, entry + 6, 12);
    ReturnIsWord(image, entry, handler);
    final := AfterPublication(image, code, entry, handler, published);
    ReachesCompose(code, s, published, final);
  }

  /** The accepted return literal is a 32-bit address. */
  lemma ReturnIsWord(image: Image, entry: nat, handler: int)
    requires Matches(image, entry, Wrapper(entry, handler))
    ensures entry + 102 < 0x1_0000_0000
  {
    hide Wrapper, Half, Long;
    var items := Wrapper(entry, handler);
    WrapperEnd(entry, handler);
    assert items[29] == items[29..33][0];
    assert ItemAt(image, entry + 2 * 29, items[29]);
  }

  lemma AfterPublication(image: Image, code: Code, entry: nat, handler: int, s: State) returns (final: State)
    requires entry + 102 < 0x1_0000_0000
    requires Loaded(image, code) && Matches(image, entry, Wrapper(entry, handler)) && Alias(s.pc, entry + 18)
    ensures Reaches(code, s, final) && final.pc == BOOTSTRAP2
    ensures Handed(entry, final.cpu)
    ensures final.cpu.mem == s.cpu.mem[CCR := 0x909] && final.cpu.purged == s.cpu.purged
  {
    hide Step, Exec, ApplyAll, Loaded, Reaches, Alias, Wrapper, AllStraight, Lines, Put, Matches;
    var items := Wrapper(entry, handler);
    WrapperParts(entry, handler);
    WrapperEnd(entry, handler);
    PartsStraight(entry + 102);
    var c1 := CacheModeRuns(s.cpu);
    var s1 := PartReached(image, code, entry, items, 9, CacheMode(), s, c1);
    NopsRun(8, c1);
    var s2 := PartReached(image, code, entry, items, 12, Nops(), s1, c1);
    ReachesCompose(code, s, s1, s2);
    var c3 := StatusAndBaseRuns(c1);
    var s3 := PartReached(image, code, entry, items, 20, StatusAndBase(), s2, c3);
    ReachesCompose(code, s, s2, s3);
    var c4 := StackAndFloatRuns(c3);
    var s4 := PartReached(image, code, entry, items, 25, StackAndFloat(), s3, c4);
    ReachesCompose(code, s, s3, s4);
    var c5 := ReturnAndTargetRun(c4, entry + 102);
    var s5 := PartReached(image, code, entry, items, 29, ReturnAndTarget(entry + 102), s4, c5);
    ReachesCompose(code, s, s4, s5);
    var c6 := ClearsRun(c5, 14);
    var s6 := PartReached(image, code, entry, items, 33, Clears(14), s5, c6);
    ReachesCompose(code, s, s5, s6);
    var c7 := c6.(mach := 0, macl := 0, t := false);
    ClearMacRuns(c6);
    var s7 := PartReached(image, code, entry, items, 47, ClearMac(), s6, c7);
    ReachesCompose(code, s, s6, s7);
    var c8 := Put(c7, 14, 0);
    PutFrame(c7, 14, 0);
    assert Exec(Opcode(14, 14, 0, 0), c7) == Running(c8) by { Instructions.MovImmediate(14, 0, 0, c7); }
    final := JumpReached(image, code, entry, items, 49, Opcode(4, 14, 2, 11), Opcode(14, 14, 0, 0), s7, c8);
    ReachesCompose(code, s, s7, final);
  }

  // ---------- if the second bootstrap comes back ----------

  /** The fallthrough behind the handed PR: from any state there, the machine enters the return handler on the
      top of the stage's stack, having stored and purged nothing. */
  lemma ReturnDiagnosed(image: Image, code: Code, entry: nat, handler: Word, s: State) returns (final: State)
    requires Loaded(image, code) && Matches(image, entry, Wrapper(entry, handler)) && Alias(s.pc, entry + 102)
    ensures Reaches(code, s, final) && final.pc == handler && final.cpu.r[15] == 0x8cff_0000
    ensures final.cpu == s.cpu.(r := s.cpu.r[0 := handler][15 := 0x8cff_0000])
  {
    hide Step, Exec, ApplyAll, Loaded, Reaches, Alias, Wrapper, AllStraight, Put, Matches;
    var items := Wrapper(entry, handler);
    DiagnoseParts(entry, handler);
    var part := [Lit(15, 0x8cff_0000), Lit(0, handler)];
    var c1 := Put(s.cpu, 15, 0x8cff_0000);
    var c2 := Put(c1, 0, handler);
    ApplyTwo(part[0], part[1], s.cpu, c1, c2);
    var s1 := PartReached(image, code, entry, items, 51, part, s, c2);
    Instructions.Nop(c2);
    final := JumpReached(image, code, entry, items, 53, Opcode(4, 0, 2, 11), NOP, s1, c2);
    ReachesCompose(code, s, s1, final);
    assert c2 == s.cpu.(r := s.cpu.r[0 := handler][15 := 0x8cff_0000]) by { TwoPuts(s.cpu, handler); }
    PutFrame(c1, 0, handler);
  }

  lemma TwoPuts(cpu: Cpu, handler: Word)
    ensures Put(Put(cpu, 15, 0x8cff_0000), 0, handler) == cpu.(r := cpu.r[0 := handler][15 := 0x8cff_0000])
    ensures Put(cpu, 15, 0x8cff_0000).r[0 := handler][15] == 0x8cff_0000
  {
    assert cpu.r[15 := 0x8cff_0000][0 := handler] == cpu.r[0 := handler][15 := 0x8cff_0000];
  }

  lemma DiagnoseParts(entry: nat, handler: int)
    ensures var w := Wrapper(entry, handler);
      && |w| == 55 && w[51..53] == [Lit(15, 0x8cff_0000), Lit(0, handler)]
      && w[53] == Op(Opcode(4, 0, 2, 11)) && w[54] == Op(NOP)
    ensures AllStraight([Lit(15, 0x8cff_0000), Lit(0, handler)])
  {
    hide Or;
  }

  /** Both stages: a second bootstrap that returns to its PR is diagnosed by the stage's own handler. */
  lemma BootstrapReturns(image: Image, code: Code, s: State) returns (final: State)
    requires Loaded(image, code) && BootstrapAccepted(image)
    requires Alias(s.pc, image.symbols["_kui_disc_stage_enter"] + 102)
    ensures Reaches(code, s, final) && final.pc == image.symbols["_kui_disc_stage_returned"]
    ensures final.cpu == s.cpu.(r := s.cpu.r[0 := final.pc][15 := 0x8cff_0000])
  {
    hide Loaded, Reaches, Alias, Wrapper, Matches;
    final := ReturnDiagnosed(image, code, image.symbols["_kui_disc_stage_enter"],
      image.symbols["_kui_disc_stage_returned"], s);
  }

  lemma StageReturns(image: Image, code: Code, s: State) returns (final: State)
    requires Loaded(image, code) && StageEnterAccepted(image)
    requires var entry: int := image.symbols["_kui_disc_vmu_stage_enter"]; Alias(s.pc, entry + 102)
    ensures Reaches(code, s, final) && final.pc == image.symbols["_kui_disc_vmu_stage_returned"]
    ensures final.cpu == s.cpu.(r := s.cpu.r[0 := final.pc][15 := 0x8cff_0000])
  {
    hide Loaded, Reaches, Alias, Wrapper, Matches;
    final := ReturnDiagnosed(image, code, image.symbols["_kui_disc_vmu_stage_enter"],
      image.symbols["_kui_disc_vmu_stage_returned"], s);
  }

  /** The published lines are exactly main RAM's 32-byte lines, each once. */
  lemma LinesAreRam(line: Word)
    ensures line in Lines(0) <==> 0x8c00_0000 <= line < 0x8d00_0000 && line % 32 == 0
    ensures forall i, j :: 0 <= i < j < |Lines(0)| ==> Lines(0)[i] != Lines(0)[j]
  {
    if RAM_BEGIN <= line < RAM_END && (line - RAM_BEGIN) % 32 == 0 {
      assert Lines(0)[(line - RAM_BEGIN) / 32] == line;
    }
  }
}
