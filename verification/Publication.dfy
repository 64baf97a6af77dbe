/** The cache-publication loop shared by every handoff: OCBP over all of main RAM. */
module Publication {
  import opened Words
  import opened Opcodes
  import opened Sh4
  import opened Cursor
  import Instructions

  const RAM_BEGIN: int := 0x8c00_0000
  const RAM_END: int := 0x8d00_0000
  const LINES: int := 0x8_0000

  function LoopBody(): seq<Item> {
    [Op(Opcode(0, 0, 10, 3)), Op(Opcode(7, 0, 2, 0)), Op(Opcode(3, 0, 1, 2))]
  }

  /** Load both bounds, then OCBP / add 32 / compare / branch back. */
  function Publish(): seq<Item> {
    [Lit(0, RAM_BEGIN), Lit(1, RAM_END)] + LoopBody() + [Op(Opcode(8, 11, 15, 11))]
  }

  /** The 32-byte lines from number `first` to the end of main RAM, in order. */
  function Lines(first: int): seq<Word>
    requires 0 <= first <= LINES
  {
    seq(LINES - first, k requires 0 <= k < LINES - first => RAM_BEGIN + 32 * (first + k))
  }

  /** The loop's effect when it starts at line `first`. */
  function AfterPurge(cpu: Cpu, first: int): Cpu
    requires 0 <= first <= LINES
  {
    SetT(cpu, true).(r := cpu.r[0 := RAM_END], purged := cpu.purged + Lines(first))
  }

  function OneLine(cpu: Cpu, first: int): Cpu
    requires 0 <= first < LINES
  {
    SetT(cpu, first + 1 == LINES).(r := cpu.r[0 := RAM_BEGIN + 32 * (first + 1)],
      purged := cpu.purged + [RAM_BEGIN + 32 * first])
  }

  lemma LoopBodyEffect(cpu: Cpu, first: int)
    requires 0 <= first < LINES
    requires cpu.r[0] == RAM_BEGIN + 32 * first && cpu.r[1] == RAM_END
    ensures ApplyAll(LoopBody(), cpu) == Running(OneLine(cpu, first))
  {
    hide Exec, ApplyAll;
    var c1 := cpu.(purged := cpu.purged + [RAM_BEGIN + 32 * first]);
    assert Apply(Op(Opcode(0, 0, 10, 3)), cpu) == Running(c1) by { Instructions.Ocbp(0, cpu); }
    var c2 := Put(c1, 0, RAM_BEGIN + 32 * (first + 1));
    assert Apply(Op(Opcode(7, 0, 2, 0)), c1) == Running(c2) by { Dispatch7(Opcode(7, 0, 2, 0), c1); }
    assert Apply(Op(Opcode(3, 0, 1, 2)), c2) == Running(OneLine(cpu, first)) by { Instructions.CmpHs(0, 1, c2); }
    ApplyThree(Op(Opcode(0, 0, 10, 3)), Op(Opcode(7, 0, 2, 0)), Op(Opcode(3, 0, 1, 2)), cpu, c1, c2,
      OneLine(cpu, first));
  }

  lemma NextLine(cpu: Cpu, first: int)
    requires 0 <= first < LINES
    ensures AfterPurge(OneLine(cpu, first), first + 1) == AfterPurge(cpu, first)
  {
    assert Lines(first) == [RAM_BEGIN + 32 * first] + Lines(first + 1);
    assert OneLine(cpu, first).r[0 := RAM_END] == cpu.r[0 := RAM_END];
    assert OneLine(cpu, first).purged + Lines(first + 1) == cpu.purged + Lines(first);
  }

  /** From line `first`, the loop purges every remaining line exactly once, ascending, and stops. */
  lemma {:induction false} PurgeLoop(image: Image, code: Code, at: int, s: State, first: int)
    requires Loaded(image, code) && Matches(image, at, LoopBody() + [Op(Opcode(8, 11, 15, 11))])
    requires Alias(s.pc, at) && 0 <= first < LINES
    requires s.cpu.r[0] == RAM_BEGIN + 32 * first && s.cpu.r[1] == RAM_END
    ensures Reaches(code, s, State(Plus(s.pc, 8), AfterPurge(s.cpu, first)))
    decreases LINES - first
  {
    hide Step, Steps, Fetch, ApplyAll, Loaded, ItemAt, Reaches, Alias;
    AliasPlus(s.pc, at, 6);
    WrapPlus(s.pc, 6, 2);
    WrapPlus(s.pc, 6, -6);
    var items := LoopBody() + [Op(Opcode(8, 11, 15, 11))];
    MatchesPart(image, at, items, 0, 3);
    assert items[0..3] == LoopBody();
    LoopBodyEffect(s.cpu, first);
    AcceptedItemsReach(image, code, at, LoopBody(), s, OneLine(s.cpu, first));
    var compared := State(Plus(s.pc, 6), OneLine(s.cpu, first));
    assert ItemAt(image, at + 2 * 3, items[3]);
    BranchBack(image, code, at + 6, compared);
    var next := State(if first + 1 == LINES then Plus(s.pc, 8) else s.pc, OneLine(s.cpu, first));
    ReachesStep(code, compared, next);
    ReachesCompose(code, s, compared, next);
    NextLine(s.cpu, first);
    if first + 1 < LINES {
      PurgeLoop(image, code, at, next, first + 1);
      ReachesCompose(code, s, next, State(Plus(s.pc, 8), AfterPurge(s.cpu, first)));
    } else {
      assert Lines(LINES) == [];
      assert next.cpu == AfterPurge(s.cpu, first);
    }
  }

  lemma BranchBack(image: Image, code: Code, at: int, s: State)
    requires Loaded(image, code) && ItemAt(image, at, Op(Opcode(8, 11, 15, 11))) && Alias(s.pc, at)
    ensures Step(code, s) == Some(s.(pc := if s.cpu.t then Plus(s.pc, 2) else Plus(s.pc, -6)))
  {
    hide Step, Fetch, Loaded;
    HalfFetched(image, code, at, s.pc);
    StepShort(code, s, Opcode(8, 11, 15, 11));
  }

  function Published(cpu: Cpu): Cpu {
    SetT(cpu, true).(r := cpu.r[0 := RAM_END][1 := RAM_END], purged := cpu.purged + Lines(0))
  }

  /** Both bound loads and the whole loop: every line of main RAM, once each. */
  lemma PublishRuns(image: Image, code: Code, at: int, s: State)
    requires Loaded(image, code) && Matches(image, at, Publish()) && Alias(s.pc, at)
    ensures Reaches(code, s, State(Plus(s.pc, 12), Published(s.cpu)))
  {
    hide Step, Fetch, Loaded, ItemAt, Reaches, Alias;
    AliasPlus(s.pc, at, 4);
    WrapPlus(s.pc, 4, 8);
    var bounds := [Lit(0, RAM_BEGIN), Lit(1, RAM_END)];
    MatchesPart(image, at, Publish(), 0, 2);
    assert Publish()[0..2] == bounds;
    MatchesPart(image, at, Publish(), 2, 6);
    assert Publish()[2..6] == LoopBody() + [Op(Opcode(8, 11, 15, 11))];
    var loaded := Put(Put(s.cpu, 0, RAM_BEGIN), 1, RAM_END);
    ApplyTwo(bounds[0], bounds[1], s.cpu, Put(s.cpu, 0, RAM_BEGIN), loaded);
    AcceptedItemsReach(image, code, at, bounds, s, loaded);
    PurgeLoop(image, code, at + 4, State(Plus(s.pc, 4), loaded), 0);
    assert AfterPurge(loaded, 0).r == Published(s.cpu).r;
    ReachesCompose(code, s, State(Plus(s.pc, 4), loaded), State(Plus(s.pc, 12), Published(s.cpu)));
  }
}
