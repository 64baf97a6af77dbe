/** A run of real code that enters publication twice: the second entry is accepted and leaves two words misread. */
module ColdReentry {
  import opened Words
  import opened Opcodes
  import opened ColdCpu
  import opened ScanBlocks
  import opened ColdWatch
  import opened ColdRun
  import opened ColdOrder
  import opened ColdWords

  const PREPARE: nat := 0x8c1f_fffe
  const OWNER: nat := 0x8c20_0000
  const PUBLISH: nat := 0x8c20_0200
  const PLAN: nat := 0x8c10_0000
  const LEASE: nat := 0x8c10_0080
  const STACK: nat := 0x8c70_0000
  const SLOT: nat := 0x8c01_0000
  const NEXT: nat := 0x8c01_0004
  const ENV: Profile :=
    Profile(PLAN, 0x8c10_0100, OWNER, 0x8c30_0000, 0x8c50_0000, 0x8c40_0000, 0, 0x8c60_0000, true)
  const TWICE: Program :=
    Program(ENV, 0x100, PREPARE, 0x8c80_0000, PUBLISH, 0x8c80_0002, 0x8c80_0004, 0x8c80_0006, 0x8c80_0008,
      0x8c80_000a, 0x8c80_000c, 0x8c80_000e, 0x8c80_0010, 0x8c80_0100, 0x8c80_0200, SLOT, 0)

  // ---------- the code ----------

  /** NOP; the loop DT R6, BF that passes the allocator's entry three times; BRA to publication with its slot;
      there NOP, MOV.L R2,@R1, which publishes, MOV.L R3,@R5, which rewrites the plan, and BRA back. */
  function CodeAt(pc: int): Opcode {
    if pc == OWNER then Opcode(4, 6, 1, 0)
    else if pc == OWNER + 2 then Opcode(8, 11, 15, 13)
    else if pc == OWNER + 4 then Opcode(10, 0, 15, 12)
    else if pc == PUBLISH + 2 then Opcode(2, 1, 2, 2)
    else if pc == PUBLISH + 4 then Opcode(2, 5, 3, 2)
    else if pc == PUBLISH + 6 then Opcode(10, 15, 15, 11)
    else NOP
  }

  predicate Coded(pc: int) { (PREPARE <= pc <= OWNER + 6 || PUBLISH <= pc <= PUBLISH + 8) && pc % 2 == 0 }

  /** The plan names the first image word with a capacity delta of 32 bytes; the words hold 7 and 9. */
  function PlanWord(k: nat): nat { if k == 0 then SLOT else if k in {8, 12} then 32 else 0 }

  function Cell(p: int): Byte {
    var a: int := p + 0x8000_0000;
    if a == SLOT then 7 else if a == NEXT then 9
    else if PLAN <= a < PLAN + 20 then Digit(PlanWord((a - PLAN) / 4 * 4), (a - PLAN) % 4)
    else if Coded(a / 2 * 2) then
      var op := CodeAt(a / 2 * 2);
      if a % 2 == 0 then 16 * op.m + op.low else 16 * op.top + op.n
    else 0
  }

  function Digit(word: nat, k: nat): Byte {
    if k == 0 then word % 0x100 else if k == 1 then word / 0x100 % 0x100
    else if k == 2 then word / 0x1_0000 % 0x100 else word / 0x100_0000 % 0x100
  }

  function Memory(): Ram { map p: int | RAM_BEGIN <= p < RAM_END :: Cell(p) }

  lemma Place(a: int, count: int)
    requires 0x8c00_0000 <= a && a + count <= 0x8d00_0000 && count > 0
    ensures Physical(a) == a - 0x8000_0000 && Wrap(a) == a && InRam(a, count)
  {
    hide Physical, Wrap;
    PhysicalIsMod(a);
    WrapIsMod(a);
    assert a % 0x2000_0000 == a - 0x8000_0000;
  }

  /** The code is as loaded. */
  ghost predicate Intact(c: Core) {
    forall p :: 0x0c1f_fffe <= p < 0x0c20_0210 ==> ByteAt(c.mem, p) == Cell(p)
  }

  lemma Fetched(c: Core, pc: nat)
    requires Intact(c) && Coded(pc)
    ensures FetchOp(c, pc) == Some(CodeAt(pc))
  {
    hide CodeAt, InRam;
    Place(pc, 2);
    assert ByteAt(c.mem, Physical(pc)) == Cell(Physical(pc));
    assert ByteAt(c.mem, Physical(pc) + 1) == Cell(Physical(pc) + 1);
  }

  /** Storing a word far from the code leaves it intact. */
  lemma StillIntact(c: Core, at: int, value: nat)
    requires Intact(c) && at + 4 <= 0x0c1f_fffe
    ensures Intact(c.(mem := Scatter(c.mem, at, value, 4)))
  {
    hide Cell, ByteAt;
    forall p | 0x0c1f_fffe <= p < 0x0c20_0210 ensures ByteAt(Scatter(c.mem, at, value, 4), p) == Cell(p) {
      ByteElsewhere(c.mem, at, value % 0x100, value / 0x100 % 0x100, value / 0x1_0000 % 0x100,
        value / 0x100_0000 % 0x100, p);
    }
  }

  // ---------- one move ----------

  /** None of the entry points is here. */
  predicate Passed(pc: nat) { Coded(pc) && pc !in {PREPARE, OWNER, PUBLISH} }

  lemma NotedPassed(pc: nat, c: Core)
    requires Passed(pc)
    ensures Note(TWICE, pc, c) == Some(c)
  {
    hide Plan, HelperCalled, Handed, ColdText;
  }

  lemma PlainMove(s: Machine, c: Core, after: Core) returns (next: Machine)
    requires Coded(s.pc) && Note(TWICE, s.pc, s.core) == Some(c) && Intact(c) && !Transfers(CodeAt(s.pc))
    requires Effect(ENV, CodeAt(s.pc), s.pc, c, InAllocator(ENV, s.pc)) == Some(after)
    ensures Moves(TWICE, s, next) && next.pc == s.pc + 2 && next.core == after
  {
    hide Effect, Note, Intact, Transfers, FetchOp, CodeAt, InAllocator;
    Fetched(c, s.pc);
    next := Machine(s.pc + 2, s.instructions + 1, s.executed + {s.pc}, after);
  }

  /** BRA with NOP in its slot. */
  lemma BranchMove(s: Machine) returns (next: Machine)
    requires s.pc in {OWNER + 4, PUBLISH + 6} && Intact(s.core)
    ensures Moves(TWICE, s, next) && next.pc == PUBLISH && next.core == s.core
  {
    hide Effect, Note, Intact, FetchOp, InAllocator, Wrap;
    NotedPassed(s.pc, s.core);
    Fetched(s.core, s.pc);
    Fetched(s.core, s.pc + 2);
    NopEffect(s.pc + 2, s.core, InAllocator(ENV, s.pc));
    Place(PUBLISH, 2);
    next := Machine(PUBLISH, s.instructions + 2, s.executed + {s.pc} + {s.pc + 2}, s.core);
  }

  lemma NopEffect(pc: int, c: Core, byAllocator: bool)
    ensures Effect(ENV, NOP, pc, c, byAllocator) == Some(c)
  {
  }

  /** BF, taken while T is clear. */
  lemma LoopMove(s: Machine) returns (next: Machine)
    requires s.pc == OWNER + 2 && Intact(s.core)
    ensures Moves(TWICE, s, next) && next.core == s.core
    ensures next.pc == if s.core.sr % 2 == 0 then OWNER else OWNER + 4
  {
    hide Effect, Note, Intact, FetchOp, Wrap;
    NotedPassed(s.pc, s.core);
    Fetched(s.core, s.pc);
    Place(OWNER, 2);
    Place(OWNER + 4, 2);
    next := Machine(if s.core.sr % 2 == 0 then OWNER else OWNER + 4, s.instructions + 1, s.executed + {s.pc}, s.core);
  }

  // ---------- the states ----------

  function Start(): Core {
    Core([0, SLOT, 32, NEXT, LEASE, PLAN, 3, 0, 0, 0, 0, 0, 0, 0, 0, STACK], Memory(), 0, 0, 0,
      true, None, false, 0, 0, [], [], 0, 0, 0, 0, None, 0, Book(None, None, map[]))
  }

  /** Prepared, and past the allocator's entry `calls` times. */
  function Called(calls: nat): Core
    requires calls <= 3
  {
    Start().(prepareCalls := 1, book := Book(Some((LEASE, PLAN)), None, map[]), ownerCalls := calls,
      r := Start().r[6 := 3 - calls], sr := if calls == 3 then 1 else 0,
      allocatorStack := if calls == 0 then 0 else STACK)
  }

  function Entered(): Core { Called(3).(slot := Some(SLOT), reserveAfter := 32, publishCalls := 1) }

  function Stored(): Core {
    Entered().(mem := Scatter(Memory(), 0x0c01_0000, 32, 4), dirty := true, ram := 7,
      reserveStores := [Store(SLOT, 32)])
  }

  function Replanned(): Core { Stored().(mem := Scatter(Stored().mem, 0x0c10_0000, NEXT, 4)) }

  function Reentered(): Core { Replanned().(slot := Some(NEXT), publishCalls := 2) }

  lemma MemoryIntact(c: Core)
    requires c.mem == Memory()
    ensures Intact(c)
  {
    hide Cell;
  }

  lemma WordsAtStart()
    ensures Gather(Memory(), 0x0c01_0000, 4) == 7 && Gather(Memory(), 0x0c01_0004, 4) == 9
  {
    hide Memory;
    StartCell(0x0c01_0000); StartCell(0x0c01_0001); StartCell(0x0c01_0002); StartCell(0x0c01_0003);
    StartCell(0x0c01_0004); StartCell(0x0c01_0005); StartCell(0x0c01_0006); StartCell(0x0c01_0007);
  }

  lemma StartCell(p: int)
    requires RAM_BEGIN <= p < RAM_END
    ensures ByteAt(Memory(), p) == Cell(p)
  {
    hide Cell;
  }

  lemma PlanCell(k: nat, j: nat)
    requires k in {0, 4, 8, 12, 16} && j < 4
    ensures ByteAt(Memory(), 0x0c10_0000 + k + j) == Digit(PlanWord(k), j)
  {
    hide Memory, ByteAt, Digit, PlanWord, CodeAt;
    StartCell(0x0c10_0000 + k + j);
    assert (k + j) / 4 * 4 == k && (k + j) % 4 == j;
  }

  lemma PlanAtStart(k: nat)
    requires k in {0, 4, 8, 12, 16}
    ensures Gather(Memory(), 0x0c10_0000 + k, 4) == PlanWord(k)
  {
    hide Memory, ByteAt;
    PlanCell(k, 0);
    PlanCell(k, 1);
    PlanCell(k, 2);
    PlanCell(k, 3);
    FourBytes(PlanWord(k));
  }

  // ---------- the moves between them ----------

  lemma PrepareNoted()
    ensures Note(TWICE, PREPARE, Start()) == Some(Called(0))
  {
    hide Memory, Plan, HelperCalled, Handed, ColdText;
    assert Start().r[6 := 3] == Start().r;
  }

  lemma OwnerNoted(calls: nat)
    requires calls < 3
    ensures Note(TWICE, OWNER, Called(calls)) ==
      Some(Called(calls).(allocatorStack := STACK, ownerCalls := calls + 1))
  {
    hide Memory, Plan, HelperCalled, Handed, ColdText;
  }

  lemma PrepareMove(s: Machine) returns (next: Machine)
    requires s.pc == PREPARE && s.core == Start()
    ensures Moves(TWICE, s, next) && next.pc == OWNER && next.core == Called(0)
    ensures Note(TWICE, s.pc, s.core) == Some(Called(0))
  {
    hide Intact, Effect, Memory, Note;
    PrepareNoted();
    NopEffect(s.pc, Called(0), InAllocator(ENV, s.pc));
    MemoryIntact(Called(0));
    next := PlainMove(s, Called(0), Called(0));
  }

  lemma CountDown(c: Core, pc: nat)
    requires 0 < c.r[6] <= 3 && c.sr == 0
    ensures Effect(ENV, Opcode(4, 6, 1, 0), pc, c, true) ==
      Some(c.(r := c.r[6 := c.r[6] - 1], sr := if c.r[6] == 1 then 1 else 0))
  {
  }

  lemma OwnerMove(s: Machine, calls: nat) returns (next: Machine)
    requires s.pc == OWNER && calls < 3 && s.core == Called(calls)
    ensures Moves(TWICE, s, next) && next.pc == OWNER + 2 && next.core == Called(calls + 1)
    ensures Note(TWICE, s.pc, s.core) == Some(Called(calls).(allocatorStack := STACK, ownerCalls := calls + 1))
  {
    hide Intact, Effect, Memory, Note;
    OwnerNoted(calls);
    var noted := Called(calls).(allocatorStack := STACK, ownerCalls := calls + 1);
    CountDown(noted, s.pc);
    MemoryIntact(noted);
    assert noted.r[6 := noted.r[6] - 1] == Called(calls + 1).r;
    next := PlainMove(s, noted, Called(calls + 1));
  }

  /** A publication entry that reads a plan for this slot. */
  lemma NotedPlan(c: Core, slot: nat)
    requires c.r[4] == LEASE && c.r[5] == PLAN && c.book.budget == Some((LEASE, PLAN)) && slot in {SLOT, NEXT}
    requires Gather(c.mem, 0x0c10_0000, 4) == slot && Gather(c.mem, 0x0c10_0004, 4) == 0
    requires Gather(c.mem, 0x0c10_0008, 4) == Gather(c.mem, 0x0c10_000c, 4) == 32 && Gather(c.mem, 0x0c10_0010, 4) == 0
    ensures Note(TWICE, PUBLISH, c) ==
      Some(c.(slot := Some(slot), reserveAfter := 32, publishCalls := c.publishCalls + 1))
  {
    hide Gather, InRam, Physical, HelperCalled, Handed, ColdText;
    Place(PLAN, 4);
    Place(PLAN + 4, 4);
    Place(PLAN + 8, 4);
    Place(PLAN + 12, 4);
    Place(PLAN + 16, 4);
  }

  lemma EnterMove(s: Machine) returns (next: Machine)
    requires s.pc == PUBLISH && s.core == Called(3)
    ensures Moves(TWICE, s, next) && next.pc == PUBLISH + 2 && next.core == Entered()
    ensures Note(TWICE, s.pc, s.core) == Some(Entered())
  {
    hide Intact, Effect, Memory, Gather, Note;
    PlanAtStart(0);
    PlanAtStart(4);
    PlanAtStart(8);
    PlanAtStart(12);
    PlanAtStart(16);
    NotedPlan(Called(3), SLOT);
    NopEffect(s.pc, Entered(), InAllocator(ENV, s.pc));
    MemoryIntact(Entered());
    next := PlainMove(s, Entered(), Entered());
  }

  lemma StoreEffect(c: Core, pc: nat, n: Nibble, m: Nibble)
    ensures Effect(ENV, Opcode(2, n, m, 2), pc, c, false) == Write(ENV, c, false, c.r[n], c.r[m], 4)
  {
    hide Write;
  }

  lemma PublishWrite()
    ensures Write(ENV, Entered(), false, SLOT, 32, 4) == Some(Stored())
  {
    hide Memory, Gather, Scatter, Physical, InRam;
    WordsAtStart();
    Places();
    assert Entered().reserveStores + [Store(SLOT, 32)] == [Store(SLOT, 32)];
  }

  lemma ReplanWrite()
    ensures Write(ENV, Stored(), false, PLAN, NEXT, 4) == Some(Replanned())
  {
    hide Memory, Gather, Scatter, Physical, InRam;
    Places();
  }

  lemma PublishMove(s: Machine) returns (next: Machine)
    requires s.pc == PUBLISH + 2 && s.core == Entered()
    ensures Moves(TWICE, s, next) && next.pc == PUBLISH + 4 && next.core == Stored() && Intact(Stored())
  {
    hide Intact, Effect, Memory, Note, Write;
    NotedPassed(s.pc, s.core);
    MemoryIntact(Entered());
    StillIntact(Entered(), 0x0c01_0000, 32);
    SameCode(Entered().(mem := Stored().mem), Stored());
    PublishWrite();
    StoreEffect(Entered(), s.pc, 1, 2);
    next := PlainMove(s, Entered(), Stored());
  }

  lemma Places()
    ensures Physical(SLOT) == 0x0c01_0000 && InRam(SLOT, 4) && Physical(PLAN) == 0x0c10_0000 && InRam(PLAN, 4)
    ensures Physical(NEXT) == 0x0c01_0004 && Wrap(SLOT) == SLOT && Wrap(NEXT) == NEXT
    ensures Physical(0x8c60_0000) == 0x0c60_0000 && Physical(0x8c10_0100) == 0x0c10_0100
    ensures Physical(0x8c40_0000) == 0x0c40_0000 && Physical(0x8c50_0000) == 0x0c50_0000
    ensures Physical(STACK) == 0x0c70_0000 && Physical(0) == 0
  {
    hide Physical, Wrap;
    Place(SLOT, 4);
    Place(NEXT, 4);
    Place(PLAN, 4);
    Place(0x8c10_0100, 4);
    Place(0x8c40_0000, 4);
    Place(0x8c50_0000, 4);
    Place(0x8c60_0000, 4);
    Place(STACK, 4);
    PhysicalIsMod(0);
  }

  lemma ReplanMove(s: Machine) returns (next: Machine)
    requires s.pc == PUBLISH + 4 && s.core == Stored() && Intact(Stored())
    ensures Moves(TWICE, s, next) && next.pc == PUBLISH + 6 && next.core == Replanned() && Intact(Replanned())
  {
    hide Intact, Effect, Memory, Note, Write;
    NotedPassed(s.pc, s.core);
    StillIntact(Stored(), 0x0c10_0000, NEXT);
    ReplanWrite();
    StoreEffect(Stored(), s.pc, 5, 3);
    next := PlainMove(s, Stored(), Replanned());
  }

  /** The rest of the plan stays. */
  lemma Replanning(k: nat)
    requires k in {4, 8, 12, 16}
    ensures Gather(Replanned().mem, 0x0c10_0000 + k, 4) == PlanWord(k)
  {
    hide Memory, Gather, Scatter, PlanWord;
    ScatterElsewhere(Stored().mem, 0x0c10_0000, NEXT, 4, 0x0c10_0000 + k);
    ScatterElsewhere(Memory(), 0x0c01_0000, 32, 4, 0x0c10_0000 + k);
    PlanAtStart(k);
  }

  lemma ReplannedWords()
    ensures Gather(Replanned().mem, 0x0c10_0000, 4) == NEXT
    ensures Gather(Replanned().mem, 0x0c01_0000, 4) == 32 && Gather(Replanned().mem, 0x0c01_0004, 4) == 9
  {
    hide Memory, Gather, Scatter;
    var m := Stored().mem;
    ScatterGather(m, 0x0c10_0000, NEXT);
    ScatterElsewhere(m, 0x0c10_0000, NEXT, 4, 0x0c01_0000);
    ScatterElsewhere(m, 0x0c10_0000, NEXT, 4, 0x0c01_0004);
    ScatterElsewhere(Memory(), 0x0c01_0000, 32, 4, 0x0c01_0004);
    ScatterGather(Memory(), 0x0c01_0000, 32);
    WordsAtStart();
  }

  lemma ReplanNoted()
    ensures Note(TWICE, PUBLISH, Replanned()) == Some(Reentered())
  {
    hide Memory, Gather, Note, Scatter;
    ReplannedWords();
    Replanning(4);
    Replanning(8);
    Replanning(12);
    Replanning(16);
    NotedPlan(Replanned(), NEXT);
  }

  lemma ReenterMove(s: Machine) returns (next: Machine)
    requires s.pc == PUBLISH && s.core == Replanned() && Intact(Replanned())
    ensures Moves(TWICE, s, next) && next.pc == PUBLISH + 2 && next.core == Reentered()
    ensures Note(TWICE, s.pc, s.core) == Some(Reentered())
  {
    hide Intact, Effect, Memory, Note, Scatter;
    ReplanNoted();
    NopEffect(s.pc, Reentered(), InAllocator(ENV, s.pc));
    assert Intact(Reentered()) by { SameCode(Replanned(), Reentered()); }
    next := PlainMove(s, Reentered(), Reentered());
  }

  lemma SameCode(c: Core, d: Core)
    requires Intact(c) && d.mem == c.mem
    ensures Intact(d)
  {
    hide Cell, ByteAt;
  }

  // ---------- the run ----------

  lemma LaidOut(c: Core)
    requires c.allocatorStack in {0, STACK} && c.slot in {None, Some(SLOT), Some(NEXT)}
    ensures Layout(ENV, c)
  {
    hide Physical, Wrap;
    Places();
  }

  ghost predicate LaidMove(s: Machine, next: Machine) {
    Moves(TWICE, s, next) && Note(TWICE, s.pc, s.core).Some? && Layout(ENV, Note(TWICE, s.pc, s.core).value)
  }

  /** Once around the allocator loop. */
  lemma Around(s: Machine, calls: nat) returns (mid: Machine, next: Machine)
    requires s.pc == OWNER && calls < 3 && s.core == Called(calls)
    ensures LaidMove(s, mid) && LaidMove(mid, next) && next.core == Called(calls + 1)
    ensures next.pc == if calls < 2 then OWNER else OWNER + 4
  {
    hide Moves, Layout, Note, Intact, Memory;
    mid := OwnerMove(s, calls);
    LaidOut(Called(calls).(allocatorStack := STACK, ownerCalls := calls + 1));
    MemoryIntact(mid.core);
    next := LoopMove(mid);
    NotedPassed(mid.pc, mid.core);
    LaidOut(mid.core);
  }

  /** From preparation to the first publication entry. */
  lemma ToPublication(s: Machine) returns (trace: seq<Machine>)
    requires s.pc == PREPARE && s.core == Start()
    ensures |trace| == 9 && trace[0] == s && trace[8].pc == PUBLISH && trace[8].core == Called(3)
    ensures forall i :: 0 <= i < 8 ==> LaidMove(trace[i], trace[i + 1])
  {
    hide Moves, Layout, Note, Intact, Memory, LaidMove, Called;
    var s1 := Prepared(s);
    var s2, s3 := Around(s1, 0);
    var s4, s5 := Around(s3, 1);
    var s6, s7 := Around(s5, 2);
    var s8 := ToPublish(s7);
    trace := [s, s1, s2, s3, s4, s5, s6, s7, s8];
  }

  lemma Prepared(s: Machine) returns (next: Machine)
    requires s.pc == PREPARE && s.core == Start()
    ensures LaidMove(s, next) && next.pc == OWNER && next.core == Called(0)
  {
    hide Moves, Layout, Note, Memory;
    next := PrepareMove(s);
    LaidOut(Called(0));
  }

  lemma ToPublish(s: Machine) returns (next: Machine)
    requires s.pc == OWNER + 4 && s.core == Called(3)
    ensures LaidMove(s, next) && next.pc == PUBLISH && next.core == Called(3)
  {
    hide Moves, Layout, Note, Intact, Memory;
    MemoryIntact(s.core);
    NotedPassed(s.pc, s.core);
    LaidOut(s.core);
    next := BranchMove(s);
  }

  /** Publication, a new plan, and publication again. */
  lemma FromPublication(s: Machine) returns (trace: seq<Machine>)
    requires s.pc == PUBLISH && s.core == Called(3)
    ensures |trace| == 6 && trace[0] == s && trace[2].core == Stored() && trace[4].core == Replanned()
    ensures trace[4].pc == PUBLISH && trace[5].core == Reentered()
    ensures forall i :: 0 <= i < 5 ==> LaidMove(trace[i], trace[i + 1])
  {
    hide Moves, Layout, Note, Intact, Memory, Scatter;
    var s1 := EnterMove(s);
    LaidOut(Entered());
    var s2 := PublishMove(s1);
    NotedPassed(s1.pc, s1.core);
    var s3 := ReplanMove(s2);
    NotedPassed(s2.pc, s2.core);
    LaidOut(Stored());
    var s4 := BranchMove(s3);
    NotedPassed(s3.pc, s3.core);
    LaidOut(Replanned());
    var s5 := ReenterMove(s4);
    LaidOut(Reentered());
    trace := [s, s1, s2, s3, s4, s5];
  }

  /** A run from a fresh installer, whose code publishes, rewrites the plan and goes back to publication.  Until
      then both words are seen right: the published one as before.  The second entry is accepted, and from
      it on the published word reads as new before any purge, and the other word, never stored to, reads as
      the published word's old value. */
  lemma ReentryCounterexample() returns (trace: seq<Machine>)
    ensures Run(TWICE, trace) && |trace| == 14 && trace[12].pc == TWICE.publish
    ensures WordOf(trace[0].core, 0x0c01_0000) == 7 && WordOf(trace[12].core, 0x0c01_0000) == 32
    ensures WordOf(trace[0].core, 0x0c01_0004) == WordOf(trace[13].core, 0x0c01_0004) == 9
    ensures Read(trace[12].core, 0xac01_0000, 4) == Some(7) && Read(trace[12].core, 0xac01_0004, 4) == Some(9)
    ensures trace[13].core.dirty && trace[13].core.purges == []
    ensures Read(trace[13].core, 0xac01_0000, 4) == Some(32) && Read(trace[13].core, 0xac01_0004, 4) == Some(7)
  {
    hide Moves, Layout, Note, Memory, Scatter, LaidMove, Gather, Start, Replanned, Reentered, WordOf, Read;
    var s := Machine(PREPARE, 0, {}, Start());
    var first := ToPublication(s);
    var second := FromPublication(first[8]);
    trace := first + second[1..];
    SeenWords();
    Joined(first, second);
  }

  lemma SeenWords()
    ensures Fresh(Start()) && WordOf(Start(), 0x0c01_0000) == 7 && WordOf(Start(), 0x0c01_0004) == 9
    ensures WordOf(Replanned(), 0x0c01_0000) == 32 && WordOf(Reentered(), 0x0c01_0004) == 9
    ensures Read(Replanned(), 0xac01_0000, 4) == Some(7) && Read(Replanned(), 0xac01_0004, 4) == Some(9)
    ensures Read(Reentered(), 0xac01_0000, 4) == Some(32) && Read(Reentered(), 0xac01_0004, 4) == Some(7)
    ensures Reentered().dirty && Reentered().purges == []
  {
    hide Memory, Scatter, Gather, Physical, Read, InRam, Wrap;
    WordsAtStart();
    ReplannedWords();
    Places();
    Uncached(Replanned());
    Uncached(Reentered());
  }

  lemma Uncached(c: Core)
    ensures Read(c, 0xac01_0000, 4) == Some(UncachedWord(c, 0x0c01_0000))
    ensures Read(c, 0xac01_0004, 4) == Some(UncachedWord(c, 0x0c01_0004))
  {
    hide Read, Gather, Physical, Wrap;
    PhysicalIsMod(0xac01_0000);
    PhysicalIsMod(0xac01_0004);
    WrapIsMod(0xac01_0000);
    WrapIsMod(0xac01_0004);
    UncachedWordIsRead(c, 0xac01_0000, 0x0c01_0000);
    UncachedWordIsRead(c, 0xac01_0004, 0x0c01_0004);
  }

  lemma Joined(first: seq<Machine>, second: seq<Machine>)
    requires |first| == 9 && |second| == 6 && first[8] == second[0] && Fresh(first[0].core)
    requires forall i :: 0 <= i < 8 ==> LaidMove(first[i], first[i + 1])
    requires forall i :: 0 <= i < 5 ==> LaidMove(second[i], second[i + 1])
    ensures Run(TWICE, first + second[1..])
  {
    hide Moves, Layout, Note;
    var trace := first + second[1..];
    forall i | 0 <= i < 13 ensures LaidMove(trace[i], trace[i + 1]) {
      if i < 8 { assert LaidMove(first[i], first[i + 1]); } else { assert LaidMove(second[i - 8], second[i - 7]); }
    }
  }
}
