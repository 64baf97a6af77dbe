/** The 84-byte owner frame of the disc VMU stage: the entry trampoline saves a
    running game's registers, a relay runs, and the resume code restores them. */
module EntryFrame {
  import opened Words
  import opened Opcodes
  import opened Sh4
  import opened Cursor
  import opened Publication
  import Instructions

  const CCR: Word := 0xff00_001c
  const FRAME_WORDS: int := 21
  const UNCACHED: int := 0x2000_0000
  const ENTRY: Word := 0xac01_0000

  // ---------- what the audit pins ----------

  /** Push number i of the trampoline: r0-r14, then PR, SR, VBR, GBR, MACH, MACL. */
  function SaveOp(i: int): Opcode
    requires 0 <= i < FRAME_WORDS
  {
    if i < 15 then Opcode(2, 15, i, 6)
    else if i == 15 then Opcode(4, 15, 2, 2)
    else if i == 16 then Opcode(4, 15, 0, 3)
    else if i == 17 then Opcode(4, 15, 2, 3)
    else if i == 18 then Opcode(4, 15, 1, 3)
    else if i == 19 then Opcode(4, 15, 0, 2)
    else Opcode(4, 15, 1, 2)
  }

  function Saves(count: int): seq<Item>
    requires 0 <= count <= FRAME_WORDS
  {
    seq(count, i requires 0 <= i < count => Op(SaveOp(i)))
  }

  function MaskAndLoad(resume: int): seq<Item> {
    [Op(Opcode(0, 0, 0, 2)), Op(Opcode(12, 11, 15, 0)), Op(Opcode(4, 0, 0, 14)), Lit(0, resume + UNCACHED)]
  }

  function Jump0(): seq<Item> { [Op(Opcode(4, 0, 2, 11)), Op(NOP)] }

  function Trampoline(resume: int): seq<Item> {
    Saves(FRAME_WORDS) + MaskAndLoad(resume) + Jump0()
  }

  function Nops(): seq<Item> { seq(8, _ => Op(NOP)) }

  function KeepFrame(): seq<Item> {
    [Op(Opcode(6, 8, 15, 3)), Lit(15, 0x8cff_0000), Lit(0, CCR), Op(Opcode(6, 9, 0, 2))]
  }

  function ScanMode(): seq<Item> {
    [Lit(0, CCR), Lit(1, 0x908), Op(Opcode(2, 0, 1, 2))]
  }

  function Arguments(relay: int): seq<Item> {
    [Op(Opcode(6, 4, 8, 3)), Op(Opcode(6, 5, 9, 3)), Lit(0, relay)]
  }

  function CallRelay(): seq<Item> { [Op(Opcode(4, 0, 0, 11)), Op(NOP)] }

  function RestoreMode(): seq<Item> {
    [Lit(0, 0x808), Op(Opcode(2, 0, 9, 11)), Lit(1, CCR), Op(Opcode(2, 1, 0, 2))]
  }

  function RestoreControls(): seq<Item> {
    [Op(Opcode(6, 15, 8, 3)), Op(Opcode(4, 15, 1, 6)), Op(Opcode(4, 15, 0, 6)), Op(Opcode(4, 15, 1, 7)),
     Op(Opcode(4, 15, 2, 7)), Op(Opcode(7, 15, 0, 4)), Op(Opcode(4, 15, 2, 6))]
  }

  /** Pops r14 down to r(15 - count). */
  function Pops(count: int): seq<Item>
    requires 0 <= count <= 14
  {
    seq(count, i requires 0 <= i < count => Op(Opcode(6, 14 - i, 15, 6)))
  }

  function RestoreSr(): seq<Item> {
    [Op(Opcode(6, 0, 15, 3)), Op(Opcode(7, 0, 12, 0)), Op(Opcode(6, 0, 0, 2)), Op(Opcode(4, 0, 0, 14)), Lit(0, ENTRY)]
  }

  function FinalJump(): seq<Item> { [Op(Opcode(4, 0, 2, 11)), Op(Opcode(6, 0, 15, 6))] }

  function ResumeHead(relay: int): seq<Item> {
    KeepFrame() + Publish() + ScanMode() + Nops() + Arguments(relay) + CallRelay()
  }

  function ResumeTail(): seq<Item> {
    RestoreMode() + Nops() + RestoreControls() + Pops(14) + RestoreSr() + FinalJump()
  }

  predicate AllZero(bytes: seq<Byte>) {
    forall i :: 0 <= i < |bytes| ==> bytes[i] == 0
  }

  /** Every condition `audit_stage` imposes on the trampoline and the resume code. */
  ghost predicate EntryAccepted(image: Image) {
    && "__disc_vmu_trampoline_start" in image.symbols
    && "__disc_vmu_trampoline_end" in image.symbols
    && "__disc_vmu_trampoline_code_end" in image.symbols
    && "_kui_disc_vmu_game_resume" in image.symbols
    && "_kui_disc_vmu_stage_relay" in image.symbols
    && var start: int := image.symbols["__disc_vmu_trampoline_start"];
       var end: int := image.symbols["__disc_vmu_trampoline_code_end"];
       var resume := image.symbols["_kui_disc_vmu_game_resume"];
       && image.symbols["__disc_vmu_trampoline_end"] == start + 128
       && Matches(image, start, Trampoline(resume))
       && 2 * |Trampoline(resume)| <= end - start <= 64
       && Bytes(image, end, start + 128 - end).Some?
       && AllZero(Bytes(image, end, start + 128 - end).value)
       && Matches(image, resume, ResumeHead(image.symbols["_kui_disc_vmu_stage_relay"]) + ResumeTail())
  }

  /** The bytes both sequences were read from. */
  function EntryWitnesses(image: Image): seq<Witness>
    requires EntryAccepted(image)
  {
    var resume, relay := image.symbols["_kui_disc_vmu_game_resume"], image.symbols["_kui_disc_vmu_stage_relay"];
    AllWitnesses(image, image.symbols["__disc_vmu_trampoline_start"], Trampoline(resume))
    + AllWitnesses(image, resume, ResumeHead(relay) + ResumeTail())
  }

  /** The audit of both sequences, in the order the cursor visits them. */
  method AuditEntry(image: Image) returns (ok: bool, witnesses: seq<Witness>)
    ensures ok == EntryAccepted(image)
    ensures ok ==> witnesses == EntryWitnesses(image)
  {
    hide Trampoline, ResumeHead, ResumeTail, Matches, AllWitnesses, Bytes;
    witnesses := [];
    if "__disc_vmu_trampoline_start" !in image.symbols || "__disc_vmu_trampoline_end" !in image.symbols ||
       "__disc_vmu_trampoline_code_end" !in image.symbols || "_kui_disc_vmu_game_resume" !in image.symbols ||
       "_kui_disc_vmu_stage_relay" !in image.symbols {
      return false, [];
    }
    var start: int := image.symbols["__disc_vmu_trampoline_start"];
    if image.symbols["__disc_vmu_trampoline_end"] != start + 128 {
      return false, [];
    }
    var resume := image.symbols["_kui_disc_vmu_game_resume"];
    var c := new Walker(image, start);
    ok := c.ExpectAll(Trampoline(resume));
    if !ok {
      return false, [];
    }
    var end: int := image.symbols["__disc_vmu_trampoline_code_end"];
    if end - start > 64 || end - start < c.pc - start {
      return false, [];
    }
    var padding := Bytes(image, end, start + 128 - end);
    if padding.None? || !AllZero(padding.value) {
      return false, [];
    }
    var d := new Walker(image, resume);
    ok := d.ExpectAll(ResumeHead(image.symbols["_kui_disc_vmu_stage_relay"]) + ResumeTail());
    witnesses := c.witnesses + d.witnesses;
  }

  // ---------- saving ----------

  /** Word k of the frame, counted from its lowest address. */
  function FrameWord(owner: Cpu, k: int): Word
    requires 0 <= k < FRAME_WORDS
  {
    if k == 0 then owner.macl else if k == 1 then owner.mach else if k == 2 then owner.gbr
    else if k == 3 then owner.vbr else if k == 4 then Sr(owner) else if k == 5 then owner.pr
    else owner.r[20 - k]
  }

  /** Word k above an address, or below it for negative k. */
  function StackWord(base: Word, k: int): Word { Plus(base, 4 * k) }

  lemma StackWordMoves(base: Word, j: int, k: int)
    ensures StackWord(StackWord(base, j), k) == StackWord(base, j + k)
    ensures Plus(StackWord(base, k), 4) == StackWord(base, k + 1)
      && Minus(StackWord(base, k), 4) == StackWord(base, k - 1)
    ensures StackWord(base, 0) == base
  {
    hide Wrap;
    WrapPlus(base, 4 * j, 4 * k);
    WrapPlus(base, 4 * k, 4);
    WrapPlus(base, 4 * k, -4);
    WrapIsMod(base);
  }

  lemma StackWordAligned(base: Word, k: int)
    requires base % 4 == 0
    ensures StackWord(base, k) % 4 == 0
  {
    hide Wrap;
    WrapAlignment(base + 4 * k);
  }

  function SavedMemory(owner: Cpu, count: int): Memory
    requires 0 <= count <= FRAME_WORDS
  {
    if count == 0 then owner.mem
    else SavedMemory(owner, count - 1)[Key(StackWord(owner.r[15], -count)) := FrameWord(owner, FRAME_WORDS - count)]
  }

  function Saved(owner: Cpu, count: int): Cpu
    requires 0 <= count <= FRAME_WORDS
  {
    Put(owner, 15, StackWord(owner.r[15], -count)).(mem := SavedMemory(owner, count))
  }

  lemma SaveOpPushes(i: int, cpu: Cpu)
    requires 0 <= i < FRAME_WORDS
    ensures Exec(SaveOp(i), cpu) == LongPush(cpu, 15, FrameWord(cpu, FRAME_WORDS - 1 - i))
  {
    hide Exec, LongPush;
    if i < 15 {
      Instructions.PushLong(15, i, cpu);
    } else {
      Instructions.PushRegister(15, SaveOp(i).m, cpu);
      Instructions.PushControl(15, SaveOp(i).m, cpu);
    }
  }

  lemma PushExtendsFrame(owner: Cpu, count: int)
    requires 0 < count <= FRAME_WORDS && owner.r[15] % 4 == 0
    ensures LongPush(Saved(owner, count - 1), 15, FrameWord(owner, FRAME_WORDS - count))
            == Running(Saved(owner, count))
  {
    hide Key, FrameWord, StackWord;
    var sp := owner.r[15];
    StackWordMoves(sp, 0, 1 - count);
    StackWordAligned(sp, -count);
    assert Saved(owner, count).r == Saved(owner, count - 1).r[15 := StackWord(sp, -count)];
  }

  lemma {:induction false} SavesRun(owner: Cpu, count: int)
    requires 0 <= count <= FRAME_WORDS && owner.r[15] % 4 == 0
    ensures ApplyAll(Saves(count), owner) == Running(Saved(owner, count))
    decreases count
  {
    if count == 0 {
      StackWordMoves(owner.r[15], 0, 0);
      assert Saved(owner, 0) == owner;
    } else {
      hide Exec, FrameWord, SaveOp, LongPush, SavedMemory;
      SavesRun(owner, count - 1);
      var last := Op(SaveOp(count - 1));
      var mid := Saved(owner, count - 1);
      assert Saves(count) == Saves(count - 1) + [last];
      ApplyAppend(Saves(count - 1), [last], owner);
      assert Apply(last, mid) == Running(Saved(owner, count)) by {
        SaveOpPushes(count - 1, mid);
        FrameWordStable(owner, mid, FRAME_WORDS - count);
        PushExtendsFrame(owner, count);
      }
      ApplyOne(last, mid, Saved(owner, count));
    }
  }

  lemma FrameWordStable(owner: Cpu, mid: Cpu, k: int)
    requires 0 <= k < FRAME_WORDS
    requires mid == owner.(r := mid.r, mem := mid.mem) && mid.r[..15] == owner.r[..15]
    ensures FrameWord(mid, k) == FrameWord(owner, k)
  {
    if k >= 6 { assert mid.r[..15][20 - k] == owner.r[..15][20 - k]; }
  }

  /** Word k as found in memory below a frame base. */
  function Stored(mem: Memory, base: Word, k: int): Word { Peek(mem, Key(StackWord(base, k))) }

  /** Distinct words of a frame are distinct in memory, whatever window or edge it crosses. */
  lemma KeysDiffer(base: Word, j: int, k: int)
    requires 0 < k - j < 0x800_0000
    ensures Key(StackWord(base, j)) != Key(StackWord(base, k))
  {
    hide Physical, Wrap;
    var a, b := StackWord(base, j), StackWord(base, k);
    WrapIsMod(base + 4 * j);
    WrapIsMod(base + 4 * k);
    PhysicalIsMod(a);
    PhysicalIsMod(b);
    ModsDiffer(base + 4 * j, base + 4 * k);
  }

  lemma ModsDiffer(a: int, b: int)
    requires 0 < b - a < 0x2000_0000
    ensures a % 0x1_0000_0000 != b % 0x1_0000_0000
    ensures a % 0x1_0000_0000 % 0x2000_0000 != b % 0x1_0000_0000 % 0x2000_0000
  {
    SmallMod(a);
    SmallMod(b);
    var q, r := a / 0x2000_0000, b / 0x2000_0000;
    assert q <= r <= q + 1;
  }

  lemma SmallMod(a: int)
    ensures a % 0x1_0000_0000 % 0x2000_0000 == a % 0x2000_0000
  {
    var q := a / 0x1_0000_0000;
    assert a == 0x2000_0000 * (8 * q) + a % 0x1_0000_0000;
  }

  /** Only the word at the cache control register's own address shares memory with it. */
  lemma CcrDiffers(base: Word, k: int)
    ensures Key(StackWord(base, k)) == CCR <==> StackWord(base, k) == CCR
  {
    hide Physical, StackWord;
  }

  lemma {:induction false} SavedMemoryHolds(owner: Cpu, count: int, k: int)
    requires 0 <= count <= FRAME_WORDS && FRAME_WORDS - count <= k < FRAME_WORDS
    ensures Stored(SavedMemory(owner, count), StackWord(owner.r[15], -FRAME_WORDS), k) == FrameWord(owner, k)
    decreases count
  {
    hide Key, FrameWord, StackWord;
    var sp := owner.r[15];
    StackWordMoves(sp, -FRAME_WORDS, k);
    if k != FRAME_WORDS - count {
      SavedMemoryHolds(owner, count - 1, k);
      KeysDiffer(sp, -count, k - FRAME_WORDS);
    }
  }

  // ---------- from the owner to the relay ----------

  /** SR with every interrupt masked keeps its register bank. */
  lemma MaskKeepsBank(cpu: Cpu)
    ensures BankSelected(OrWord(Sr(cpu), 0xf0) / 2) == BankSelected(cpu.upper)
  {
    var masked := OrWord(Sr(cpu), 0xf0);
    assert Shift(0xf0, 8) == 0;
    ShiftCompose(0xf0, 8, 22);
    ShiftZero(22);
    ShiftCompose(0xf0, 8, 21);
    ShiftZero(21);
    OrKeepsHighBits(Sr(cpu), 0xf0, 30);
    OrKeepsHighBits(Sr(cpu), 0xf0, 29);
    assert Shift(masked / 2, 29) == Shift(Sr(cpu) / 2, 29);
    assert Shift(masked / 2, 28) == Shift(Sr(cpu) / 2, 28);
  }

  function Masked(cpu: Cpu, resume: Word): Cpu {
    var sr := OrWord(Sr(cpu), 0xf0);
    Put(cpu, 0, resume).(upper := sr / 2, t := sr % 2 == 1)
  }

  lemma MaskRuns(cpu: Cpu, resume: int)
    requires 0 <= resume + UNCACHED < 0x1_0000_0000
    ensures ApplyAll(MaskAndLoad(resume), cpu) == Running(Masked(cpu, resume + UNCACHED))
  {
    hide Exec, ApplyAll, OrWord, BankSelected;
    var items := MaskAndLoad(resume);
    var c1 := Put(cpu, 0, Sr(cpu));
    assert Apply(items[0], cpu) == Running(c1) by { Instructions.StcSr(0, cpu); }
    var c2 := Put(cpu, 0, OrWord(Sr(cpu), 0xf0));
    assert Apply(items[1], c1) == Running(c2) by { Instructions.OrImmediate(15, 0, c1); }
    var c3 := c2.(upper := c2.r[0] / 2, t := c2.r[0] % 2 == 1);
    assert Apply(items[2], c2) == Running(c3) by { Instructions.Ldc(0, 0, c2); MaskKeepsBank(cpu); }
    var c4 := Masked(cpu, resume + UNCACHED);
    assert Apply(items[3], c3) == Running(c4) by { assert c3.r[0 := resume + UNCACHED] == c4.r; }
    ApplyFour(items[0], items[1], items[2], items[3], cpu, c1, c2, c3, c4);
  }

  /** Items that do nothing, however many. */
  lemma {:induction false} NopsRun(count: nat, cpu: Cpu)
    ensures ApplyAll(seq(count, _ => Op(NOP)), cpu) == Running(cpu)
  {
    if count > 0 {
      hide Exec;
      NopsRun(count - 1, cpu);
      Instructions.Nop(cpu);
      assert seq(count, _ => Op(NOP)) == [Op(NOP)] + seq(count - 1, _ => Op(NOP));
      ApplyCons(Op(NOP), seq(count - 1, _ => Op(NOP)), cpu);
    }
  }

  lemma KeepFrameRuns(cpu: Cpu, after: Cpu)
    requires after == Put(Put(Put(Put(cpu, 8, cpu.r[15]), 15, 0x8cff_0000), 0, CCR), 9, Peek(cpu.mem, CCR))
    ensures ApplyAll(KeepFrame(), cpu) == Running(after)
  {
    hide Exec, ApplyAll, Put, Key;
    CcrKey();
    var a, d := Op(Opcode(6, 8, 15, 3)), Op(Opcode(6, 9, 0, 2));
    var c1 := Put(cpu, 8, cpu.r[15]);
    assert Apply(a, cpu) == Running(c1) by { Instructions.Mov(8, 15, cpu); }
    var c2 := Put(c1, 15, 0x8cff_0000);
    var c3 := Put(c2, 0, CCR);
    assert Apply(d, c3) == Running(after) by {
      Instructions.LoadLong(9, 0, c3);
      PutFrame(cpu, 8, cpu.r[15]);
      PutFrame(c1, 15, 0x8cff_0000);
      PutFrame(c2, 0, CCR);
    }
    ApplyFour(a, Lit(15, 0x8cff_0000), Lit(0, CCR), d, cpu, c1, c2, c3, after);
  }

  /** The cache control register is its own key: P4 does not alias. */
  lemma CcrKey()
    ensures Key(CCR) == CCR && CCR % 4 == 0
  {
    hide Physical;
  }

  lemma StoreCcr(n: Nibble, m: Nibble, cpu: Cpu)
    requires cpu.r[n] == CCR
    ensures Apply(Op(Opcode(2, n, m, 2)), cpu) == Running(cpu.(mem := cpu.mem[CCR := cpu.r[m]]))
  {
    hide Exec, Key;
    CcrKey();
    Instructions.StoreLong(n, m, cpu);
  }

  lemma ScanModeRuns(cpu: Cpu)
    ensures ApplyAll(ScanMode(), cpu) == Running(Put(Put(cpu, 0, CCR), 1, 0x908).(mem := cpu.mem[CCR := 0x908]))
  {
    hide Exec, ApplyAll, Put;
    var c1 := Put(cpu, 0, CCR);
    var c2 := Put(c1, 1, 0x908);
    PutFrame(cpu, 0, CCR);
    PutFrame(c1, 1, 0x908);
    StoreCcr(0, 1, c2);
    ApplyThree(Lit(0, CCR), Lit(1, 0x908), Op(Opcode(2, 0, 1, 2)), cpu, c1, c2, c2.(mem := cpu.mem[CCR := 0x908]));
  }

  lemma ArgumentsRun(cpu: Cpu, relay: Word, after: Cpu)
    requires after == Put(Put(Put(cpu, 4, cpu.r[8]), 5, cpu.r[9]), 0, relay)
    ensures ApplyAll(Arguments(relay), cpu) == Running(after)
  {
    hide Exec, ApplyAll, Put;
    var a, b := Op(Opcode(6, 4, 8, 3)), Op(Opcode(6, 5, 9, 3));
    var c1 := Put(cpu, 4, cpu.r[8]);
    assert Apply(a, cpu) == Running(c1) by { Instructions.Mov(4, 8, cpu); }
    var c2 := Put(c1, 5, cpu.r[9]);
    assert Apply(b, c1) == Running(c2) by { Instructions.Mov(5, 9, c1); PutFrame(cpu, 4, cpu.r[8]); }
    ApplyThree(a, b, Lit(0, relay), cpu, c1, c2, after);
  }
}
