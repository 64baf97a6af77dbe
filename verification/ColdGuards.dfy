/** The installer's guards in the terms of what they protect: plans, lease records, texts and byte ranges. */
module ColdGuards {
  import opened Words
  import opened Opcodes
  import opened ColdCpu
  import opened ScanBlocks
  import opened ColdWatch
  import opened ColdRun

  predicate Among(at: int, low: int, size: int) { low <= at < low + size }

  lemma RangeEnds(start: int, size: nat, low: int, bytes: int)
    requires size > 0
    ensures (forall at :: Among(at, start, size) ==> Among(at, low, bytes)) <==>
      low <= start && start + size <= low + bytes
  {
    assert Among(start, start, size) && Among(start + size - 1, start, size);
  }

  // ---------- stores ----------

  /** Every byte of the store is one of these. */
  ghost predicate Covered(p: int, count: int, low: int, bytes: int) {
    forall at :: Among(at, p, count) ==> Among(at, low, bytes)
  }

  /** What the allocator may write: words of the lease's two block headers and of the sentinel, and its frame. */
  ghost predicate AllocatorWrites(env: Profile, c: Core, p: int, count: int) {
    var begin := Physical(env.heapBegin);
    || (count == 4 && (Covered(p, 4, begin, 8) || Covered(p, 4, begin + env.leaseBytes + 32, 8)
          || Covered(p, 4, Physical(env.sentinel), 52)))
    || (count > 1 && Covered(p, count, Physical(c.allocatorStack) - 16, 16))
  }

  /** What anyone else may write: the stage, the status and the published lease. */
  ghost predicate StageWrites(env: Profile, p: int, count: int) {
    || Covered(p, count, Physical(env.stageBegin), Physical(env.stageEnd) - Physical(env.stageBegin))
    || p - Physical(env.control) in {8, 12}
  }

  lemma MayExactly(env: Profile, c: Core, p: int, count: int)
    requires count in {1, 2, 4}
    ensures AllocatorMay(env, c, p, count) <==> AllocatorWrites(env, c, p, count)
    ensures StageMay(env, p, count) <==> StageWrites(env, p, count)
  {
    hide Physical;
    var begin := Physical(env.heapBegin);
    RangeEnds(p, 4, begin, 8);
    RangeEnds(p, 4, begin + env.leaseBytes + 32, 8);
    RangeEnds(p, 4, Physical(env.sentinel), 52);
    RangeEnds(p, count, Physical(c.allocatorStack) - 16, 16);
    RangeEnds(p, count, Physical(env.stageBegin), Physical(env.stageEnd) - Physical(env.stageBegin));
  }

  /** The one publication: to the known slot, of the planned value, after one preparation, one publication entry and
      three allocator calls, before the worker, and never again. */
  predicate Publishes(env: Profile, c: Core, address: int, value: nat, count: int) {
    && c.slot == Some(address) && c.reserveAfter == value && |c.reserveStores| == 0
    && c.prepareCalls == c.publishCalls == 1 && c.ownerCalls == 3 && c.passiveCalls == 0
  }

  /** A watched store is admitted exactly when it is the allocator's own, the publication, or the stage's; and the
      published lease is not stored again once the worker runs. */
  lemma AdmittedExactly(env: Profile, c: Core, byAllocator: bool, address: int, value: nat, count: int)
    requires c.watch && count in {1, 2, 4}
    ensures var p := Physical(address);
      var reserve := env.hasBudget && count == 4 && exists slot :: c.slot == Some(slot) && Physical(slot) == p;
      Admit(env, c, byAllocator, address, value, count).Some? <==>
        && (if byAllocator then AllocatorWrites(env, c, p, count)
            else if reserve then Publishes(env, c, address, value, count) && Read(c, address, 4).Some?
            else StageWrites(env, p, count))
        && (p == Physical(env.control) + 12 ==> c.passiveCalls == 0)
  {
    hide Physical, Read, AllocatorMay, StageMay, AllocatorWrites, StageWrites;
    MayExactly(env, c, Physical(address), count);
  }

  /** The allocate and release functions, by their lengths of 206 and 154 bytes. */
  lemma AllocatorCode(env: Profile, pc: int)
    ensures InAllocator(env, pc) <==> Among(pc, env.allocator, 206) || Among(pc, env.releaser, 154)
  {
  }

  // ---------- publication ----------

  /** Consecutive words of memory. */
  function WordsAt(c: Core, at: int, n: nat): Option<seq<nat>>
    decreases n
  {
    if n == 0 then Some([])
    else match RawRead(c, at, 4)
      case None => None
      case Some(w) => Prepend([w], WordsAt(c, at + 4, n - 1))
  }

  lemma OneWord(c: Core, at: int, n: nat)
    ensures WordsAt(c, at, 0) == Some([])
    ensures n > 0 && RawRead(c, at, 4).None? ==> WordsAt(c, at, n).None?
    ensures n > 0 && RawRead(c, at, 4).Some? ==>
      WordsAt(c, at, n) == Prepend([RawRead(c, at, 4).value], WordsAt(c, at + 4, n - 1))
  {
    hide RawRead;
  }

  lemma FiveWords(c: Core, at: int)
    ensures var w0, w1, w2 := RawRead(c, at, 4), RawRead(c, at + 4, 4), RawRead(c, at + 8, 4);
      var w3, w4 := RawRead(c, at + 12, 4), RawRead(c, at + 16, 4);
      WordsAt(c, at, 5) ==
        if w0.Some? && w1.Some? && w2.Some? && w3.Some? && w4.Some?
        then Some([w0.value, w1.value, w2.value, w3.value, w4.value]) else None
  {
    hide RawRead, WordsAt;
    OneWord(c, at, 5);
    OneWord(c, at + 4, 4);
    OneWord(c, at + 8, 3);
    OneWord(c, at + 12, 2);
    OneWord(c, at + 16, 1);
    OneWord(c, at + 20, 0);
    var w0, w1, w2 := RawRead(c, at, 4), RawRead(c, at + 4, 4), RawRead(c, at + 8, 4);
    var w3, w4 := RawRead(c, at + 12, 4), RawRead(c, at + 16, 4);
    if w0.Some? && w1.Some? && w2.Some? && w3.Some? && w4.Some? {
      assert [w4.value] + [] == [w4.value] && [w3.value] + [w4.value] == [w3.value, w4.value];
      assert [w2.value] + [w3.value, w4.value] == [w2.value, w3.value, w4.value];
      assert [w1.value] + [w2.value, w3.value, w4.value] == [w1.value, w2.value, w3.value, w4.value];
      assert [w0.value] + [w1.value, w2.value, w3.value, w4.value]
        == [w0.value, w1.value, w2.value, w3.value, w4.value];
    }
  }

  /** Slot, reserve before and after, child before and after. */
  predicate Budgeted(prog: Program, plan: seq<nat>)
    requires |plan| == 5
  {
    && plan[0] > 0 && plan[0] % 4 == 0
    && 0x8c01_0000 <= plan[0] && plan[0] + 3 < 0x8c01_0000 + prog.imageBytes
    && plan[2] == plan[1] + prog.env.leaseBytes + 32 && plan[3] == plan[4] + prog.env.leaseBytes + 32
  }

  /** A publication entry is accepted exactly with a plan of zeros or a budgeted one; it sets the slot and the value
      to publish from it. */
  lemma PlanExactly(prog: Program, c: Core)
    ensures var plan := WordsAt(c, c.r[5], 5);
      && (Plan(prog, c).Some? <==>
            plan.Some? && |plan.value| == 5 && (plan.value == [0, 0, 0, 0, 0] || Budgeted(prog, plan.value)))
      && (Plan(prog, c).Some? ==>
            Plan(prog, c).value == c.(publishCalls := c.publishCalls + 1, reserveAfter := plan.value[2],
              slot := if plan.value[0] == 0 then None else Some(plan.value[0])))
  {
    hide RawRead, WordsAt;
    FiveWords(c, c.r[5]);
  }

  /** The events take the lease and the plan from R4 and R5: preparation notes both once and first, publication
      wants both again, and with a budget an allocation wants the lease. */
  lemma EventsExactly(prog: Program, pc: nat, c: Core, lease: nat, plan: nat)
    requires c.r[4..6] == [lease, plan] && prog.env.hasBudget
    ensures pc == prog.prepare && c.prepareCalls + c.ownerCalls == 0 && c.published == None ==>
      NoteEvent(prog, pc, c) ==
        Some(c.(prepareCalls := 1, book := Book(Some((lease, plan)), c.book.lease, c.book.hashes)))
    ensures pc == prog.prepare && (c.prepareCalls + c.ownerCalls > 0 || c.published != None) ==>
      NoteEvent(prog, pc, c).None?
    ensures pc == prog.publish && pc !in {prog.prepare, prog.estimate} ==>
      (NoteEvent(prog, pc, c).Some? <==> c.book.budget == Some((lease, plan)) && Plan(prog, c).Some?)
    ensures pc == prog.allocate && pc !in {prog.prepare, prog.estimate, prog.publish} ==>
      (NoteEvent(prog, pc, c) ==
         if c.book.budget.Some? && c.book.budget.value.0 == lease
         then Some(c.(book := Book(c.book.budget, Some(lease), c.book.hashes))) else None)
  {
    hide Plan, HelperCalled;
    assert c.r[4] == c.r[4..6][0] && c.r[5] == c.r[4..6][1];
  }

  /** Without a budget an allocation takes any lease. */
  lemma AllocatesFreely(prog: Program, c: Core)
    requires !prog.env.hasBudget
    ensures NoteEvent(prog, prog.allocate, c) ==
      Some(c.(book := Book(c.book.budget, Some(c.r[4]), c.book.hashes)))
  {
  }

  /** The budget helper's registers and stack, word by word. */
  lemma HelperExactly(prog: Program, c: Core)
    ensures HelperCalled(prog, c) <==>
      && c.r[4] == 0x8c01_0000 && c.r[5] == prog.imageBytes && c.r[6] == prog.heapAt && c.r[7] == prog.callAt
      && c.book.budget.Some?
      && var words := [prog.reader, 0, prog.env.leaseBytes + 32, c.book.budget.value.1];
         forall k :: 0 <= k < 4 ==> Read(c, c.r[15] + 4 * k, 4) == Some(words[k])
  {
    hide Read;
    assert c.r[4..8] == [c.r[4], c.r[5], c.r[6], c.r[7]];
    if c.book.budget.Some? {
      var plan := c.book.budget.value.1;
      var words := [prog.reader, 0, prog.env.leaseBytes + 32, plan];
      assert (forall k :: 0 <= k < 4 ==> Read(c, c.r[15] + 4 * k, 4) == Some(words[k])) <==>
        (Read(c, c.r[15] + 4 * 0, 4) == Some(words[0]) && Read(c, c.r[15] + 4 * 1, 4) == Some(words[1])
         && Read(c, c.r[15] + 4 * 2, 4) == Some(words[2]) && Read(c, c.r[15] + 4 * 3, 4) == Some(words[3]));
    }
  }

  // ---------- leaves ----------

  /** Word i of the 29-word lease record at R4. */
  function LeaseField(c: Core, i: nat): nat { Gather(c.mem, Physical(c.r[4]) + 4 * i, 4) }

  /** The worker is entered exactly with the armed lease: state 2 in word 2, the heap's begin and its first block in
      the fourth and third word from the end, published, and status 3. */
  lemma HandedExactly(prog: Program, c: Core)
    ensures Handed(prog, c) <==>
      && c.book.lease == Some(c.r[4]) && InRam(c.r[4], 4 * 29)
      && LeaseField(c, 2) == 2 && LeaseField(c, 29 - 4) == prog.env.heapBegin
      && LeaseField(c, 29 - 3) == prog.env.heapBegin + 32 && c.published == Some(prog.env.heapBegin + 32)
      && Read(c, prog.env.control + 8, 4) == Some(3)
  {
    hide Gather, InRam, Read, Physical;
    assert 4 * (29 - 4) == 100 && 4 * (29 - 3) == 104;
  }

  /** A displayed text begins with this. */
  lemma TextExactly(c: Core)
    ensures ColdText(c) <==>
      InRam(c.r[4], 48) && forall i :: 0 <= i < 5 ==> ByteAt(c.mem, Physical(c.r[4]) + i) == "COLD "[i] as int
  {
    hide ByteAt, InRam, Physical;
    var at := Physical(c.r[4]);
    if forall i :: 0 <= i < 5 ==> ByteAt(c.mem, at + i) == "COLD "[i] as int {
      assert ByteAt(c.mem, at + 0) == "COLD "[0] as int && ByteAt(c.mem, at + 1) == "COLD "[1] as int;
      assert ByteAt(c.mem, at + 2) == "COLD "[2] as int && ByteAt(c.mem, at + 3) == "COLD "[3] as int;
      assert ByteAt(c.mem, at + 4) == "COLD "[4] as int;
    }
    if ColdText(c) {
      forall i | 0 <= i < 5 ensures ByteAt(c.mem, at + i) == "COLD "[i] as int {
        if i == 0 {} else if i == 1 {} else if i == 2 {} else if i == 3 {} else {}
      }
    }
  }

  /** Only these two change the hash contexts: one starts the context at R4 afresh, the other adds the owner's code to
      it, exactly when it exists and R5 and R6 name that code. */
  lemma HashesFollowed(prog: Program, pc: nat, c: Core, context: nat, at: nat, bytes: nat)
    requires c.r[4..7] == [context, at, bytes] && pc !in {prog.passive, prog.display}
    ensures pc == prog.hashInit ==>
      NoteLeaf(prog, pc, c) == Some(c.(book := Book(c.book.budget, c.book.lease, c.book.hashes[context := []])))
    ensures pc == prog.hashUpdate != prog.hashInit ==>
      var known := context in c.book.hashes && at == prog.code && bytes == prog.codeBytes && InRam(at, bytes);
      && (NoteLeaf(prog, pc, c).Some? <==> known)
      && (known ==> NoteLeaf(prog, pc, c) == Some(c.(book := Book(c.book.budget, c.book.lease,
            c.book.hashes[context := c.book.hashes[context] + Stretch(c.mem, Physical(at), bytes)]))))
  {
    hide InRam, Physical, Stretch, Handed, ColdText;
    assert c.r[4] == c.r[4..7][0] && c.r[5] == c.r[4..7][1] && c.r[6] == c.r[4..7][2];
  }

  /** What a leaf leaves in the registers: zero, seven fixed words, and R8 to R15; T is set. */
  lemma LeafReturns(c: Core)
    ensures var after := AbiReturn(c, 0);
      && after.r == [0, 0x9999_9999, 0x99aa_bbcc, 0x99bb_ddff, 0x99cd_0032, 0x99de_2265, 0x99ef_4498, 0x9a00_66cb]
           + c.r[8..]
      && after.sr == c.sr / 2 * 2 + 1 && after == c.(r := after.r, sr := after.sr)
  {
    hide Wrap;
    LeafScratch(1, 0x9999_9999);
    LeafScratch(2, 0x99aa_bbcc);
    LeafScratch(3, 0x99bb_ddff);
    LeafScratch(4, 0x99cd_0032);
    LeafScratch(5, 0x99de_2265);
    LeafScratch(6, 0x99ef_4498);
    LeafScratch(7, 0x9a00_66cb);
  }

  lemma LeafScratch(i: nat, w: Word)
    requires 0x9988_7766 + i * 0x11_2233 == w
    ensures Wrap(0x9988_7766 + i * 0x11_2233) == w
  {
    hide Wrap;
    WrapIsMod(w);
  }
}
