/** Decoded blocks against single-step dispatch, for one block and for whole scans. */
module ScanRun {
  import opened Words
  import opened Opcodes
  import opened ColdCpu
  import opened ScanBlocks

  /** The reviewed code, slots included, reads the same in both states. */
  ghost predicate CodeKept(spans: Spans, a: Core, b: Core) {
    forall pc: nat :: Contains(spans, pc) ==>
      FetchOp(a, pc) == FetchOp(b, pc) && FetchOp(a, pc + 2) == FetchOp(b, pc + 2)
  }

  /** Stage code is not the game's allocator. */
  ghost predicate Apart(env: Profile, spans: Spans) {
    forall pc: nat :: Contains(spans, pc) ==> !InAllocator(env, pc)
  }

  /** The first `count` states of the reference run, as far as it gets, are inside the spans. */
  ghost predicate InsideFor(env: Profile, spans: Spans, s: Machine, count: nat) {
    forall m: nat :: m < count && StepN(env, s, m).Some? ==> Contains(spans, StepN(env, s, m).value.pc)
  }

  /** While the reference run stays inside, it never rewrites reviewed code. */
  ghost predicate CodeNeverWritten(env: Profile, spans: Spans, code: Core, s: Machine) {
    forall m: nat :: InsideFor(env, spans, s, m) && StepN(env, s, m).Some? ==>
      CodeKept(spans, code, StepN(env, s, m).value.core)
  }

  lemma {:induction false} StepNCompose(env: Profile, s: Machine, first: nat, second: nat)
    requires StepN(env, s, first).Some?
    ensures StepN(env, s, first + second) == StepN(env, StepN(env, s, first).value, second)
    decreases first
  {
    hide Step;
    if first > 0 { StepNCompose(env, Step(env, s).value, first - 1, second); }
  }

  lemma {:induction false} StepNStaysNone(env: Profile, s: Machine, first: nat, more: nat)
    requires StepN(env, s, first).None?
    ensures StepN(env, s, first + more).None?
    decreases first
  {
    hide Step;
    if first > 0 && Step(env, s).Some? { StepNStaysNone(env, Step(env, s).value, first - 1, more); }
  }

  /** Going on from a later state of the same run. */
  lemma InsideLater(env: Profile, spans: Spans, s: Machine, first: nat, second: nat)
    requires InsideFor(env, spans, s, first) && StepN(env, s, first).Some?
    ensures InsideFor(env, spans, StepN(env, s, first).value, second) <==> InsideFor(env, spans, s, first + second)
  {
    hide Step, StepN, Contains;
    var mid := StepN(env, s, first).value;
    if InsideFor(env, spans, mid, second) {
      forall m: nat | m < first + second && StepN(env, s, m).Some? ensures Contains(spans, StepN(env, s, m).value.pc) {
        if m >= first { StepNCompose(env, s, first, m - first); }
      }
    }
    if InsideFor(env, spans, s, first + second) {
      forall m: nat | m < second && StepN(env, mid, m).Some? ensures Contains(spans, StepN(env, mid, m).value.pc) {
        StepNCompose(env, s, first, m);
      }
    }
  }

  lemma InsideThenNone(env: Profile, spans: Spans, s: Machine, first: nat, more: nat)
    requires InsideFor(env, spans, s, first) && StepN(env, s, first).None?
    ensures InsideFor(env, spans, s, first + more)
  {
    hide Step, StepN, Contains;
    forall m: nat | m < first + more && StepN(env, s, m).Some? ensures Contains(spans, StepN(env, s, m).value.pc) {
      if m >= first { StepNStaysNone(env, s, first, m - first); }
    }
  }

  lemma CodeLater(env: Profile, spans: Spans, code: Core, s: Machine, first: nat)
    requires CodeNeverWritten(env, spans, code, s) && InsideFor(env, spans, s, first) && StepN(env, s, first).Some?
    ensures CodeNeverWritten(env, spans, code, StepN(env, s, first).value)
  {
    hide Step, StepN, InsideFor, CodeKept;
    var mid := StepN(env, s, first).value;
    forall m: nat | InsideFor(env, spans, mid, m) && StepN(env, mid, m).Some?
      ensures CodeKept(spans, code, StepN(env, mid, m).value.core)
    {
      InsideLater(env, spans, s, first, m);
      StepNCompose(env, s, first, m);
    }
  }

  lemma InsideOne(env: Profile, spans: Spans, s: Machine)
    ensures InsideFor(env, spans, s, 0)
    ensures Contains(spans, s.pc) ==> InsideFor(env, spans, s, 1)
  {
    hide Step;
    assert StepN(env, s, 0) == Some(s);
  }

  // ---------- one block ----------

  /** The counters a block adds, one instruction at a time. */
  lemma BlockGrows(pc: nat, op: Opcode, rest: Block)
    requires rest.first == pc + 2
    ensures var block := Block(pc, [op] + rest.body, rest.tail);
      && block.Count() == 1 + rest.Count() && block.EndPc() == rest.EndPc()
      && block.Places() == {pc} + rest.Places()
  {
    var block := Block(pc, [op] + rest.body, rest.tail);
    assert Row(pc, |block.body|) == {pc} + Row(pc + 2, |rest.body|);
  }

  /** The non-branching dispatch step, in the block's terms. */
  lemma StepBody(env: Profile, s: Machine, op: Opcode)
    requires FetchOp(s.core, s.pc) == Some(op) && !Transfers(op) && !InAllocator(env, s.pc)
    ensures Step(env, s) == match Scalar(env, op, s.pc, s.core, false)
      case None => None
      case Some(c) => Some(Machine(s.pc + 2, s.instructions + 1, s.executed + {s.pc}, c))
  {
    hide Scalar, Effect, Transfers, FetchOp;
    ScalarIsEffect(env, op, s.pc, s.core, false);
  }

  lemma LinkKeepsCode(op: Opcode, pc: nat, c: Core, a: int)
    ensures FetchOp(Link(op, pc, c), a) == FetchOp(c, a)
  {
    hide InRam;
  }

  /** The branching dispatch step with a legal slot, or none. */
  lemma StepTransfer(env: Profile, s: Machine, op: Opcode, slot: Option<Opcode>)
    requires FetchOp(s.core, s.pc) == Some(op) && Transfers(op) && !InAllocator(env, s.pc)
    requires HasSlot(op) == slot.Some?
    requires slot.Some? ==> FetchOp(s.core, s.pc + 2) == slot && !SlotIllegal(slot.value)
    ensures Step(env, s) == match RunTail(env, false, s.pc, Transfer(op, slot), s.core)
      case None => None
      case Some((pc, c)) => Some(Machine(pc, s.instructions + (if slot.Some? then 2 else 1),
        s.executed + (if slot.Some? then {s.pc, s.pc + 2} else {s.pc}), c))
  {
    hide Scalar, Effect, FetchOp, Goes, SlotIllegal, Link, Transfers, HasSlot;
    var linked := Link(op, s.pc, s.core);
    LinkKeepsCode(op, s.pc, s.core, s.pc + 2);
    if slot.Some? {
      ScalarIsEffect(env, slot.value, s.pc + 2, linked, false);
      assert s.executed + {s.pc} + {s.pc + 2} == s.executed + {s.pc, s.pc + 2};
    }
  }

  /** An unfinished transfer: dispatch refuses exactly where decoding does. */
  lemma StepRefuses(env: Profile, s: Machine, op: Opcode)
    requires FetchOp(s.core, s.pc) == Some(op) && Transfers(op) && HasSlot(op)
    requires FetchOp(s.core, s.pc + 2).None? || SlotIllegal(FetchOp(s.core, s.pc + 2).value)
    ensures Step(env, s).None?
  {
    hide Scalar, Effect, FetchOp, Goes, SlotIllegal, Link, Transfers, HasSlot;
    LinkKeepsCode(op, s.pc, s.core, s.pc + 2);
  }

  lemma DecodedRunnable(spans: Spans, code: Core, pc: nat, done: nat)
    requires done < BLOCK_LIMIT && Decode(spans, code, pc, done).Some?
    ensures Runnable(Decode(spans, code, pc, done).value)
    decreases BLOCK_LIMIT - done
  {
    hide FetchOp, Transfers, SlotIllegal, HasSlot;
    if Contains(spans, pc) && FetchOp(code, pc).Some? && !Transfers(FetchOp(code, pc).value)
       && Contains(spans, pc + 2) && done + 1 < BLOCK_LIMIT {
      DecodedRunnable(spans, code, pc + 2, done + 1);
    }
  }

  ghost predicate BlockAgrees(env: Profile, spans: Spans, code: Core, s: Machine, done: nat)
    requires done < BLOCK_LIMIT && Decode(spans, code, s.pc, done).Some?
  {
    var block := Decode(spans, code, s.pc, done).value;
    && Runnable(block)
    && RunBlock(env, block, s) == StepN(env, s, block.Dispatches())
    && InsideFor(env, spans, s, block.Dispatches())
  }

  /** A decoded block and that many dispatches end alike: both refuse, or both reach the same
      registers, memory, PR, SR, program counter, executed set and instruction count. */
  lemma {:induction false} BlockIsSteps(env: Profile, spans: Spans, code: Core, s: Machine, done: nat)
    requires done < BLOCK_LIMIT && Apart(env, spans) && CodeNeverWritten(env, spans, code, s)
    requires Decode(spans, code, s.pc, done).Some?
    ensures BlockAgrees(env, spans, code, s, done)
    decreases BLOCK_LIMIT - done
  {
    hide Step, Scalar, FetchOp, Transfers, HasSlot, SlotIllegal, InAllocator, Contains, Goes, Link, RunBlock, StepN,
      InsideFor;
    assert CodeKept(spans, code, s.core) by { StillKept(env, spans, code, s); }
    assert Contains(spans, s.pc);
    var op := FetchOp(code, s.pc).value;
    assert FetchOp(s.core, s.pc) == Some(op);
    if Transfers(op) || !Contains(spans, s.pc + 2) || done + 1 >= BLOCK_LIMIT {
      LastOfBlock(env, spans, code, s, done);
    } else {
      var rest := Decode(spans, code, s.pc + 2, done + 1).value;
      DecodedRunnable(spans, code, s.pc, done);
      DecodedRunnable(spans, code, s.pc + 2, done + 1);
      BlockGrows(s.pc, op, rest);
      assert !InAllocator(env, s.pc) && !InAllocator(env, s.pc + 2);
      BlockUnfolds(env, s, op, rest);
      StepBody(env, s, op);
      StepNOne(env, s);
      InsideOne(env, spans, s);
      if Step(env, s).Some? {
        var next := Step(env, s).value;
        CodeLater(env, spans, code, s, 1);
        BlockIsSteps(env, spans, code, next, done + 1);
        StepNCompose(env, s, 1, rest.Dispatches());
        InsideLater(env, spans, s, 1, rest.Dispatches());
      } else {
        StepNStaysNone(env, s, 1, rest.Dispatches());
        InsideThenNone(env, spans, s, 1, rest.Dispatches());
      }
    }
  }

  /** A block of one dispatch: a branch with its slot, or the last opcode that fits. */
  lemma LastOfBlock(env: Profile, spans: Spans, code: Core, s: Machine, done: nat)
    requires done < BLOCK_LIMIT && Apart(env, spans) && CodeKept(spans, code, s.core)
    requires Decode(spans, code, s.pc, done).Some? && Contains(spans, s.pc)
      && FetchOp(s.core, s.pc) == FetchOp(code, s.pc)
    requires Transfers(FetchOp(code, s.pc).value) || !Contains(spans, s.pc + 2) || done + 1 >= BLOCK_LIMIT
    ensures BlockAgrees(env, spans, code, s, done)
  {
    hide Step, Scalar, FetchOp, Transfers, HasSlot, SlotIllegal, InAllocator, Contains, Goes, Link, StepN, InsideFor;
    var block := Decode(spans, code, s.pc, done).value;
    DecodedRunnable(spans, code, s.pc, done);
    InsideOne(env, spans, s);
    StepNOne(env, s);
    var op := FetchOp(code, s.pc).value;
    if Transfers(op) {
      StepTransfer(env, s, op, block.tail.slot);
      assert block.body == [];
      assert block.Places() == if block.tail.slot.Some? then {s.pc, s.pc + 2} else {s.pc};
    } else {
      StepBody(env, s, op);
      SingleBlock(env, s, op);
    }
  }

  lemma StepNOne(env: Profile, s: Machine)
    ensures StepN(env, s, 1) == Step(env, s)
  {
    hide Step;
    if Step(env, s).Some? { assert StepN(env, Step(env, s).value, 0) == Step(env, s); }
  }

  lemma SingleBlock(env: Profile, s: Machine, op: Opcode)
    requires !InAllocator(env, s.pc)
    ensures RunBlock(env, Block(s.pc, [op], Fall), s) == match Scalar(env, op, s.pc, s.core, false)
      case None => None
      case Some(c) => Some(Machine(s.pc + 2, s.instructions + 1, s.executed + {s.pc}, c))
  {
    hide Scalar, InAllocator;
    var block := Block(s.pc, [op], Fall);
    assert Row(s.pc + 2, 0) == {};
    assert block.Places() == {s.pc};
    var r := Scalar(env, op, s.pc, s.core, false);
    assert RunBody(env, false, s.pc, [op], s.core) == r by {
      assert [op][1..] == [];
      if r.Some? { assert RunBody(env, false, s.pc + 2, [op][1..], r.value) == r; }
    }
  }

  /** Running a block is running its first opcode and then the block that follows it. */
  lemma BlockUnfolds(env: Profile, s: Machine, op: Opcode, rest: Block)
    requires !InAllocator(env, s.pc) && !InAllocator(env, s.pc + 2) && rest.first == s.pc + 2 && Runnable(rest)
    ensures RunBlock(env, Block(s.pc, [op] + rest.body, rest.tail), s) ==
      match Scalar(env, op, s.pc, s.core, false)
      case None => None
      case Some(c) => RunBlock(env, rest, Machine(s.pc + 2, s.instructions + 1, s.executed + {s.pc}, c))
  {
    hide Scalar, InAllocator, RunTail;
    var block := Block(s.pc, [op] + rest.body, rest.tail);
    BlockGrows(s.pc, op, rest);
    assert block.body[1..] == rest.body;
    assert s.executed + block.Places() == (s.executed + {s.pc}) + rest.Places();
  }

  // ---------- whole scans ----------

  /** Decoding sees only the reviewed code. */
  lemma {:induction false} DecodeKept(spans: Spans, a: Core, b: Core, pc: nat, done: nat)
    requires done < BLOCK_LIMIT && CodeKept(spans, a, b)
    ensures Decode(spans, a, pc, done) == Decode(spans, b, pc, done)
    decreases BLOCK_LIMIT - done
  {
    hide FetchOp, Transfers, HasSlot, SlotIllegal, Contains;
    if Contains(spans, pc) && done + 1 < BLOCK_LIMIT { DecodeKept(spans, a, b, pc + 2, done + 1); }
  }

  /** Where decoding refuses, dispatch refuses too, without leaving the spans first. */
  lemma {:induction false} RefusedDecodeIsRefusedRun(env: Profile, spans: Spans, code: Core, s: Machine, done: nat)
    returns (count: nat)
    requires done < BLOCK_LIMIT && Apart(env, spans) && CodeNeverWritten(env, spans, code, s)
    requires Contains(spans, s.pc) && Decode(spans, code, s.pc, done).None?
    ensures StepN(env, s, count).None? && InsideFor(env, spans, s, count)
    decreases BLOCK_LIMIT - done
  {
    hide Step, Effect, FetchOp, Transfers, HasSlot, SlotIllegal, InAllocator, Contains, Goes, Link;
    InsideOne(env, spans, s);
    assert StepN(env, s, 0) == Some(s);
    assert CodeKept(spans, code, s.core);
    StepNOne(env, s);
    count := 1;
    if FetchOp(s.core, s.pc).None? {
      NoFetchNoStep(env, s);
    } else {
      var op := FetchOp(s.core, s.pc).value;
      if Transfers(op) {
        StepRefuses(env, s, op);
      } else if Step(env, s).Some? {
        StepBody(env, s, op);
        var next := Step(env, s).value;
        CodeLater(env, spans, code, s, 1);
        var rest := RefusedDecodeIsRefusedRun(env, spans, code, next, done + 1);
        StepNCompose(env, s, 1, rest);
        InsideLater(env, spans, s, 1, rest);
        count := 1 + rest;
      }
    }
  }

  lemma NoFetchNoStep(env: Profile, s: Machine)
    requires FetchOp(s.core, s.pc).None?
    ensures Step(env, s).None?
  {
    hide FetchOp, Effect;
  }

  /** Single-stepping first leaves the spans, after `count` dispatches, in state `end`. */
  ghost predicate LeavesAt(env: Profile, spans: Spans, s: Machine, count: nat, end: Machine) {
    StepN(env, s, count) == Some(end) && InsideFor(env, spans, s, count) && !Contains(spans, end.pc)
  }

  ghost predicate Leaves(env: Profile, spans: Spans, s: Machine, end: Machine) {
    exists count: nat :: LeavesAt(env, spans, s, count, end)
  }

  /** Single-stepping is refused, or exceeds the instruction bound, before it leaves the spans. */
  ghost predicate Fails(env: Profile, spans: Spans, s: Machine) {
    exists count: nat ::
      && InsideFor(env, spans, s, count)
      && (StepN(env, s, count).None? || StepN(env, s, count).value.instructions - s.instructions >= 200_000_000)
  }

  /** The state of a scan after `count` dispatches of the reference run. */
  ghost predicate Following(env: Profile, spans: Spans, start: Machine, count: nat, now: Machine) {
    && StepN(env, start, count) == Some(now) && InsideFor(env, spans, start, count)
    && CodeNeverWritten(env, spans, start.core, now) && CodeKept(spans, start.core, now.core)
  }

  lemma FollowingStart(env: Profile, spans: Spans, s: Machine)
    requires CodeNeverWritten(env, spans, s.core, s)
    ensures Following(env, spans, s, 0, s)
  {
    hide CodeNeverWritten, Contains, FetchOp, Step;
    StartInside(env, spans, s);
  }

  /** One block either carries the scan further along the reference run or shows that it fails. */
  lemma BlockAdvances(env: Profile, spans: Spans, start: Machine, count: nat, now: Machine, block: Block)
    requires Following(env, spans, start, count, now) && Apart(env, spans)
    requires Decode(spans, start.core, now.pc, 0) == Some(block)
    ensures Runnable(block)
    ensures RunBlock(env, block, now).None? ==> Fails(env, spans, start)
    ensures RunBlock(env, block, now).Some? ==>
      Following(env, spans, start, count + block.Dispatches(), RunBlock(env, block, now).value)
      && RunBlock(env, block, now).value.instructions > now.instructions
  {
    hide Step, StepN, RunBlock, Contains, CodeNeverWritten, InsideFor, Apart, CodeKept, Runnable, Decode;
    BlockIsSteps(env, spans, start.core, now, 0);
    StepNCompose(env, start, count, block.Dispatches());
    InsideLater(env, spans, start, count, block.Dispatches());
    if RunBlock(env, block, now).Some? {
      BlockCounts(env, block, now);
      CodeLater(env, spans, start.core, now, block.Dispatches());
      StillKept(env, spans, start.core, RunBlock(env, block, now).value);
    }
  }

  lemma DecodeFails(env: Profile, spans: Spans, start: Machine, count: nat, now: Machine)
    requires Following(env, spans, start, count, now) && Apart(env, spans) && Contains(spans, now.pc)
    requires Decode(spans, start.core, now.pc, 0).None?
    ensures Fails(env, spans, start)
  {
    hide Step, StepN, Contains, CodeNeverWritten, InsideFor, Apart, CodeKept, Decode;
    var more := RefusedDecodeIsRefusedRun(env, spans, start.core, now, 0);
    StepNCompose(env, start, count, more);
    InsideLater(env, spans, start, count, more);
  }

  class Scanner {
    const env: Profile
    const spans: Spans
    var cpu: Machine
    var blocks: map<nat, Block>

    constructor (env: Profile, spans: Spans, cpu: Machine)
      ensures this.env == env && this.spans == spans && this.cpu == cpu && blocks == map[]
    {
      this.env, this.spans, this.cpu, this.blocks := env, spans, cpu, map[];
    }

    /** Every cached block is what decoding the present code gives. */
    ghost predicate Cached()
      reads this
    {
      forall pc :: pc in blocks ==> Decode(spans, cpu.core, pc, 0) == Some(blocks[pc])
    }

    /** Run cached or newly decoded blocks until control leaves the spans. */
    method Run() returns (ok: bool)
      requires Cached() && Apart(env, spans) && CodeNeverWritten(env, spans, cpu.core, cpu)
      modifies this
      ensures ok ==> Leaves(env, spans, old(cpu), cpu) && Cached()
      ensures ok ==> cpu.instructions - old(cpu).instructions < 200_000_000
      ensures old(blocks).Keys <= blocks.Keys && (ok && Contains(spans, old(cpu).pc) ==> old(cpu).pc in blocks)
      ensures !ok ==> Fails(env, spans, old(cpu))
    {
      hide Step, StepN, RunBlock, Contains, CodeNeverWritten, Following, InsideFor, Apart, Runnable, Decode, Fails;
      var start := cpu;
      ghost var count: nat := 0;
      FollowingStart(env, spans, start);
      while Contains(spans, cpu.pc)
        invariant Following(env, spans, start, count, cpu) && cpu.instructions - start.instructions < INSTRUCTION_BOUND
        invariant forall pc :: pc in blocks ==> Decode(spans, start.core, pc, 0) == Some(blocks[pc])
        invariant old(blocks).Keys <= blocks.Keys && (cpu == start || start.pc in blocks)
        decreases INSTRUCTION_BOUND + start.instructions - cpu.instructions
      {
        FollowingDecodes(env, spans, start, count, cpu, cpu.pc);
        var block: Block;
        if cpu.pc in blocks {
          block := blocks[cpu.pc];
        } else {
          var decoded := Decode(spans, cpu.core, cpu.pc, 0);
          if decoded.None? {
            DecodeFails(env, spans, start, count, cpu);
            return false;
          }
          block := decoded.value;
          blocks := blocks[cpu.pc := block];
        }
        BlockAdvances(env, spans, start, count, cpu, block);
        var next := RunBlock(env, block, cpu);
        if next.None? {
          return false;
        }
        cpu := next.value;
        count := count + block.Dispatches();
        if cpu.instructions - start.instructions >= INSTRUCTION_BOUND {
          BoundFails(env, spans, start, count, cpu);
          return false;
        }
      }
      FollowingLeaves(env, spans, start, count, cpu);
      forall pc | pc in blocks ensures Decode(spans, cpu.core, pc, 0) == Some(blocks[pc]) {
        FollowingDecodes(env, spans, start, count, cpu, pc);
      }
      ok := true;
    }
  }

  lemma FollowingDecodes(env: Profile, spans: Spans, start: Machine, count: nat, now: Machine, pc: nat)
    requires Following(env, spans, start, count, now)
    ensures Decode(spans, start.core, pc, 0) == Decode(spans, now.core, pc, 0)
  {
    hide Step, StepN, CodeNeverWritten, InsideFor, CodeKept, Decode;
    DecodeKept(spans, start.core, now.core, pc, 0);
  }

  lemma FollowingLeaves(env: Profile, spans: Spans, start: Machine, count: nat, now: Machine)
    requires Following(env, spans, start, count, now) && !Contains(spans, now.pc)
    ensures Leaves(env, spans, start, now)
  {
    hide Step, StepN, CodeNeverWritten, InsideFor, CodeKept, Contains;
    assert LeavesAt(env, spans, start, count, now);
  }

  lemma BoundFails(env: Profile, spans: Spans, start: Machine, count: nat, now: Machine)
    requires Following(env, spans, start, count, now) && now.instructions - start.instructions >= INSTRUCTION_BOUND
    ensures Fails(env, spans, start)
  {
    hide Step, StepN, CodeNeverWritten, InsideFor, CodeKept, Contains;
  }

  lemma StartInside(env: Profile, spans: Spans, s: Machine)
    ensures StepN(env, s, 0) == Some(s) && InsideFor(env, spans, s, 0) && CodeKept(spans, s.core, s.core)
  {
  }

  lemma StillKept(env: Profile, spans: Spans, code: Core, s: Machine)
    requires CodeNeverWritten(env, spans, code, s)
    ensures CodeKept(spans, code, s.core)
  {
    hide CodeKept, Step;
    assert StepN(env, s, 0) == Some(s);
    assert InsideFor(env, spans, s, 0);
  }

  lemma BlockCounts(env: Profile, block: Block, s: Machine)
    requires Runnable(block) && RunBlock(env, block, s).Some?
    ensures RunBlock(env, block, s).value.instructions == s.instructions + block.Count()
    ensures RunBlock(env, block, s).value.executed == s.executed + block.Places()
  {
    hide RunBody, RunTail;
  }

  /** The scan's answer is the reference run's: it leaves in one state only. */
  lemma LeavesOnce(env: Profile, spans: Spans, s: Machine, a: Machine, b: Machine)
    requires Leaves(env, spans, s, a) && Leaves(env, spans, s, b)
    ensures a == b
  {
    hide Step, StepN, Contains;
    var i: nat :| LeavesAt(env, spans, s, i, a);
    var j: nat :| LeavesAt(env, spans, s, j, b);
  }

  lemma {:induction false} InstructionsGrow(env: Profile, s: Machine, count: nat)
    requires StepN(env, s, count).Some?
    ensures StepN(env, s, count).value.instructions >= s.instructions
    decreases count
  {
    hide Step;
    if count > 0 {
      StepExecutes(env, s);
      InstructionsGrow(env, Step(env, s).value, count - 1);
    }
  }

  /** A reference run that leaves within the bound is never reported as a failure. */
  lemma LeavingIsNotFailing(env: Profile, spans: Spans, s: Machine, end: Machine)
    requires Leaves(env, spans, s, end) && end.instructions - s.instructions < INSTRUCTION_BOUND
    ensures !Fails(env, spans, s)
  {
    hide Step, StepN, Contains;
    var n: nat :| LeavesAt(env, spans, s, n, end);
    forall count: nat | InsideFor(env, spans, s, count)
      ensures StepN(env, s, count).Some? && StepN(env, s, count).value.instructions - s.instructions < INSTRUCTION_BOUND
    {
      assert count <= n;
      if StepN(env, s, count).None? { StepNStaysNone(env, s, count, n - count); }
      StepNCompose(env, s, count, n - count);
      InstructionsGrow(env, StepN(env, s, count).value, n - count);
    }
  }

  /** Inside the spans, a step executes its own place and at most the slot behind it. */
  lemma StepExecutes(env: Profile, s: Machine)
    requires Step(env, s).Some?
    ensures Step(env, s).value.instructions > s.instructions
    ensures Step(env, s).value.executed <= s.executed + {s.pc, s.pc + 2}
    ensures s.pc in Step(env, s).value.executed && s.executed <= Step(env, s).value.executed
    ensures s.pc + 2 in Step(env, s).value.executed - s.executed ==>
      FetchOp(s.core, s.pc).Some? && HasSlot(FetchOp(s.core, s.pc).value)
  {
    hide Effect, FetchOp, Goes, SlotIllegal;
  }

  /** No instruction outside the spans runs, except a delay slot of one inside. */
  lemma {:induction false} OnlySpansExecute(env: Profile, spans: Spans, s: Machine, count: nat, place: int)
    requires InsideFor(env, spans, s, count) && StepN(env, s, count).Some?
    requires place in StepN(env, s, count).value.executed - s.executed
    ensures Contains(spans, place) || Contains(spans, place - 2)
    decreases count
  {
    hide Step, Contains;
    if count > 0 {
      var next := Step(env, s).value;
      assert StepN(env, s, 0) == Some(s);
      StepExecutes(env, s);
      StepNOne(env, s);
      InsideOne(env, spans, s);
      if place !in next.executed {
        InsideLater(env, spans, s, 1, count - 1);
        OnlySpansExecute(env, spans, next, count - 1, place);
      }
    }
  }
}
