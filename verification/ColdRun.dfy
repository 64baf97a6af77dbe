/** Whole runs of the cold installer: entry events, leaf calls and instructions. */
module ColdRun {
  import opened Words
  import opened Opcodes
  import opened ColdCpu
  import opened ScanBlocks
  import opened ColdWatch

  const IMAGE_BASE: int := 0x8c01_0000

  /** The entry points the dispatch loop recognises, and the objects it checks at them. */
  datatype Program = Program(env: Profile, imageBytes: nat, prepare: nat, estimate: nat, publish: nat, allocate: nat,
    passive: nat, report: nat, display: nat, hashInit: nat, hashUpdate: nat, digest: nat,
    heapAt: nat, callAt: nat, reader: nat, code: nat, codeBytes: nat)

  /** A published plan: both zero-word and one-word plans, with the capacity delta checked. */
  function Plan(prog: Program, c: Core): Option<Core> {
    var at: nat := c.r[5];
    var w0, w1, w2 := RawRead(c, at, 4), RawRead(c, at + 4, 4), RawRead(c, at + 8, 4);
    var w3, w4 := RawRead(c, at + 12, 4), RawRead(c, at + 16, 4);
    if w0.None? || w1.None? || w2.None? || w3.None? || w4.None? then None
    else if w0.value == 0 then
      if w1.value == 0 && w2.value == 0 && w3.value == 0 && w4.value == 0
      then Some(c.(slot := None, reserveAfter := 0, publishCalls := c.publishCalls + 1)) else None
    else if w0.value % 4 == 0 && IMAGE_BASE <= w0.value <= IMAGE_BASE + prog.imageBytes - 4
         && w2.value - w1.value == w3.value - w4.value == prog.env.leaseBytes + 32
    then Some(c.(slot := Some(w0.value), reserveAfter := w2.value, publishCalls := c.publishCalls + 1))
    else None
  }

  /** The budget helper gets the image, the live reader, the physical cost and the prepared plan. */
  predicate HelperCalled(prog: Program, c: Core) {
    && c.r[4..8] == [IMAGE_BASE, prog.imageBytes, prog.heapAt, prog.callAt] && c.book.budget.Some?
    && Read(c, c.r[15], 4) == Some(prog.reader) && Read(c, c.r[15] + 4, 4) == Some(0)
    && Read(c, c.r[15] + 8, 4) == Some(prog.env.leaseBytes + 32)
    && Read(c, c.r[15] + 12, 4) == Some(c.book.budget.value.1)
  }

  /** The events; None is a refusal.  Publication and allocation must get the prepared objects. */
  function NoteEvent(prog: Program, pc: nat, c: Core): Option<Core> {
    if prog.env.hasBudget && pc == prog.prepare then
      if c.prepareCalls == 0 && c.ownerCalls == 0 && c.published.None?
      then Some(c.(prepareCalls := 1, book := c.book.(budget := Some((c.r[4], c.r[5]))))) else None
    else if prog.env.hasBudget && pc == prog.estimate then if HelperCalled(prog, c) then Some(c) else None
    else if prog.env.hasBudget && pc == prog.publish then
      if c.book.budget == Some((c.r[4], c.r[5])) then Plan(prog, c) else None
    else if pc == prog.allocate then
      if !prog.env.hasBudget || (c.book.budget.Some? && c.book.budget.value.0 == c.r[4])
      then Some(c.(book := c.book.(lease := Some(c.r[4])))) else None
    else Some(c)
  }

  /** The worker may be entered with the published bottom lease only. */
  predicate Handed(prog: Program, c: Core) {
    var begin, at := prog.env.heapBegin, Physical(c.r[4]);
    && c.book.lease == Some(c.r[4]) && c.published == Some(begin + 32) && Read(c, prog.env.control + 8, 4) == Some(3)
    && InRam(c.r[4], 116) && Gather(c.mem, at + 8, 4) == 2
    && Gather(c.mem, at + 100, 4) == begin && Gather(c.mem, at + 104, 4) == begin + 32
  }

  /** A display text starts with `COLD `. */
  predicate ColdText(c: Core) {
    var at := Physical(c.r[4]);
    && InRam(c.r[4], 48) && ByteAt(c.mem, at) == 0x43 && ByteAt(c.mem, at + 1) == 0x4f
    && ByteAt(c.mem, at + 2) == 0x4c && ByteAt(c.mem, at + 3) == 0x44 && ByteAt(c.mem, at + 4) == 0x20
  }

  function Stretch(mem: Ram, at: int, count: nat): seq<Byte> { seq<Byte>(count, i => ByteAt(mem, at + i)) }

  /** The leaves' own checks and records. */
  function NoteLeaf(prog: Program, pc: nat, c: Core): Option<Core> {
    if pc == prog.passive then
      if Handed(prog, c) then Some(c.(passiveCalls := c.passiveCalls + 1)) else None
    else if pc == prog.display then if ColdText(c) then Some(c) else None
    else if pc == prog.hashInit then Some(c.(book := c.book.(hashes := c.book.hashes[c.r[4] := []])))
    else if pc == prog.hashUpdate then
      if c.r[4] in c.book.hashes && c.r[5] == prog.code && c.r[6] == prog.codeBytes && InRam(prog.code, prog.codeBytes)
      then
        var more := Stretch(c.mem, Physical(prog.code), prog.codeBytes);
        Some(c.(book := c.book.(hashes := c.book.hashes[c.r[4] := c.book.hashes[c.r[4]] + more])))
      else None
    else if pc == prog.digest then
      if c.r[4] in c.book.hashes && |c.book.hashes[c.r[4]]| == prog.codeBytes then Some(c) else None
    else Some(c)
  }

  function NoteOwner(prog: Program, pc: nat, c: Core): Core {
    if pc in {prog.env.allocator, prog.env.releaser} then
      c.(allocatorStack := c.r[15], ownerCalls := c.ownerCalls + 1)
    else c
  }

  /** Bookkeeping the loop does before it dispatches at `pc`, in its order. */
  function Note(prog: Program, pc: nat, c: Core): Option<Core> {
    match NoteEvent(prog, pc, c)
    case None => None
    case Some(noted) => NoteLeaf(prog, pc, NoteOwner(prog, pc, noted))
  }

  /** Caller-saved registers are lost, the result is in r0, T is set. */
  function AbiReturn(c: Core, result: nat): Core {
    var scratch := seq(7, i requires 0 <= i < 7 => Wrap(0x9988_7766 + (i + 1) * 0x11_2233));
    Flag(c.(r := [result % 0x1_0000_0000] + scratch + c.r[8..]), true)
  }

  lemma AbiComputes(c: Core, result: nat)
    ensures Computes(c, AbiReturn(c, result)) && AbiReturn(c, result).pr == c.pr
  {
    hide Wrap;
  }

  function Returned(s: Machine, c: Core): Machine { s.(pc := c.pr, core := AbiReturn(c, 0)) }

  /** The leaves that return at once. */
  predicate Quiet(prog: Program, pc: nat) { pc in {prog.passive, prog.display, prog.hashInit, prog.hashUpdate} }

  /** The digest leaf gives its context up when it returns. */
  function Digested(c: Core): Core { c.(book := c.book.(hashes := c.book.hashes - {c.r[4]})) }

  ghost predicate DigestStores(env: Profile, s: Machine, c: Core, after: Machine) {
    && after == s.(core := after.core)
    && exists address: int, value: Byte :: Write(env, c, InAllocator(env, s.pc), address, value, 1) == Some(after.core)
  }

  /** One move of the loop: a leaf returns or writes one digest byte, or an instruction executes. */
  ghost predicate Moves(prog: Program, s: Machine, after: Machine) {
    var noted := Note(prog, s.pc, s.core);
    && noted.Some? && s.pc != prog.report
    && if Quiet(prog, s.pc) then after == Returned(s, noted.value)
       else if s.pc == prog.digest then
         after == Returned(s, Digested(noted.value)) || DigestStores(prog.env, s, noted.value, after)
       else Step(prog.env, s.(core := noted.value)) == Some(after)
  }

  lemma MovesNoted(prog: Program, s: Machine, after: Machine)
    requires Moves(prog, s, after)
    ensures Note(prog, s.pc, s.core).Some?
  {
    hide Step, Note;
  }

  /** A move computes, stores once as the digest leaf, or is an instruction. */
  lemma MoveKinds(prog: Program, s: Machine, after: Machine)
    requires Moves(prog, s, after)
    ensures var noted := Note(prog, s.pc, s.core).value;
      || (Computes(noted.(book := after.core.book), after.core) && after.core.book.budget == noted.book.budget)
      || StoresOnce(prog.env, noted, InAllocator(prog.env, s.pc), after.core)
      || Step(prog.env, s.(core := noted)) == Some(after)
  {
    hide Step, Note, Write, AbiReturn;
    var noted := Note(prog, s.pc, s.core).value;
    if Quiet(prog, s.pc) { AbiComputes(noted, 0); }
    else if s.pc == prog.digest {
      if after == Returned(s, Digested(noted)) { AbiComputes(Digested(noted), 0); }
      else { assert noted.(r := noted.r) == noted; }
    }
  }

  lemma GatherBound(mem: Ram, at: int)
    ensures Gather(mem, at, 4) < 0x1_0000_0000
  {
    hide ByteAt;
  }

  /** Entry events keep the invariant and never touch memory. */
  lemma NoteKept(prog: Program, pc: nat, c: Core)
    requires Kept(c) && Note(prog, pc, c).Some?
    ensures var noted := Note(prog, pc, c).value;
      && Kept(noted) && noted.mem == c.mem && noted.reserveStores == c.reserveStores && noted.published == c.published
      && noted.passiveCalls >= c.passiveCalls && noted.publishCalls >= c.publishCalls
      && (noted.publishCalls == c.publishCalls ==> noted.slot == c.slot)
  {
    hide Gather, Physical, NoteEvent, NoteLeaf;
    EventNoted(prog, pc, c);
    LeafNoted(prog, pc, NoteOwner(prog, pc, NoteEvent(prog, pc, c).value));
  }

  /** Events count their own entry, and only a publication entry reads a plan. */
  lemma EventNoted(prog: Program, pc: nat, c: Core)
    requires NoteEvent(prog, pc, c).Some?
    ensures var noted := NoteEvent(prog, pc, c).value;
      && noted == c.(slot := noted.slot, reserveAfter := noted.reserveAfter, prepareCalls := noted.prepareCalls,
           publishCalls := noted.publishCalls, book := noted.book)
      && noted.prepareCalls == c.prepareCalls + (if AtPrepare(prog, pc) then 1 else 0)
      && noted.publishCalls == c.publishCalls + (if AtPublish(prog, pc) then 1 else 0)
      && (!AtPublish(prog, pc) ==> noted.slot == c.slot && noted.reserveAfter == c.reserveAfter)
      && (AtPublish(prog, pc) ==> c.book.budget.Some? && noted.reserveAfter < 0x1_0000_0000)
      && (AtPublish(prog, pc) && noted.slot.Some? ==> noted.slot.value % 4 == 0)
      && (AtPrepare(prog, pc) ==> c.prepareCalls == 0 && c.ownerCalls == 0)
      && (noted.book.budget.Some? ==> c.book.budget.Some? || AtPrepare(prog, pc))
      && (c.book.budget.Some? ==> noted.book.budget.Some?)
  {
    hide HelperCalled, Plan;
    if AtPublish(prog, pc) { PlanNoted(prog, c); }
  }

  predicate AtPrepare(prog: Program, pc: nat) { prog.env.hasBudget && pc == prog.prepare }

  predicate AtPublish(prog: Program, pc: nat) {
    prog.env.hasBudget && pc == prog.publish && pc !in {prog.prepare, prog.estimate}
  }

  lemma PlanNoted(prog: Program, c: Core)
    requires Plan(prog, c).Some?
    ensures var noted := Plan(prog, c).value;
      && noted == c.(slot := noted.slot, reserveAfter := noted.reserveAfter, publishCalls := c.publishCalls + 1)
      && noted.reserveAfter < 0x1_0000_0000 && (noted.slot.Some? ==> noted.slot.value % 4 == 0)
  {
    hide Gather, Physical, InRam;
    GatherBound(c.mem, Physical(c.r[5] + 8));
  }

  lemma LeafNoted(prog: Program, pc: nat, c: Core)
    requires NoteLeaf(prog, pc, c).Some?
    ensures var noted := NoteLeaf(prog, pc, c).value;
      && noted == c.(passiveCalls := noted.passiveCalls, book := c.book.(hashes := noted.book.hashes))
      && noted.passiveCalls == c.passiveCalls + if pc == prog.passive then 1 else 0
  {
    hide Handed, ColdText, InRam, Physical, Stretch;
  }

  lemma StepLawful(env: Profile, s: Machine, after: Machine)
    requires Kept(s.core) && Layout(env, s.core) && Step(env, s) == Some(after)
    ensures Lawful(env, s.core, after.core)
  {
    hide Effect, FetchOp, Goes, SlotIllegal, Lawful, Kept, Layout, Transfers, HasSlot;
    var op := FetchOp(s.core, s.pc).value;
    if !Transfers(op) {
      EffectLawful(env, op, s.pc, s.core, InAllocator(env, s.pc), after.core);
    } else {
      var linked := Link(op, s.pc, s.core);
      LinkComputes(env, op, s.pc, s.core);
      if HasSlot(op) {
        var slot := FetchOp(linked, s.pc + 2).value;
        EffectLawful(env, slot, s.pc + 2, linked, InAllocator(env, s.pc), after.core);
        LawfulFrom(env, s.core, linked, after.core);
      } else {
        ComputeLawful(env, s.core, linked);
      }
    }
  }

  lemma LinkComputes(env: Profile, op: Opcode, pc: nat, c: Core)
    ensures Computes(c, Link(op, pc, c))
    ensures Kept(c) ==> Kept(Link(op, pc, c))
    ensures Layout(env, c) ==> Layout(env, Link(op, pc, c))
  {
    hide Gather, Physical;
  }

  /** Every move keeps the invariant and is lawful from the noted state. */
  lemma MoveLawful(prog: Program, s: Machine, after: Machine)
    requires Kept(s.core) && Moves(prog, s, after) && Note(prog, s.pc, s.core).Some?
    requires Layout(prog.env, Note(prog, s.pc, s.core).value)
    ensures Kept(Note(prog, s.pc, s.core).value)
    ensures Lawful(prog.env, Note(prog, s.pc, s.core).value, after.core) && Kept(after.core)
  {
    hide Step, Note, Kept, Layout, Gather, Moves, Computes, StoresOnce;
    NoteKept(prog, s.pc, s.core);
    MoveKinds(prog, s, after);
    var noted := Note(prog, s.pc, s.core).value;
    if Computes(noted.(book := after.core.book), after.core) && after.core.book.budget == noted.book.budget {
      BookedLawful(prog.env, noted, after.core);
    } else if StoresOnce(prog.env, noted, InAllocator(prog.env, s.pc), after.core) {
      StoresOnceLawful(prog.env, noted, InAllocator(prog.env, s.pc), after.core);
    } else {
      StepLawful(prog.env, s.(core := noted), after);
    }
  }

  /** Nor does it matter which objects besides the budget are followed. */
  lemma BookedLawful(env: Profile, c: Core, after: Core)
    requires Kept(c) && Computes(c.(book := after.book), after) && after.book.budget == c.book.budget
    ensures Lawful(env, c, after)
  {
    hide Gather, Physical;
  }

  lemma StoresOnceLawful(env: Profile, c: Core, byAllocator: bool, after: Core)
    requires Kept(c) && Layout(env, c) && StoresOnce(env, c, byAllocator, after)
    ensures Lawful(env, c, after)
  {
    hide Write, Lawful, Gather, Physical;
    var r: Registers, address: int, value: nat, count: int :|
      count in {1, 2, 4} && Write(env, c.(r := r), byAllocator, address, value, count) == Some(after);
    StoreLawful(env, c.(r := r), byAllocator, address, value, count);
    LawfulFrom(env, c, c.(r := r), after);
  }

  // ---------- runs ----------

  /** A watched installer before its first instruction: nothing called, stored or recorded. */
  predicate Fresh(c: Core) {
    && c.watch && c.slot.None? && c.reserveStores == [] && c.purges == [] && !c.dirty && c.reserveAfter == 0
    && c.prepareCalls == 0 && c.publishCalls == 0 && c.ownerCalls == 0 && c.passiveCalls == 0
    && c.published.None? && c.book == Book(None, None, map[])
  }

  /** A watched run: moves from a fresh installer state, over a memory layout that keeps
      the reserve and lease words clear of what the guards let anyone else store. */
  ghost predicate Run(prog: Program, trace: seq<Machine>) {
    && |trace| > 0 && Fresh(trace[0].core)
    && forall i {:trigger trace[i]} :: 0 <= i < |trace| - 1 ==>
         && Moves(prog, trace[i], trace[i + 1])
         && Layout(prog.env, Note(prog, trace[i].pc, trace[i].core).value)
  }

  lemma {:induction false} RunKept(prog: Program, trace: seq<Machine>, i: nat)
    requires Run(prog, trace) && i < |trace|
    ensures Kept(trace[i].core)
    decreases i
  {
    hide Moves, Layout, Note, Gather;
    if i > 0 {
      RunKept(prog, trace, i - 1);
      assert Moves(prog, trace[i - 1], trace[i - 1 + 1]);
      MovesNoted(prog, trace[i - 1], trace[i]);
      MoveLawful(prog, trace[i - 1], trace[i]);
    }
  }

  /** One move of a run, with everything known about it. */
  lemma RunMove(prog: Program, trace: seq<Machine>, i: nat)
    requires Run(prog, trace) && i + 1 < |trace|
    ensures Note(prog, trace[i].pc, trace[i].core).Some?
    ensures Lawful(prog.env, Note(prog, trace[i].pc, trace[i].core).value, trace[i + 1].core)
    ensures Kept(trace[i].core) && Kept(trace[i + 1].core) && Kept(Note(prog, trace[i].pc, trace[i].core).value)
  {
    hide Layout, Note, Lawful, Kept;
    RunKept(prog, trace, i);
    RunKept(prog, trace, i + 1);
    assert Moves(prog, trace[i], trace[i + 1]);
    MovesNoted(prog, trace[i], trace[i + 1]);
    MoveLawful(prog, trace[i], trace[i + 1]);
  }

  /** The record of the publication never changes once made, and none is made after the handoff. */
  lemma {:induction false} RecordIsFinal(prog: Program, trace: seq<Machine>, i: nat, j: nat)
    requires Run(prog, trace) && i <= j < |trace|
    requires trace[i].core.reserveStores != [] || trace[i].core.passiveCalls > 0
    ensures trace[j].core.reserveStores == trace[i].core.reserveStores
    ensures trace[j].core.passiveCalls >= trace[i].core.passiveCalls
    decreases j - i
  {
    hide Run, Layout, Kept, Gather, Physical, Note;
    if i < j {
      RunMove(prog, trace, i);
      NoteKept(prog, trace[i].pc, trace[i].core);
      RecordIsFinal(prog, trace, i + 1, j);
    }
  }

  /** Entry events leave the cache line alone, and the plan too unless they read a new one. */
  lemma NoteKeepsLine(prog: Program, s: Machine)
    requires Note(prog, s.pc, s.core).Some?
    ensures var noted := Note(prog, s.pc, s.core).value;
      && (noted.publishCalls == s.core.publishCalls ==> noted.reserveAfter == s.core.reserveAfter)
      && noted.dirty == s.core.dirty && noted.ram == s.core.ram
  {
    hide NoteEvent, NoteLeaf;
    EventNoted(prog, s.pc, s.core);
    LeafNoted(prog, s.pc, NoteOwner(prog, s.pc, NoteEvent(prog, s.pc, s.core).value));
  }

  /** After the worker was entered, the lease word and its record stay as they are for the rest of the run. */
  lemma {:induction false} LeaseFrozen(prog: Program, trace: seq<Machine>, i: nat, j: nat)
    requires Run(prog, trace) && i <= j < |trace| && trace[i].core.passiveCalls > 0
    ensures WordOf(trace[j].core, LeaseWord(prog.env)) == WordOf(trace[i].core, LeaseWord(prog.env))
    ensures trace[j].core.published == trace[i].core.published
    decreases j - i
  {
    hide Run, Layout, Kept, Gather, Physical, Note, LeaseWord;
    if i < j {
      RunMove(prog, trace, i);
      NoteKept(prog, trace[i].pc, trace[i].core);
      LeaseFrozen(prog, trace, i + 1, j);
    }
  }
}
