/** What a watched run does to every word it may not write: at most one of them changes, once, and an
    uncached reader sees the change only after the purge. */
module ColdWords {
  import opened Words
  import opened Opcodes
  import opened ColdCpu
  import opened ScanBlocks
  import opened ColdWatch
  import opened ColdRun
  import opened ColdOrder

  /** An aligned word outside stage, allocator and control stores. */
  predicate WordFree(env: Profile, c: Core, w: int) {
    w % 4 == 0 && WordClear(env, c, w) && Clear(w, Physical(env.control) + 8, Physical(env.control) + 16)
  }

  predicate Names(slot: Option<nat>, w: int) { slot.Some? && Physical(slot.value) == w }

  /** What a 32-bit uncached read of the word returns. */
  function UncachedWord(c: Core, w: int): nat { if c.dirty && Names(c.slot, w) then c.ram else WordOf(c, w) }

  lemma UncachedWordIsRead(c: Core, address: int, w: int)
    requires Wrap(address) - Physical(address) == 0xA000_0000 && Physical(address) == w && InRam(address, 4)
    ensures Read(c, address, 4) == Some(UncachedWord(c, w))
  {
    hide Gather, Wrap, Physical;
  }

  /** The slot is a word of its own. */
  predicate Aligned(c: Core) { c.slot.Some? ==> c.slot.value % 4 == 0 }

  /** What one move may do to a free word, to the dirty line and to the record. */
  ghost predicate Touches(c: Core, after: Core, w: int) {
    && (after.reserveStores == c.reserveStores ==>
          WordOf(after, w) == WordOf(c, w) && (after.dirty ==> c.dirty && after.ram == c.ram))
    && (after.reserveStores != c.reserveStores ==>
          && c.slot.Some? && after.dirty && !c.dirty && after.ram == WordOf(c, Physical(c.slot.value))
          && WordOf(after, w) == if Names(c.slot, w) then c.reserveAfter else WordOf(c, w))
  }

  lemma SlotWord(slot: nat, w: int)
    requires slot % 4 == 0 && w % 4 == 0 && Physical(slot) != w
    ensures Clear(w, Physical(slot), Physical(slot) + 4)
  {
    hide Physical;
    PhysicalIsMod(slot);
  }

  lemma StoreTouches(env: Profile, c: Core, byAllocator: bool, address: int, value: nat, count: int, w: int)
    requires Kept(c) && Aligned(c) && WordFree(env, c, w) && count in {1, 2, 4}
    requires Write(env, c, byAllocator, address, value, count).Some?
    ensures Touches(c, Write(env, c, byAllocator, address, value, count).value, w)
  {
    hide Gather, Scatter, InRam, Wrap, Physical;
    var p := Physical(address);
    if !byAllocator && IsReserve(env, c, p, count) {
      ScatterGather(c.mem, p, value);
      if p != w {
        SlotWord(c.slot.value, w);
        ScatterElsewhere(c.mem, p, value, count, w);
      }
    } else {
      ScatterElsewhere(c.mem, p, value, count, w);
    }
  }

  lemma EffectTouches(env: Profile, op: Opcode, pc: int, c: Core, byAllocator: bool, after: Core, w: int)
    requires Kept(c) && Aligned(c) && WordFree(env, c, w) && Effect(env, op, pc, c, byAllocator) == Some(after)
    ensures Touches(c, after, w)
  {
    hide Effect, Write, Purge, Touches, Gather, Physical, WordFree;
    EffectKinds(env, op, pc, c, byAllocator, after);
    if Computes(c, after) { ComputeTouches(c, after, w); }
    else if PurgesOnce(env, c, after) {
      var address: nat :| Purge(env, c, address) == Some(after);
      PurgeTouches(env, c, address, w);
    } else {
      StoresOnceTouches(env, c, byAllocator, after, w);
    }
  }

  lemma ComputeTouches(c: Core, after: Core, w: int)
    requires Computes(c, after)
    ensures Touches(c, after, w)
  {
    hide Gather, Physical;
  }

  lemma BookedTouches(c: Core, after: Core, w: int)
    requires Computes(c.(book := after.book), after)
    ensures Touches(c, after, w) && after.slot == c.slot
  {
    hide Gather, Physical;
  }

  lemma PurgeTouches(env: Profile, c: Core, address: nat, w: int)
    requires Purge(env, c, address).Some?
    ensures Touches(c, Purge(env, c, address).value, w)
  {
    hide Gather, Physical, InRam;
  }

  lemma StoresOnceTouches(env: Profile, c: Core, byAllocator: bool, after: Core, w: int)
    requires Kept(c) && Aligned(c) && WordFree(env, c, w) && StoresOnce(env, c, byAllocator, after)
    ensures Touches(c, after, w)
  {
    hide Write, Gather, Physical, WordClear, Clear;
    var r: Registers, address: int, value: nat, count: int :|
      count in {1, 2, 4} && Write(env, c.(r := r), byAllocator, address, value, count) == Some(after);
    SameWords(env, c, r, w);
    StoreTouches(env, c.(r := r), byAllocator, address, value, count, w);
  }

  lemma SameWords(env: Profile, c: Core, r: Registers, w: int)
    requires Kept(c) && WordFree(env, c, w)
    ensures Kept(c.(r := r)) && WordFree(env, c.(r := r), w)
  {
    hide Gather, Physical;
  }

  lemma StepTouches(env: Profile, s: Machine, after: Machine, w: int)
    requires Kept(s.core) && Aligned(s.core) && WordFree(env, s.core, w) && Step(env, s) == Some(after)
    ensures Touches(s.core, after.core, w)
  {
    hide Effect, FetchOp, Goes, SlotIllegal, Kept, Transfers, HasSlot, WordFree, Gather, Physical;
    var op := FetchOp(s.core, s.pc).value;
    if !Transfers(op) {
      EffectTouches(env, op, s.pc, s.core, InAllocator(env, s.pc), after.core, w);
    } else {
      var linked := Link(op, s.pc, s.core);
      LinkWords(env, op, s.pc, s.core, w);
      if HasSlot(op) {
        var slot := FetchOp(linked, s.pc + 2).value;
        EffectTouches(env, slot, s.pc + 2, linked, InAllocator(env, s.pc), after.core, w);
      }
    }
  }

  lemma LinkWords(env: Profile, op: Opcode, pc: nat, c: Core, w: int)
    requires Kept(c) && WordFree(env, c, w)
    ensures Computes(c, Link(op, pc, c)) && Kept(Link(op, pc, c)) && WordFree(env, Link(op, pc, c), w)
  {
    hide Gather, Physical;
  }

  /** A move touches free words as its noted state allows. */
  lemma MoveTouches(prog: Program, s: Machine, after: Machine, w: int)
    requires Kept(s.core) && Aligned(s.core) && Note(prog, s.pc, s.core).Some? && Moves(prog, s, after)
    requires WordFree(prog.env, Note(prog, s.pc, s.core).value, w)
    ensures Aligned(Note(prog, s.pc, s.core).value) && Aligned(after.core)
    ensures Touches(Note(prog, s.pc, s.core).value, after.core, w)
  {
    hide Step, Note, Kept, WordFree, Gather, Touches, Moves, StoresOnce;
    NoteKept(prog, s.pc, s.core);
    NoteAligned(prog, s.pc, s.core);
    MoveKinds(prog, s, after);
    var noted, byAllocator := Note(prog, s.pc, s.core).value, InAllocator(prog.env, s.pc);
    if Computes(noted.(book := after.core.book), after.core) {
      BookedTouches(noted, after.core, w);
    } else if StoresOnce(prog.env, noted, byAllocator, after.core) {
      StoresOnceTouches(prog.env, noted, byAllocator, after.core, w);
      StoreKeepsSlot(prog.env, noted, byAllocator, after.core);
    } else {
      StepTouches(prog.env, s.(core := noted), after, w);
      StepKeepsSlot(prog.env, s.(core := noted), after);
    }
  }

  lemma NoteAligned(prog: Program, pc: nat, c: Core)
    requires Aligned(c) && Note(prog, pc, c).Some?
    ensures Aligned(Note(prog, pc, c).value)
  {
    hide NoteEvent, NoteLeaf;
    EventNoted(prog, pc, c);
    LeafNoted(prog, pc, NoteOwner(prog, pc, NoteEvent(prog, pc, c).value));
  }

  lemma StoreKeepsSlot(env: Profile, c: Core, byAllocator: bool, after: Core)
    requires StoresOnce(env, c, byAllocator, after)
    ensures after.slot == c.slot
  {
    hide Gather, Scatter, Physical, InRam, Read;
  }

  lemma EffectKeepsSlot(env: Profile, op: Opcode, pc: int, c: Core, byAllocator: bool, after: Core)
    requires Effect(env, op, pc, c, byAllocator) == Some(after)
    ensures after.slot == c.slot
  {
    hide Effect, StoresOnce, RawRead;
    EffectKinds(env, op, pc, c, byAllocator, after);
    if StoresOnce(env, c, byAllocator, after) { StoreKeepsSlot(env, c, byAllocator, after); }
  }

  lemma StepKeepsSlot(env: Profile, s: Machine, after: Machine)
    requires Step(env, s) == Some(after)
    ensures after.core.slot == s.core.slot
  {
    hide Effect, FetchOp, Goes, SlotIllegal, Transfers, HasSlot;
    var op := FetchOp(s.core, s.pc).value;
    if !Transfers(op) { EffectKeepsSlot(env, op, s.pc, s.core, InAllocator(env, s.pc), after.core); }
    else if HasSlot(op) {
      var linked := Link(op, s.pc, s.core);
      EffectKeepsSlot(env, FetchOp(linked, s.pc + 2).value, s.pc + 2, linked, InAllocator(env, s.pc), after.core);
    }
  }

  // ---------- whole runs ----------

  ghost predicate FreeAt(prog: Program, s: Machine, w: int) {
    var noted := Note(prog, s.pc, s.core);
    noted.Some? ==> WordFree(prog.env, noted.value, w)
  }

  /** The publication on record was made to this word. */
  predicate Recorded(c: Core, w: int) { c.reserveStores != [] && Physical(c.reserveStores[0].address) == w }

  lemma {:induction false} RunAligned(prog: Program, trace: seq<Machine>, i: nat)
    requires Run(prog, trace) && i < |trace|
    ensures Aligned(trace[i].core)
    decreases i
  {
    hide Kept, Gather, Physical, Note, Layout, Moves;
    if i > 0 {
      RunAligned(prog, trace, i - 1);
      RunMove(prog, trace, i - 1);
      NoteAligned(prog, trace[i - 1].pc, trace[i - 1].core);
    }
  }

  /** One move of a run, as it touches one free word. */
  lemma RunTouches(prog: Program, trace: seq<Machine>, i: nat, w: int)
    requires Run(prog, trace) && i + 1 < |trace| && FreeAt(prog, trace[i], w)
    ensures Note(prog, trace[i].pc, trace[i].core).Some?
    ensures var noted := Note(prog, trace[i].pc, trace[i].core).value;
      && Touches(noted, trace[i + 1].core, w) && Lawful(prog.env, noted, trace[i + 1].core)
      && noted.mem == trace[i].core.mem && noted.reserveStores == trace[i].core.reserveStores
      && noted.dirty == trace[i].core.dirty && noted.ram == trace[i].core.ram
      && Kept(noted) && Kept(trace[i].core) && Kept(trace[i + 1].core)
  {
    hide Kept, Gather, Physical, Note, Layout, WordFree, Touches, Lawful;
    RunAligned(prog, trace, i);
    RunMove(prog, trace, i);
    NoteKept(prog, trace[i].pc, trace[i].core);
    NoteKeepsLine(prog, trace[i]);
    assert Moves(prog, trace[i], trace[i + 1]);
    MoveTouches(prog, trace[i], trace[i + 1], w);
  }

  /** In a whole run at most one move changes any free word at all: the single publication, whether or not
      the slot was known before it.  It comes after exactly one preparation move p, the one publication
      entry e and exactly three allocator moves, all of them behind p, and before any entry of the worker.
      The word is the planned one and gets the planned value. */
  lemma ReserveStoredOnce(prog: Program, trace: seq<Machine>, i: nat, w: int) returns (p: nat, e: nat)
    requires Run(prog, trace) && i + 1 < |trace| && FreeAt(prog, trace[i], w)
    requires WordOf(trace[i].core, w) != WordOf(trace[i + 1].core, w)
    ensures var after := trace[i + 1].core;
      && Names(after.slot, w) && WordOf(after, w) == after.reserveAfter
      && after.reserveStores == [Store(after.slot.value, after.reserveAfter)]
    ensures Visits(trace, {prog.prepare}, i + 1) == {p} && Visits(trace, {prog.publish}, i + 1) == {e} && p < e <= i
    ensures |Visits(trace, Owners(prog), i)| == 3 && trace[i].pc !in Owners(prog)
    ensures forall j :: j in Visits(trace, Owners(prog), i) ==> p <= j
    ensures Visits(trace, {prog.passive}, i + 1) == {}
    ensures forall j :: 0 <= j <= i ==> trace[j].core.reserveStores == []
    ensures forall j :: i < j < |trace| ==> trace[j].core.reserveStores == trace[i + 1].core.reserveStores
  {
    hide Run, Layout, Gather, Physical, Note, Kept, Visits;
    RunTouches(prog, trace, i, w);
    p, e := PublishedInOrder(prog, trace, i);
    forall j | 0 <= j <= i ensures trace[j].core.reserveStores == [] {
      if trace[j].core.reserveStores != [] { RecordIsFinal(prog, trace, j, i); }
    }
    forall j | i < j < |trace| ensures trace[j].core.reserveStores == trace[i + 1].core.reserveStores {
      RecordIsFinal(prog, trace, i + 1, j);
    }
  }

  /** Every free word of every state of a run: the published value where the record says so, and the
      initial value everywhere else; a dirty line hides the initial value of the recorded word. */
  lemma {:induction false} WordOverRun(prog: Program, trace: seq<Machine>, k: nat, w: int)
    requires Run(prog, trace) && k < |trace| && forall j :: 0 <= j < k ==> FreeAt(prog, trace[j], w)
    ensures var now, initial := trace[k].core, WordOf(trace[0].core, w);
      && (Recorded(now, w) ==> WordOf(now, w) == now.reserveStores[0].value && (now.dirty ==> now.ram == initial))
      && (!Recorded(now, w) ==> WordOf(now, w) == initial)
      && (now.dirty ==> now.reserveStores != [])
    decreases k
  {
    hide Layout, Gather, Physical, Note, FreeAt, Moves;
    if k == 0 {
      RunKept(prog, trace, 0);
    } else {
      WordOverRun(prog, trace, k - 1, w);
      RunTouches(prog, trace, k - 1, w);
    }
  }

  /** What an uncached reader sees, in every state of every run: the initial value of the published word as
      long as its line is dirty under a slot that still names it, the published value after. */
  lemma ViewOverRun(prog: Program, trace: seq<Machine>, k: nat, w: int)
    requires Run(prog, trace) && k < |trace| && forall j :: 0 <= j < k ==> FreeAt(prog, trace[j], w)
    ensures var now, initial := trace[k].core, WordOf(trace[0].core, w);
      && (Recorded(now, w) ==>
            UncachedWord(now, w) == if now.dirty && Names(now.slot, w) then initial else now.reserveStores[0].value)
      && (!Recorded(now, w) && !(now.dirty && Names(now.slot, w)) ==> UncachedWord(now, w) == initial)
  {
    hide Run, Gather, Physical, FreeAt;
    WordOverRun(prog, trace, k, w);
  }

  /** While the line is dirty, the published word still reads as initially exactly when the slot still
      names it, or nothing changed. */
  lemma OldUntilPurgedExactly(prog: Program, trace: seq<Machine>, k: nat, w: int)
    requires Run(prog, trace) && k < |trace| && forall j :: 0 <= j < k ==> FreeAt(prog, trace[j], w)
    requires Recorded(trace[k].core, w) && trace[k].core.dirty
    ensures var now, initial := trace[k].core, WordOf(trace[0].core, w);
      UncachedWord(now, w) == initial <==> Names(now.slot, w) || now.reserveStores[0].value == initial
  {
    hide Run, Gather, Physical, FreeAt;
    WordOverRun(prog, trace, k, w);
  }

  /** One publication entry is enough for that: the slot then names the recorded word. */
  lemma OneEntryKeepsSlot(c: Core)
    requires Kept(c) && c.publishCalls == 1 && c.reserveStores != []
    ensures c.slot == Some(c.reserveStores[0].address) && Names(c.slot, Physical(c.reserveStores[0].address))
  {
    hide Gather, Physical;
  }

  /** So in a run that entered publication only once, an uncached reader of the published word sees its initial
      value as long as the line is dirty. */
  lemma OneEntryStaysOld(prog: Program, trace: seq<Machine>, k: nat, w: int)
    requires Run(prog, trace) && k < |trace| && forall j :: 0 <= j < k ==> FreeAt(prog, trace[j], w)
    requires Recorded(trace[k].core, w) && trace[k].core.dirty && |Visits(trace, {prog.publish}, k)| <= 1
    ensures UncachedWord(trace[k].core, w) == WordOf(trace[0].core, w)
  {
    hide Run, Gather, Physical, FreeAt;
    OldUntilPurgedExactly(prog, trace, k, w);
    CountersAreCounts(prog, trace, k);
    RunKept(prog, trace, k);
    FewerVisits(trace, Publishes(prog), {prog.publish}, k);
    OneEntryKeepsSlot(trace[k].core);
  }

  /** The line becomes dirty in the publication and only there, so once purged it stays clean. */
  lemma {:induction false} CleanStays(prog: Program, trace: seq<Machine>, i: nat, k: nat, w: int)
    requires Run(prog, trace) && i <= k < |trace| && forall j :: i <= j < k ==> FreeAt(prog, trace[j], w)
    requires trace[i].core.reserveStores != [] && !trace[i].core.dirty
    ensures !trace[k].core.dirty && trace[k].core.reserveStores == trace[i].core.reserveStores
    decreases k - i
  {
    hide Run, Layout, Gather, Physical, Note, FreeAt;
    RecordIsFinal(prog, trace, i, k);
    if i < k {
      RunTouches(prog, trace, i, w);
      RecordIsFinal(prog, trace, i, i + 1);
      CleanStays(prog, trace, i + 1, k, w);
    }
  }
}
