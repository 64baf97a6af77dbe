/** The moves behind the installer's counters, and the order in which a run that publishes makes them. */
module ColdOrder {
  import opened Words
  import opened Opcodes
  import opened ColdCpu
  import opened ScanBlocks
  import opened ColdWatch
  import opened ColdRun

  /** The moves before move i that start at one of these places. */
  ghost function Visits(trace: seq<Machine>, places: set<nat>, i: nat): set<nat>
    requires i <= |trace|
  {
    set j: nat | j < i && trace[j].pc in places
  }

  lemma VisitsNext(trace: seq<Machine>, places: set<nat>, i: nat)
    requires i < |trace|
    ensures Visits(trace, places, i + 1) == Visits(trace, places, i) + (if trace[i].pc in places then {i} else {})
    ensures |Visits(trace, places, i + 1)| == |Visits(trace, places, i)| + (if trace[i].pc in places then 1 else 0)
  {
    var now, next := Visits(trace, places, i), Visits(trace, places, i + 1);
    assert next == now + (if trace[i].pc in places then {i} else {});
    assert i !in now;
  }

  function Prepares(prog: Program): set<nat> { if prog.env.hasBudget then {prog.prepare} else {} }

  function Publishes(prog: Program): set<nat> {
    if AtPublish(prog, prog.publish) then {prog.publish} else {}
  }

  function Owners(prog: Program): set<nat> { {prog.env.allocator, prog.env.releaser} }

  // ---------- counters are counts ----------

  ghost predicate Counted(prog: Program, trace: seq<Machine>, i: nat, c: Core)
    requires i <= |trace|
  {
    && c.prepareCalls == |Visits(trace, Prepares(prog), i)| && c.publishCalls == |Visits(trace, Publishes(prog), i)|
    && c.ownerCalls == |Visits(trace, Owners(prog), i)| && c.passiveCalls == |Visits(trace, {prog.passive}, i)|
  }

  lemma NoteCounts(prog: Program, pc: nat, c: Core)
    requires Note(prog, pc, c).Some?
    ensures var noted := Note(prog, pc, c).value;
      && noted.prepareCalls == c.prepareCalls + (if pc in Prepares(prog) then 1 else 0)
      && noted.publishCalls == c.publishCalls + (if pc in Publishes(prog) then 1 else 0)
      && noted.ownerCalls == c.ownerCalls + (if pc in Owners(prog) then 1 else 0)
      && noted.passiveCalls == c.passiveCalls + (if pc == prog.passive then 1 else 0)
    ensures pc in Prepares(prog) ==> c.ownerCalls == 0
    ensures pc in Publishes(prog) ==> c.book.budget.Some?
  {
    hide NoteEvent, NoteLeaf;
    EventNoted(prog, pc, c);
    LeafNoted(prog, pc, NoteOwner(prog, pc, NoteEvent(prog, pc, c).value));
  }

  lemma CountedNext(prog: Program, trace: seq<Machine>, i: nat)
    requires i < |trace| && Counted(prog, trace, i, trace[i].core) && Note(prog, trace[i].pc, trace[i].core).Some?
    ensures Counted(prog, trace, i + 1, Note(prog, trace[i].pc, trace[i].core).value)
  {
    hide Visits, Note;
    NoteCounts(prog, trace[i].pc, trace[i].core);
    VisitsNext(trace, Prepares(prog), i);
    VisitsNext(trace, Publishes(prog), i);
    VisitsNext(trace, Owners(prog), i);
    VisitsNext(trace, {prog.passive}, i);
  }

  /** In every state of every run each counter is the number of earlier moves at its entry points. */
  lemma {:induction false} CountersAreCounts(prog: Program, trace: seq<Machine>, i: nat)
    requires Run(prog, trace) && i < |trace|
    ensures Counted(prog, trace, i, trace[i].core)
    decreases i
  {
    hide Visits, Note, Layout, Moves, Gather, Physical, Kept;
    if i == 0 {
      NoVisits(trace, Prepares(prog));
      NoVisits(trace, Publishes(prog));
      NoVisits(trace, Owners(prog));
      NoVisits(trace, {prog.passive});
    } else {
      CountersAreCounts(prog, trace, i - 1);
      RunMove(prog, trace, i - 1);
      CountedNext(prog, trace, i - 1);
    }
  }

  lemma NoVisits(trace: seq<Machine>, places: set<nat>)
    ensures |Visits(trace, places, 0)| == 0
  {
    assert Visits(trace, places, 0) == {};
  }

  // ---------- where a publication can be made ----------

  lemma StorePublishes(env: Profile, c: Core, byAllocator: bool, after: Core)
    requires StoresOnce(env, c, byAllocator, after) && after.reserveStores != c.reserveStores
    ensures env.hasBudget && !byAllocator
  {
    hide Gather, Scatter, Physical, InRam, Read;
  }

  lemma EffectPublishes(env: Profile, op: Opcode, pc: int, c: Core, byAllocator: bool, after: Core)
    requires Effect(env, op, pc, c, byAllocator) == Some(after) && after.reserveStores != c.reserveStores
    ensures env.hasBudget && !byAllocator
  {
    hide Effect, StoresOnce, RawRead;
    EffectKinds(env, op, pc, c, byAllocator, after);
    if StoresOnce(env, c, byAllocator, after) { StorePublishes(env, c, byAllocator, after); }
  }

  lemma StepPublishes(env: Profile, s: Machine, after: Machine)
    requires Step(env, s) == Some(after) && after.core.reserveStores != s.core.reserveStores
    ensures env.hasBudget && !InAllocator(env, s.pc)
  {
    hide Effect, FetchOp, Goes, SlotIllegal, Transfers, HasSlot, InAllocator;
    var op := FetchOp(s.core, s.pc).value;
    if !Transfers(op) { EffectPublishes(env, op, s.pc, s.core, InAllocator(env, s.pc), after.core); }
    else if HasSlot(op) {
      var linked := Link(op, s.pc, s.core);
      EffectPublishes(env, FetchOp(linked, s.pc + 2).value, s.pc + 2, linked, InAllocator(env, s.pc), after.core);
    }
  }

  /** No allocator code publishes, and nothing does without a budget. */
  lemma MovePublishes(prog: Program, s: Machine, after: Machine)
    requires Moves(prog, s, after) && Note(prog, s.pc, s.core).Some?
    requires after.core.reserveStores != Note(prog, s.pc, s.core).value.reserveStores
    ensures prog.env.hasBudget && !InAllocator(prog.env, s.pc)
  {
    hide Step, Note, Moves, StoresOnce, InAllocator;
    MoveKinds(prog, s, after);
    var noted := Note(prog, s.pc, s.core).value;
    if StoresOnce(prog.env, noted, InAllocator(prog.env, s.pc), after.core) {
      StorePublishes(prog.env, noted, InAllocator(prog.env, s.pc), after.core);
    } else if Step(prog.env, s.(core := noted)) == Some(after) {
      StepPublishes(prog.env, s.(core := noted), after);
    }
  }

  // ---------- the order ----------

  lemma FewerVisits(trace: seq<Machine>, places: set<nat>, more: set<nat>, i: nat)
    requires i <= |trace| && places <= more
    ensures |Visits(trace, places, i)| <= |Visits(trace, more, i)|
  {
    SubsetSize(Visits(trace, places, i), Visits(trace, more, i));
  }

  lemma SubsetSize(a: set<nat>, b: set<nat>)
    requires a <= b
    ensures |a| <= |b|
  {
    assert b == a + (b - a);
  }

  lemma OneVisit(trace: seq<Machine>, places: set<nat>, i: nat) returns (j: nat)
    requires i <= |trace| && |Visits(trace, places, i)| == 1
    ensures Visits(trace, places, i) == {j} && j < i && trace[j].pc in places
  {
    var found := Visits(trace, places, i);
    j :| j in found;
    assert |found - {j}| == 0;
    assert found == {j};
  }

  /** The counts when a move publishes. */
  lemma PublishingCounts(prog: Program, trace: seq<Machine>, i: nat)
    requires Run(prog, trace) && i + 1 < |trace| && trace[i + 1].core.reserveStores != trace[i].core.reserveStores
    ensures prog.env.hasBudget && trace[i].pc !in Owners(prog)
    ensures |Visits(trace, Prepares(prog), i + 1)| == 1 && |Visits(trace, Publishes(prog), i + 1)| == 1
    ensures |Visits(trace, Owners(prog), i + 1)| == 3 && |Visits(trace, {prog.passive}, i + 1)| == 0
  {
    hide Visits, Note, Layout, Gather, Physical, Moves;
    RunMove(prog, trace, i);
    NoteKept(prog, trace[i].pc, trace[i].core);
    CountersAreCounts(prog, trace, i + 1);
    assert Moves(prog, trace[i], trace[i + 1]);
    MovePublishes(prog, trace[i], trace[i + 1]);
  }

  lemma NoneEarlier(trace: seq<Machine>, places: set<nat>, i: nat)
    requires i <= |trace| && |Visits(trace, places, i)| == 0
    ensures forall j :: 0 <= j < i ==> trace[j].pc !in places
  {
    forall j | 0 <= j < i ensures trace[j].pc !in places { assert j !in Visits(trace, places, i); }
  }

  /** The prepare move comes before every allocator move and before every publication entry. */
  lemma PreparedFirst(prog: Program, trace: seq<Machine>, p: nat, j: nat)
    requires Run(prog, trace) && p < |trace| - 1 && j < |trace| - 1 && trace[p].pc in Prepares(prog)
    ensures trace[j].pc in Owners(prog) ==> p <= j
    ensures trace[j].pc in Publishes(prog) ==> |Visits(trace, Prepares(prog), j)| > 0
  {
    hide Note, Layout, Gather, Physical, Moves, Lawful, Visits;
    RunMove(prog, trace, p);
    NoteCounts(prog, trace[p].pc, trace[p].core);
    CountersAreCounts(prog, trace, p);
    NoneEarlier(trace, Owners(prog), p);
    RunMove(prog, trace, j);
    NoteCounts(prog, trace[j].pc, trace[j].core);
    CountersAreCounts(prog, trace, j);
  }

  /** Whenever a run publishes, it made exactly one preparation move, before each of exactly three allocator or
      releaser moves, then exactly one publication entry, and never entered the worker. */
  lemma PublishedInOrder(prog: Program, trace: seq<Machine>, i: nat) returns (p: nat, e: nat)
    requires Run(prog, trace) && i + 1 < |trace| && trace[i + 1].core.reserveStores != trace[i].core.reserveStores
    ensures Visits(trace, {prog.prepare}, i + 1) == {p} && Visits(trace, {prog.publish}, i + 1) == {e} && p < e <= i
    ensures |Visits(trace, Owners(prog), i)| == 3 && trace[i].pc !in Owners(prog)
    ensures forall j :: j in Visits(trace, Owners(prog), i) ==> p <= j
    ensures Visits(trace, {prog.passive}, i + 1) == {}
  {
    hide Run, Note;
    PublishingCounts(prog, trace, i);
    VisitsNext(trace, Owners(prog), i);
    p := OneVisit(trace, Prepares(prog), i + 1);
    e := OneVisit(trace, Publishes(prog), i + 1);
    forall j | j in Visits(trace, Owners(prog), i) ensures p <= j { PreparedFirst(prog, trace, p, j); }
    PreparedFirst(prog, trace, p, e);
    EarlierVisit(trace, Prepares(prog), e, i + 1, p);
  }

  lemma EarlierVisit(trace: seq<Machine>, places: set<nat>, e: nat, i: nat, p: nat)
    requires e <= i <= |trace| && |Visits(trace, places, e)| > 0 && Visits(trace, places, i) == {p}
    ensures p < e
  {
    var j :| j in Visits(trace, places, e);
    assert j in Visits(trace, places, i);
  }
}
