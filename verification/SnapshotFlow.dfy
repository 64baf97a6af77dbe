/** `snapshot_source_retained`: a worklist over (pc, retained) that decides whether R13
    still holds the typed source whenever control first reaches the copy loop. */
module SnapshotFlow {
  import opened Words
  import opened Opcodes
  import opened Sh4
  import opened Cursor
  import opened RegisterWrites

  const HELD: Nibble := 13

  /** An abstract state: a place in the helper, and whether R13 is known to hold the source. */
  datatype Place = Place(pc: int, retained: bool)

  /** One flow problem: the helper's span, the load that fills R13 and the copy loop. */
  datatype Flow = Flow(image: Image, begin: int, end: int, load: int, loop: int)

  datatype Successors = Refused | Next(places: seq<Place>)

  predicate Unsupported(op: Opcode) {
    || op == Opcode(0, 0, 2, 11) || op == Opcode(0, 0, 1, 11)
    || (op.top == 0 && op.Imm8() in {0x03, 0x23}) || (op.top == 12 && op.n == 3)
  }

  /** What one visited place leads to, before the bounds check of each target. */
  function Expand(flow: Flow, place: Place): Successors {
    var pc := place.pc;
    match Half(flow.image, pc)
    case None => Refused
    case Some(op) =>
      var retained := place.retained || pc == flow.load;
      if pc != flow.load && Unsupported(op) then Refused
      else if Unconditional(op) then
        match Half(flow.image, pc + 2)
        case None => Refused
        case Some(slot) =>
          if SlotIllegal(slot) then Refused
          else
            var post := retained && !WritesGpr(slot, HELD);
            if op == Opcode(0, 0, 0, 11) then Next([])
            else if Calls(op) then Next([Place(pc + 4, post)])
            else if op.top == 10 then Next([Place(pc + 4 + 2 * op.SignedDisp12(), post)])
            else Refused
      else if ShortBranch(op) then
        var taken := pc + 4 + 2 * Signed8(op.Imm8());
        if !DelayedBranch(op) then Next([Place(taken, retained), Place(pc + 2, retained)])
        else
          match Half(flow.image, pc + 2)
          case None => Refused
          case Some(slot) =>
            if SlotIllegal(slot) then Refused
            else
              var post := retained && !WritesGpr(slot, HELD);
              Next([Place(taken, post), Place(pc + 4, post)])
      else
        Next([Place(pc + 2, if pc == flow.load then retained else retained && !WritesGpr(op, HELD))])
  }

  predicate InHelper(flow: Flow, place: Place) {
    flow.begin <= place.pc < flow.end && place.pc % 2 == 0
  }

  /** Visiting the place makes the analysis refuse. */
  predicate Bad(flow: Flow, place: Place) {
    if place.pc == flow.loop then !place.retained
    else
      var next := Expand(flow, place);
      next.Refused? || exists i :: 0 <= i < |next.places| && !InHelper(flow, next.places[i])
  }

  function Start(flow: Flow): Place { Place(flow.begin, false) }

  ghost predicate Leads(flow: Flow, from: Place, to: Place) {
    from.pc != flow.loop && Expand(flow, from).Next? && to in Expand(flow, from).places
  }

  /** Abstract reachability, by path length. */
  ghost predicate ReachedIn(flow: Flow, place: Place, steps: nat)
    decreases steps
  {
    if steps == 0 then place == Start(flow)
    else exists from: Place :: ReachedIn(flow, from, steps - 1) && Leads(flow, from, place)
  }

  ghost predicate Reached(flow: Flow, place: Place) {
    exists steps: nat :: ReachedIn(flow, place, steps)
  }

  /** The specification: nothing reachable is refused, and the loop is reachable. */
  ghost predicate SourceRetained(flow: Flow) {
    && (forall place: Place :: Reached(flow, place) ==> !Bad(flow, place))
    && exists place: Place :: Reached(flow, place) && place.pc == flow.loop
  }

  function Universe(flow: Flow): set<Place> {
    set pc: int, retained: bool | flow.begin <= pc < flow.end :: Place(pc, retained)
  }

  lemma ReachedNext(flow: Flow, from: Place, to: Place)
    requires Reached(flow, from) && Leads(flow, from, to)
    ensures Reached(flow, to)
  {
    hide Leads;
    var steps: nat :| ReachedIn(flow, from, steps);
    assert ReachedIn(flow, to, steps + 1);
  }

  /** A set that holds the start and every successor of its members holds everything reachable. */
  lemma {:induction false} ClosedHoldsReached(flow: Flow, seen: set<Place>, place: Place, steps: nat)
    requires Start(flow) in seen
    requires forall from, to :: from in seen && Leads(flow, from, to) ==> to in seen
    requires ReachedIn(flow, place, steps)
    ensures place in seen
    decreases steps
  {
    hide Leads;
    if steps > 0 {
      var from: Place :| ReachedIn(flow, from, steps - 1) && Leads(flow, from, place);
      ClosedHoldsReached(flow, seen, from, steps - 1);
    }
  }

  /** Loop invariant: places found are reachable, places seen are good, and seen + pending is closed. */
  ghost predicate Sound(flow: Flow, seen: set<Place>, pending: seq<Place>) {
    && (Start(flow) in seen || Start(flow) in pending)
    && (forall place <- seen :: Reached(flow, place) && !Bad(flow, place) && place in Universe(flow))
    && (forall place <- pending :: Reached(flow, place) && place in Universe(flow))
    && (forall from, to :: from in seen && Leads(flow, from, to) ==> to in seen || to in pending)
  }

  /** The analysis itself: a stack of pending places and a set of seen ones. */
  method SnapshotSourceRetained(flow: Flow) returns (ok: bool)
    requires flow.begin < flow.end
    ensures ok == SourceRetained(flow)
  {
    hide Expand, Leads, Reached, Universe;
    var pending := [Start(flow)];
    var seen: set<Place> := {};
    var reached := false;
    StartSound(flow);
    while pending != []
      invariant Sound(flow, seen, pending)
      invariant reached == exists place <- seen :: place.pc == flow.loop
      decreases |Universe(flow) - seen|, |pending|
    {
      var place := pending[|pending| - 1];
      ghost var stack := pending;
      pending := pending[..|pending| - 1];
      assert forall p :: p in stack ==> p == place || p in pending;
      if place !in seen {
        ghost var before := seen;
        assert place in Universe(flow) - seen;
        SubsetShrinks(Universe(flow), seen, place);
        if place.pc == flow.loop {
          if !place.retained {
            assert Bad(flow, place);
            return false;
          }
          seen := seen + {place};
          reached := true;
          LoopLeadsNowhere(flow, place);
        } else {
          var next := Expand(flow, place);
          if next.Refused? {
            assert Bad(flow, place);
            return false;
          }
          if exists i :: 0 <= i < |next.places| && !InHelper(flow, next.places[i]) {
            assert Bad(flow, place);
            return false;
          }
          seen := seen + {place};
          pending := pending + next.places;
          SuccessorsSound(flow, place, next.places);
        }
      }
    }
    if !reached {
      forall place: Place | Reached(flow, place) ensures place.pc != flow.loop {
        AllReachedSeen(flow, seen, place);
      }
    } else {
      forall place: Place | Reached(flow, place) ensures !Bad(flow, place) { AllReachedSeen(flow, seen, place); }
    }
    ok := reached;
  }

  lemma StartSound(flow: Flow)
    requires flow.begin < flow.end
    ensures Sound(flow, {}, [Start(flow)])
  {
    assert ReachedIn(flow, Start(flow), 0);
  }

  lemma SubsetShrinks(all: set<Place>, seen: set<Place>, place: Place)
    requires place in all && place !in seen
    ensures |all - (seen + {place})| < |all - seen|
  {
    assert all - seen == (all - (seen + {place})) + {place};
  }

  lemma LoopLeadsNowhere(flow: Flow, place: Place)
    requires place.pc == flow.loop
    ensures forall to :: !Leads(flow, place, to)
  {
  }

  lemma SuccessorsSound(flow: Flow, place: Place, places: seq<Place>)
    requires Reached(flow, place) && place.pc != flow.loop && Expand(flow, place) == Next(places)
    requires forall i :: 0 <= i < |places| ==> InHelper(flow, places[i])
    ensures forall to <- places :: Reached(flow, to) && to in Universe(flow)
    ensures forall to :: Leads(flow, place, to) <==> to in places
  {
    hide Expand, Reached;
    forall to | to in places ensures Reached(flow, to) && to in Universe(flow) {
      ReachedNext(flow, place, to);
    }
  }

  lemma AllReachedSeen(flow: Flow, seen: set<Place>, place: Place)
    requires Sound(flow, seen, []) && Reached(flow, place)
    ensures place in seen
  {
    hide Expand, Leads;
    var steps: nat :| ReachedIn(flow, place, steps);
    ClosedHoldsReached(flow, seen, place, steps);
  }

  // ---------- what the verdict means for executions ----------

  /** Floating-point instructions are not modelled: they may leave any registers. */
  predicate Floating(op: Opcode) { op.top == 15 }

  ghost predicate SlotRuns(code: Code, op: Opcode, pc: Word, cpu: Cpu, after: Cpu) {
    if !DelayedBranch(op) then after == cpu
    else
      var slot := Fetch(code, pc + 2);
      slot.Some? && !SlotIllegal(slot.value) && (Floating(slot.value) || Exec(slot.value, cpu) == Running(after))
  }

  /** One step of the helper.  A call runs its slot and returns after it with R13 kept, as the
      SH C ABI demands, and anything else changed; RTS ends the helper; instructions whose
      effect is not modelled may do anything. */
  ghost predicate HelperStep(code: Code, s: State, after: State) {
    var fetched := Fetch(code, s.pc);
    && fetched.Some?
    && var op := fetched.value;
       if Unsupported(op) then true
       else if op == Opcode(0, 0, 0, 11) then false
       else if Branches(op) then
         exists slot: Cpu :: SlotRuns(code, op, s.pc, Linked(op, s.pc, s.cpu), slot)
           && if Calls(op) then after.pc == Plus(s.pc, 4) && after.cpu.r[HELD] == slot.r[HELD]
              else after.cpu == slot && Target(op, s.pc, s.cpu) == Some(after.pc)
       else after.pc == Plus(s.pc, 2) && (Floating(op) || Plain(code, op, s.pc, s.cpu) == Running(after.cpu))
  }

  /** The helper runs where it was linked, and its pinned load puts `source` into R13. */
  ghost predicate Placed(flow: Flow, code: Code, source: Word) {
    && Loaded(flow.image, code) && 0 <= flow.begin <= flow.end <= 0x1_0000_0000
    && ItemAt(flow.image, flow.load, Lit(HELD, source))
  }

  /** The abstract place describes the concrete state. */
  ghost predicate Describes(flow: Flow, place: Place, s: State, source: Word) {
    place.pc == s.pc && (place.retained ==> s.cpu.r[HELD] == source)
  }

  lemma SlotKeeps(flow: Flow, code: Code, op: Opcode, pc: Word, cpu: Cpu, after: Cpu)
    requires Loaded(flow.image, code) && DelayedBranch(op) && SlotRuns(code, op, pc, cpu, after)
    requires Half(flow.image, pc + 2).Some?
    ensures !WritesGpr(Half(flow.image, pc + 2).value, HELD) ==> after.r[HELD] == cpu.r[HELD]
  {
    hide Loaded, Half, Fetch, Exec, WritesGpr, SlotIllegal, DelayedBranch;
    HalfFetched(flow.image, code, pc + 2, pc + 2);
    var slot := Half(flow.image, pc + 2).value;
    if !WritesGpr(slot, HELD) {
      FloatingWrites(slot);
      NotWrittenIsKept(slot, HELD, cpu);
    }
  }

  lemma FloatingWrites(op: Opcode)
    ensures Floating(op) ==> WritesGpr(op, HELD)
  {
  }

  lemma InRange(flow: Flow, place: Place, pc: int)
    requires 0 <= flow.begin <= flow.end <= 0x1_0000_0000 && InHelper(flow, place) && place.pc == pc
    ensures Wrap(pc) == pc
  {
  }

  /** The straight-line case: the pinned load establishes the source, a clearing verdict keeps it. */
  lemma PlainDescribed(flow: Flow, code: Code, source: Word, place: Place, s: State, after: State, op: Opcode)
    requires Placed(flow, code, source) && Describes(flow, place, s, source)
    requires Half(flow.image, s.pc) == Some(op) && Fetch(code, s.pc) == Some(op)
    requires !Branches(op) && !Unsupported(op) && HelperStep(code, s, after)
    ensures (if s.pc == flow.load then true else place.retained && !WritesGpr(op, HELD)) ==>
      after.cpu.r[HELD] == source
  {
    hide Loaded, Half, Long, Fetch, FetchLong, Exec, WritesGpr, Branches, LiteralAddress;
    if s.pc == flow.load {
      LongFetched(flow.image, code, LiteralAddress(s.pc, op), LiteralAddress(s.pc, op));
    } else if place.retained && !WritesGpr(op, HELD) {
      FloatingWrites(op);
      PcRelativeWrites(op);
      if !PcRelative(op) { NotWrittenIsKept(op, HELD, s.cpu); }
    }
  }

  /** A pc-relative load that is cleared for R13 has another target. */
  lemma PcRelativeWrites(op: Opcode)
    ensures PcRelative(op) && !WritesGpr(op, HELD) ==> op.top == 12 || op.n != HELD
  {
  }

  lemma ExpandPlain(flow: Flow, place: Place, op: Opcode)
    requires Half(flow.image, place.pc) == Some(op) && !Branches(op) && !Unsupported(op)
    ensures Expand(flow, place) == Next([Place(place.pc + 2,
      if place.pc == flow.load then true else place.retained && !WritesGpr(op, HELD))])
  {
    hide Half, WritesGpr, SlotIllegal;
  }

  /** The branch case: whichever way it goes, some listed target describes the arrival. */
  lemma BranchDescribed(flow: Flow, code: Code, source: Word, place: Place, s: State, after: State, op: Opcode)
    returns (to: Place)
    requires Placed(flow, code, source) && Describes(flow, place, s, source)
    requires Half(flow.image, s.pc) == Some(op) && Fetch(code, s.pc) == Some(op) && op.top != 13
    requires Branches(op) && !Bad(flow, place) && place.pc != flow.loop && HelperStep(code, s, after)
    requires s.pc != flow.load
    ensures Leads(flow, place, to) && Describes(flow, to, after, source)
  {
    hide Loaded, Half, Fetch, Exec, WritesGpr, SlotIllegal, Plain, SlotRuns;
    var next := Expand(flow, place).places;
    var slot: Cpu :| SlotRuns(code, op, s.pc, Linked(op, s.pc, s.cpu), slot)
      && if Calls(op) then after.pc == Plus(s.pc, 4) && after.cpu.r[HELD] == slot.r[HELD]
         else after.cpu == slot && Target(op, s.pc, s.cpu) == Some(after.pc);
    if DelayedBranch(op) {
      SlotKeeps(flow, code, op, s.pc, Linked(op, s.pc, s.cpu), slot);
    } else {
      NoSlot(code, op, s.pc, Linked(op, s.pc, s.cpu), slot);
    }
    assert InHelper(flow, next[0]) && InHelper(flow, next[|next| - 1]);
    InRange(flow, next[0], next[0].pc);
    InRange(flow, next[|next| - 1], next[|next| - 1].pc);
    to := if |next| == 2 && after.pc != next[0].pc then next[1] else next[0];
  }

  /** Every concrete step from a described state goes to a state some abstract successor describes. */
  lemma StepDescribed(flow: Flow, code: Code, source: Word, place: Place, s: State, after: State) returns (to: Place)
    requires Placed(flow, code, source) && Describes(flow, place, s, source)
    requires place.pc != flow.loop && !Bad(flow, place) && HelperStep(code, s, after)
    ensures Leads(flow, place, to) && Describes(flow, to, after, source)
  {
    hide Loaded, Half, Fetch, Exec, WritesGpr, SlotIllegal, Plain, Branches;
    HalfFetched(flow.image, code, s.pc, s.pc);
    var op := Half(flow.image, s.pc).value;
    LoadIsNoBranch(flow, code, source);
    if Branches(op) {
      LoadsDoNotBranch(op);
      to := BranchDescribed(flow, code, source, place, s, after, op);
    } else {
      ExpandPlain(flow, place, op);
      PlainDescribed(flow, code, source, place, s, after, op);
      to := Expand(flow, place).places[0];
      assert InHelper(flow, to);
      InRange(flow, to, to.pc);
    }
  }

  lemma LoadsDoNotBranch(op: Opcode)
    ensures Branches(op) ==> op.top != 13
  {
  }

  lemma NoSlot(code: Code, op: Opcode, pc: Word, cpu: Cpu, after: Cpu)
    requires !DelayedBranch(op) && SlotRuns(code, op, pc, cpu, after)
    ensures after == cpu
  {
  }

  lemma LoadIsNoBranch(flow: Flow, code: Code, source: Word)
    requires Placed(flow, code, source)
    ensures Half(flow.image, flow.load).Some? && Half(flow.image, flow.load).value.top == 13
  {
  }

  /** An execution of the helper: linked steps from its entry, none from the loop. */
  ghost predicate Execution(flow: Flow, code: Code, trace: seq<State>) {
    && |trace| > 0 && trace[0].pc == flow.begin
    && (forall i {:trigger trace[i]} :: 0 <= i < |trace| - 1 ==>
          trace[i].pc != flow.loop && HelperStep(code, trace[i], trace[i + 1]))
  }

  lemma {:induction false} TraceDescribed(flow: Flow, code: Code, source: Word, trace: seq<State>, i: nat)
    returns (place: Place)
    requires Placed(flow, code, source) && SourceRetained(flow) && Execution(flow, code, trace) && i < |trace|
    ensures Reached(flow, place) && Describes(flow, place, trace[i], source)
    decreases i
  {
    hide HelperStep, Placed, Bad, Leads;
    if i == 0 {
      place := Start(flow);
      assert ReachedIn(flow, place, 0);
    } else {
      var before := TraceDescribed(flow, code, source, trace, i - 1);
      assert trace[i - 1].pc != flow.loop && HelperStep(code, trace[i - 1], trace[i - 1 + 1]);
      place := StepDescribed(flow, code, source, before, trace[i - 1], trace[i]);
      ReachedNext(flow, before, place);
    }
  }

  /** If the analysis accepts, every execution that reaches the loop arrives with R13 holding the source. */
  lemma RetainedAtLoop(flow: Flow, code: Code, source: Word, trace: seq<State>)
    requires Placed(flow, code, source) && SourceRetained(flow) && Execution(flow, code, trace)
    requires trace[|trace| - 1].pc == flow.loop
    ensures trace[|trace| - 1].cpu.r[HELD] == source
  {
    hide Placed, HelperStep, Reached, Expand;
    var place := TraceDescribed(flow, code, source, trace, |trace| - 1);
    assert !Bad(flow, place);
  }
}
