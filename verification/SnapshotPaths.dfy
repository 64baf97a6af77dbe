/** The snapshot analysis over control paths of the image: what it accepts, without its worklist and places. */
module SnapshotPaths {
  import opened Words
  import opened Opcodes
  import opened Sh4
  import opened Cursor
  import opened RegisterWrites
  import opened SnapshotFlow

  /** The halfword at an address. */
  function Word16(flow: Flow, a: int): Option<nat> {
    var op := Half(flow.image, a);
    if op.None? then None else Some(Number(op.value))
  }

  function Far(w: nat): int { if w % 0x1000 < 0x800 then w % 0x1000 else w % 0x1000 - 0x1000 }

  function Near(w: nat): int { if w % 0x100 < 0x80 then w % 0x100 else w % 0x100 - 0x100 }

  /** JSR and BSR. */
  predicate Call(w: nat) { w / 0x1000 == 0xb || (w / 0x1000 == 4 && w % 0x100 == 0x0b) }

  predicate Conditional(w: nat) { w / 0x100 in {0x89, 0x8b, 0x8d, 0x8f} }

  /** RTS, BRA, the calls, JMP, BT/S and BF/S. */
  predicate Slotted(w: nat) {
    w == 0x000b || w / 0x1000 == 0xa || Call(w) || (w / 0x1000 == 4 && w % 0x100 == 0x2b) || w / 0x100 in {0x8d, 0x8f}
  }

  /** Control can go from a to b: both ways at a condition, behind a call, nowhere after RTS. */
  ghost predicate Follows(flow: Flow, a: int, b: int) {
    && Word16(flow, a).Some?
    && var w := Word16(flow, a).value;
       if w == 0x000b then false
       else if w / 0x1000 == 0xa then b == a + 4 + 2 * Far(w)
       else if Call(w) then b == a + 4
       else if Conditional(w) then b == a + 4 + 2 * Near(w) || b == a + (if Slotted(w) then 4 else 2)
       else b == a + 2
  }

  /** RTE, SLEEP, BSRF, BRAF and TRAPA. */
  predicate Foreign(w: nat) {
    w in {0x002b, 0x001b} || (w / 0x1000 == 0 && w % 0x100 in {0x03, 0x23}) || w / 0x100 == 0xc3
  }

  /** Nothing there, a transfer the analysis does not follow, or a slot that is missing or illegal. */
  ghost predicate Stops(flow: Flow, a: int) {
    || Word16(flow, a).None?
    || var w := Word16(flow, a).value;
       || (a != flow.load && Foreign(w)) || (w / 0x1000 == 4 && w % 0x100 == 0x2b)
       || (Slotted(w) && (Half(flow.image, a + 2).None? || SlotIllegal(Half(flow.image, a + 2).value)))
  }

  predicate Outside(flow: Flow, a: int) { !(flow.begin <= a < flow.end && a % 2 == 0) }

  ghost predicate Blocked(flow: Flow, a: int) {
    a != flow.loop && (Stops(flow, a) || exists b :: Follows(flow, a, b) && Outside(flow, b))
  }

  /** Passing this address runs an instruction that is reported as a write of R13; the pinned load is not. */
  predicate Clears(flow: Flow, a: int) {
    && Word16(flow, a).Some?
    && var w := Word16(flow, a).value;
       if Slotted(w) then Half(flow.image, a + 2).Some? && WritesGpr(Half(flow.image, a + 2).value, HELD)
       else !Conditional(w) && a != flow.load && WritesGpr(Half(flow.image, a).value, HELD)
  }

  /** From the entry along control edges, never on from the loop. */
  ghost predicate ControlPath(flow: Flow, p: seq<int>) {
    && |p| > 0 && p[0] == flow.begin
    && forall i {:trigger p[i]} :: 0 <= i < |p| - 1 ==> p[i] != flow.loop && Follows(flow, p[i], p[i + 1])
  }

  /** The load is on the path, and nothing from it on is a write. */
  predicate LoadedLast(flow: Flow, p: seq<int>) {
    exists i :: 0 <= i < |p| - 1 && p[i] == flow.load && forall j :: i <= j < |p| - 1 ==> !Clears(flow, p[j])
  }

  /** No path is blocked, some path reaches the loop, and on each that does the load comes after the last write. */
  ghost predicate PathsAccept(flow: Flow) {
    && (forall p {:trigger ControlPath(flow, p)} :: ControlPath(flow, p) ==> !Blocked(flow, p[|p| - 1]))
    && (exists p :: ControlPath(flow, p) && p[|p| - 1] == flow.loop)
    && (forall p {:trigger ControlPath(flow, p)} ::
          ControlPath(flow, p) && p[|p| - 1] == flow.loop ==> LoadedLast(flow, p))
  }

  // ---------- edges ----------

  lemma Classes(op: Opcode)
    ensures var w := Number(op);
      && (w == 0x000b <==> op == Opcode(0, 0, 0, 11)) && (Call(w) <==> Unconditional(op) && Calls(op))
      && (Conditional(w) <==> ShortBranch(op)) && (w / 0x1000 == 0xa <==> op.top == 10)
      && (Foreign(w) <==> Unsupported(op))
      && (Slotted(w) <==> Unconditional(op) || (ShortBranch(op) && DelayedBranch(op)))
      && (w / 0x1000 == 4 && w % 0x100 == 0x2b <==> op.top == 4 && op.Imm8() == 0x2b)
  {
    hide Number, Foreign, Unsupported, Slotted, DelayedBranch;
    NumberFields(op);
    Two();
    Lead(op);
    Whole(op, 0x000b, Opcode(0, 0, 0, 11));
    ForeignClass(op);
    SlottedClass(op);
  }

  /** Halfwords tell opcodes apart. */
  lemma Whole(op: Opcode, w: nat, other: Opcode)
    requires w == Number(other)
    ensures Number(op) == w <==> op == other
  {
    hide Number;
    NumberFields(op);
    NumberFields(other);
  }

  lemma ForeignClass(op: Opcode)
    ensures Foreign(Number(op)) <==> Unsupported(op)
  {
    hide Number;
    NumberFields(op);
    assert Number(Opcode(0, 0, 2, 11)) == 0x002b && Number(Opcode(0, 0, 1, 11)) == 0x001b by { Two(); }
    Whole(op, 0x002b, Opcode(0, 0, 2, 11));
    Whole(op, 0x001b, Opcode(0, 0, 1, 11));
    Lead(op);
  }

  lemma Two()
    ensures Number(Opcode(0, 0, 2, 11)) == 0x002b && Number(Opcode(0, 0, 1, 11)) == 0x001b
    ensures Number(Opcode(0, 0, 0, 11)) == 0x000b
  {
  }

  lemma Lead(op: Opcode)
    ensures Number(op) / 0x100 == 0xc3 <==> op.top == 12 && op.n == 3
    ensures Number(op) / 0x100 in {0x8d, 0x8f} <==> op.top == 8 && op.n in {13, 15}
    ensures Number(op) / 0x100 in {0x89, 0x8b, 0x8d, 0x8f} <==> op.top == 8 && op.n in {9, 11, 13, 15}
  {
    hide Number;
    NumberFields(op);
  }

  lemma SlottedClass(op: Opcode)
    ensures Slotted(Number(op)) <==> Unconditional(op) || (ShortBranch(op) && DelayedBranch(op))
  {
    hide Number;
    NumberFields(op);
    Two();
    Whole(op, 0x000b, Opcode(0, 0, 0, 11));
    Lead(op);
  }

  lemma Displacements(op: Opcode)
    ensures Near(Number(op)) == Signed8(op.Imm8()) && Far(Number(op)) == op.SignedDisp12()
  {
    NumberFields(op);
    var w := Number(op);
    assert w == 0x1000 * op.top + op.Disp12();
  }

  /** What the analysis knows behind an address, from what it knew before. */
  predicate Kept(flow: Flow, place: Place) { (place.retained || place.pc == flow.load) && !Clears(flow, place.pc) }

  lemma RefusedExactly(flow: Flow, place: Place)
    ensures Expand(flow, place).Refused? <==> Stops(flow, place.pc)
  {
    hide Half, WritesGpr, SlotIllegal, Number, Unsupported, Foreign, Call, Slotted, Conditional;
    if Half(flow.image, place.pc).Some? {
      Classes(Half(flow.image, place.pc).value);
      Kinds(Half(flow.image, place.pc).value);
    }
  }

  lemma Kinds(op: Opcode)
    ensures Unconditional(op) ==> !ShortBranch(op)
    ensures Unconditional(op) && !Calls(op) && op != Opcode(0, 0, 0, 11) && op.top != 10 ==>
      op.top == 4 && op.Imm8() == 0x2b
    ensures op.top == 4 && op.Imm8() == 0x2b ==> Unconditional(op) && !Calls(op)
  {
  }

  lemma LeadsExactly(flow: Flow, from: Place, to: Place)
    requires !Stops(flow, from.pc) && from.pc != flow.loop
    ensures Leads(flow, from, to) <==> Follows(flow, from.pc, to.pc) && to.retained == Kept(flow, from)
  {
    hide Half, WritesGpr, SlotIllegal, Number, Unsupported, Foreign, Call, Slotted, Conditional, Near, Far;
    RefusedExactly(flow, from);
    var op := Half(flow.image, from.pc).value;
    Classes(op);
    Kinds(op);
    Displacements(op);
  }

  lemma BadExactly(flow: Flow, place: Place)
    requires place.pc != flow.loop
    ensures Bad(flow, place) <==> Blocked(flow, place.pc)
  {
    hide Expand, Follows, Stops, Kept;
    RefusedExactly(flow, place);
    if !Stops(flow, place.pc) {
      var next := Expand(flow, place).places;
      forall b | Follows(flow, place.pc, b) ensures Place(b, Kept(flow, place)) in next {
        LeadsExactly(flow, place, Place(b, Kept(flow, place)));
      }
      forall i | 0 <= i < |next| ensures Follows(flow, place.pc, next[i].pc) {
        LeadsExactly(flow, place, next[i]);
      }
    }
  }

  // ---------- paths and places ----------

  /** Whether R13 is known to hold the source at the end of a path. */
  predicate Held(flow: Flow, p: seq<int>) {
    if |p| <= 1 then false
    else
      var before := p[..|p| - 1];
      Kept(flow, Place(p[|p| - 2], Held(flow, before)))
  }

  lemma {:induction false} HeldIsLoadedLast(flow: Flow, p: seq<int>)
    ensures Held(flow, p) <==> LoadedLast(flow, p)
    decreases |p|
  {
    hide Clears;
    if |p| > 1 {
      var q, n := p[..|p| - 1], |p|;
      HeldIsLoadedLast(flow, q);
      if LoadedLast(flow, p) && p[n - 2] != flow.load {
        var i :| 0 <= i < n - 1 && p[i] == flow.load && forall j :: i <= j < n - 1 ==> !Clears(flow, p[j]);
        assert q[i] == flow.load && forall j :: i <= j < n - 2 ==> q[j] == p[j];
        assert LoadedLast(flow, q);
      }
      if Held(flow, p) {
        if LoadedLast(flow, q) {
          var i :| 0 <= i < n - 2 && q[i] == flow.load && forall j :: i <= j < n - 2 ==> !Clears(flow, q[j]);
          assert forall j :: i <= j < n - 1 ==> !Clears(flow, p[j]) by {
            forall j | i <= j < n - 1 ensures !Clears(flow, p[j]) { if j < n - 2 { assert q[j] == p[j]; } }
          }
          assert p[i] == flow.load;
        } else {
          assert p[n - 2] == flow.load;
        }
      }
    }
  }

  lemma PathPrefix(flow: Flow, p: seq<int>)
    requires ControlPath(flow, p) && |p| > 1
    ensures ControlPath(flow, p[..|p| - 1])
    ensures p[|p| - 2] != flow.loop && Follows(flow, p[|p| - 2], p[|p| - 1])
  {
    hide Follows;
    var q := p[..|p| - 1];
    forall i | 0 <= i < |q| - 1 ensures q[i] != flow.loop && Follows(flow, q[i], q[i + 1]) {
      assert p[i] != flow.loop && Follows(flow, p[i], p[i + 1]);
    }
    assert p[|p| - 2] != flow.loop && Follows(flow, p[|p| - 2], p[|p| - 2 + 1]);
  }

  /** Along a path that is nowhere blocked before its end, the analysis reaches its end. */
  lemma {:induction false} PathReached(flow: Flow, p: seq<int>)
    requires ControlPath(flow, p) && forall i :: 0 <= i < |p| - 1 ==> !Blocked(flow, p[i])
    ensures Reached(flow, Place(p[|p| - 1], Held(flow, p)))
    decreases |p|
  {
    hide Follows, Stops, Kept, Expand, Leads, Outside;
    if |p| == 1 {
      assert ReachedIn(flow, Start(flow), 0);
    } else {
      var q := p[..|p| - 1];
      PathPrefix(flow, p);
      PathReached(flow, q);
      var from := Place(p[|p| - 2], Held(flow, q));
      assert !Blocked(flow, p[|p| - 2]);
      LeadsExactly(flow, from, Place(p[|p| - 1], Kept(flow, from)));
      ReachedNext(flow, from, Place(p[|p| - 1], Kept(flow, from)));
    }
  }

  /** Every place the analysis reaches is the end of a path. */
  lemma {:induction false} ReachedPath(flow: Flow, place: Place, steps: nat) returns (p: seq<int>)
    requires ReachedIn(flow, place, steps)
    ensures ControlPath(flow, p) && |p| == steps + 1 && p[|p| - 1] == place.pc && Held(flow, p) == place.retained
    decreases steps
  {
    hide Follows, Stops, Kept, Expand, Leads;
    if steps == 0 {
      p := [flow.begin];
    } else {
      var from: Place :| ReachedIn(flow, from, steps - 1) && Leads(flow, from, place);
      var q := ReachedPath(flow, from, steps - 1);
      LeadsGoes(flow, from, place);
      RefusedExactly(flow, from);
      LeadsExactly(flow, from, place);
      p := q + [place.pc];
      assert p[..|p| - 1] == q;
      forall i | 0 <= i < |p| - 1 ensures p[i] != flow.loop && Follows(flow, p[i], p[i + 1]) {
        if i < |q| - 1 { assert q[i] != flow.loop && Follows(flow, q[i], q[i + 1]); }
      }
    }
  }

  lemma LeadsGoes(flow: Flow, from: Place, to: Place)
    requires Leads(flow, from, to)
    ensures from.pc != flow.loop && Expand(flow, from).Next?
  {
  }

  /** When nothing reached is bad, no path is blocked. */
  lemma {:induction false} NoneBlocked(flow: Flow, p: seq<int>)
    requires ControlPath(flow, p) && forall place: Place :: Reached(flow, place) ==> !Bad(flow, place)
    ensures Reached(flow, Place(p[|p| - 1], Held(flow, p))) && !Blocked(flow, p[|p| - 1])
    decreases |p|
  {
    hide Follows, Stops, Kept, Expand, Leads, Outside, Bad, Reached;
    if |p| > 1 {
      var q := p[..|p| - 1];
      PathPrefix(flow, p);
      NoneBlocked(flow, q);
      var from := Place(p[|p| - 2], Held(flow, q));
      LeadsExactly(flow, from, Place(p[|p| - 1], Kept(flow, from)));
      ReachedNext(flow, from, Place(p[|p| - 1], Kept(flow, from)));
    } else {
      PathReached(flow, p);
    }
    var end := Place(p[|p| - 1], Held(flow, p));
    if end.pc != flow.loop { BadExactly(flow, end); }
  }

  /** The worklist accepts exactly when every control path is as asked. */
  lemma AcceptedPaths(flow: Flow)
    ensures SourceRetained(flow) <==> PathsAccept(flow)
  {
    hide Follows, Stops, Kept, Expand, Leads, Outside, LoadedLast, Held;
    if SourceRetained(flow) {
      forall p {:trigger ControlPath(flow, p)} | ControlPath(flow, p)
        ensures !Blocked(flow, p[|p| - 1]) && (p[|p| - 1] == flow.loop ==> LoadedLast(flow, p))
      {
        NoneBlocked(flow, p);
        HeldIsLoadedLast(flow, p);
        assert !Bad(flow, Place(p[|p| - 1], Held(flow, p)));
      }
      var place: Place :| Reached(flow, place) && place.pc == flow.loop;
      var steps: nat :| ReachedIn(flow, place, steps);
      var p := ReachedPath(flow, place, steps);
    }
    if PathsAccept(flow) {
      forall place: Place | Reached(flow, place) ensures !Bad(flow, place) {
        var steps: nat :| ReachedIn(flow, place, steps);
        var p := ReachedPath(flow, place, steps);
        HeldIsLoadedLast(flow, p);
        if place.pc != flow.loop { BadExactly(flow, place); }
      }
      var p :| ControlPath(flow, p) && p[|p| - 1] == flow.loop;
      UnblockedBefore(flow, p);
      PathReached(flow, p);
    }
  }

  lemma {:induction false} UnblockedBefore(flow: Flow, p: seq<int>)
    requires ControlPath(flow, p)
    requires forall q {:trigger ControlPath(flow, q)} :: ControlPath(flow, q) ==> !Blocked(flow, q[|q| - 1])
    ensures forall i :: 0 <= i < |p| - 1 ==> !Blocked(flow, p[i])
    decreases |p|
  {
    hide Follows, Blocked;
    if |p| > 1 {
      var q := p[..|p| - 1];
      PathPrefix(flow, p);
      UnblockedBefore(flow, q);
      forall i | 0 <= i < |p| - 1 ensures !Blocked(flow, p[i]) { if i < |q| - 1 { assert q[i] == p[i]; } }
    }
  }

  // ---------- edges are the machine's targets ----------

  /** A branch of the machine goes along an edge, and every edge is taken with T one way or the other. */
  lemma EdgesAreTargets(flow: Flow, a: Word, op: Opcode, cpu: Cpu)
    requires Half(flow.image, a) == Some(op) && Branches(op) && !Stops(flow, a) && a != flow.load
    requires !Calls(op) && op != Opcode(0, 0, 0, 11)
    ensures Target(op, a, cpu).Some? && exists b :: Follows(flow, a, b) && Target(op, a, cpu) == Some(Wrap(b))
    ensures forall b :: Follows(flow, a, b) ==> exists t: bool :: Target(op, a, cpu.(t := t)) == Some(Wrap(b))
  {
    hide Half, SlotIllegal, Number, Unsupported, Foreign, Follows, Slotted, Conditional, Target, Wrap, Signed8;
    Classes(op);
    BranchKinds(op);
    var far := a + 4 + (if op.top == 10 then 2 * op.SignedDisp12() else 2 * Signed8(op.Imm8()));
    var near := if op.top == 10 then far else a + (if op.n in {13, 15} then 4 else 2);
    BranchFollows(flow, a, op, far);
    BranchFollows(flow, a, op, near);
    forall b | Follows(flow, a, b) ensures exists t: bool :: Target(op, a, cpu.(t := t)) == Some(Wrap(b)) {
      BranchFollows(flow, a, op, b);
      var t := (b == far) == (op.n in {9, 13});
      BranchTarget(op, a, cpu.(t := t));
      assert Target(op, a, cpu.(t := t)) == Some(Wrap(b));
    }
    BranchTarget(op, a, cpu);
  }

  lemma BranchFollows(flow: Flow, a: int, op: Opcode, b: int)
    requires Half(flow.image, a) == Some(op)
    ensures op.top == 10 ==> (Follows(flow, a, b) <==> b == a + 4 + 2 * op.SignedDisp12())
    ensures ShortBranch(op) ==> (Follows(flow, a, b) <==>
      (b == a + 4 + 2 * Signed8(op.Imm8()) || b == a + (if op.n in {13, 15} then 4 else 2)))
  {
    hide Half, Number, Near, Far, Signed8;
    Displacements(op);
    NumberFields(op);
  }

  lemma BranchTarget(op: Opcode, a: Word, cpu: Cpu)
    requires op.top == 10 || ShortBranch(op)
    ensures Branches(op)
    ensures Target(op, a, cpu) == Some(Wrap(
      if op.top == 10 then a + 4 + 2 * op.SignedDisp12()
      else if cpu.t == (op.n in {9, 13}) then a + 4 + 2 * Signed8(op.Imm8())
      else a + (if op.n in {13, 15} then 4 else 2)))
  {
    hide Wrap, Signed8;
  }

  lemma BranchKinds(op: Opcode)
    requires Branches(op) && !Calls(op) && op != Opcode(0, 0, 0, 11) && !Unsupported(op)
    requires !(op.top == 4 && op.Imm8() == 0x2b)
    ensures op.top == 10 || (ShortBranch(op) && (DelayedBranch(op) <==> op.n in {13, 15}))
  {
  }
}
