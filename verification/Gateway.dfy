/** The support module's terminal gateway: validate everything, then either jump to
    the pinned worker terminal on its own stack or stop in place.  It never stores. */
module Gateway {
  import opened Words
  import opened Opcodes
  import opened Sh4
  import opened Cursor
  import opened EntryFrame

  /** One halfword of the gateway: an exact item, or a conditional refusal. */
  datatype Check = Do(item: Item) | Refuse(onTrue: bool)

  /** Where the support module is relocated to, and its exports with it. */
  const EXPORTS: Word := 0xac11_2000

  function DoAll(items: seq<Item>): seq<Check> {
    seq(|items|, i requires 0 <= i < |items| => Do(items[i]))
  }

  function MaskItems(state: Word): seq<Item> {
    [Op(Opcode(0, 0, 0, 2)), Lit(1, 0x1000_00f0), Op(Opcode(2, 0, 1, 11)), Op(Opcode(4, 0, 0, 14)), Lit(1, state)]
  }
  function ReadyItems(): seq<Item> { [Op(Opcode(6, 0, 1, 2)), Lit(2, 0x4456_5342), Op(Opcode(3, 0, 2, 0))] }
  function PinItems(exports: Word): seq<Item> {
    [Op(Opcode(5, 3, 1, 1)), Op(Opcode(5, 4, 1, 2)), Lit(1, exports), Op(Opcode(3, 4, 1, 0))]
  }
  function MagicItems(): seq<Item> {
    [Lit(2, 0x1_2000), Op(Opcode(3, 1, 2, 8)), Op(Opcode(6, 0, 1, 2)), Lit(2, 0x4b4e_5031), Op(Opcode(3, 0, 2, 0))]
  }
  /** Read one export word, compare it with an immediate or with a pinned register. */
  function ImmediateItems(word: Nibble, high: Nibble, low: Nibble): seq<Item> {
    [Op(Opcode(5, 0, 1, word)), Op(Opcode(8, 8, high, low))]
  }
  function PinnedItems(word: Nibble, pin: Nibble): seq<Item> {
    [Op(Opcode(5, 0, 1, word)), Op(Opcode(3, 0, pin, 0))]
  }
  function LowerItems(): seq<Item> {
    [Lit(2, 0x2000_0000), Op(Opcode(3, 1, 2, 8)), Op(Opcode(7, 1, 5, 0)), Op(Opcode(3, 3, 1, 2))]
  }
  function UpperItems(): seq<Item> {
    [Op(Opcode(6, 1, 4, 3)), Op(Opcode(3, 1, 2, 8)), Lit(0, 4096), Op(Opcode(3, 1, 0, 8)), Op(Opcode(3, 3, 1, 2))]
  }
  function ParityItems(): seq<Item> { [Op(Opcode(6, 0, 3, 3)), Op(Opcode(12, 8, 0, 1))] }
  function StackItems(): seq<Item> { [Op(Opcode(6, 15, 4, 3)), Op(Opcode(3, 15, 2, 8))] }

  function Guarded(items: seq<Item>, onTrue: bool): seq<Check> { DoAll(items) + [Refuse(onTrue)] }

  function ExportChecks(): seq<Check> {
    Guarded(ImmediateItems(1, 0, 4), false) + (Guarded(ImmediateItems(2, 5, 0), false)
    + (Guarded(PinnedItems(6, 3), false) + (Guarded(PinnedItems(10, 4), false) + Guarded(PinnedItems(11, 4), false))))
  }

  function BoundChecks(): seq<Check> {
    Guarded(LowerItems(), false) + (Guarded(UpperItems(), true) + (Guarded(ParityItems(), false) + DoAll(StackItems())))
  }

  /** Everything up to the jump. */
  function Checks(state: Word, exports: Word): seq<Check> {
    DoAll(MaskItems(state)) + (Guarded(ReadyItems(), false) + (Guarded(PinItems(exports), false)
    + (Guarded(MagicItems(), false) + (ExportChecks() + BoundChecks()))))
  }

  // ---------- the audit ----------

  predicate RefusesTo(op: Opcode, pc: int, onTrue: bool, stop: int) {
    ShortBranchOn(op, onTrue) && BranchTarget(op, pc) == stop
  }

  predicate ShortBranchOn(op: Opcode, onTrue: bool) { op.top == 8 && op.n == (if onTrue then 9 else 11) }

  function BranchTarget(op: Opcode, pc: int): int { pc + 4 + 2 * Signed8(op.Imm8()) }

  predicate CheckAt(image: Image, pc: int, check: Check, stop: int) {
    match check
    case Do(item) => ItemAt(image, pc, item)
    case Refuse(onTrue) => Half(image, pc).Some? && RefusesTo(Half(image, pc).value, pc, onTrue, stop)
  }

  predicate ChecksAt(image: Image, pc: int, checks: seq<Check>, stop: int) {
    forall i {:trigger checks[i]} :: 0 <= i < |checks| ==> CheckAt(image, pc + 2 * i, checks[i], stop)
  }

  function JumpAndStop(): seq<Item> {
    [Op(Opcode(4, 3, 2, 11)), Op(NOP), Op(Opcode(10, 15, 15, 14)), Op(NOP)]
  }

  ghost predicate GatewayAccepted(image: Image, base: int, state: Word, exports: Word) {
    var count := |Checks(state, exports)|;
    && ChecksAt(image, base, Checks(state, exports), base + 2 * count + 4)
    && Matches(image, base + 2 * count, JumpAndStop())
  }

  /** The audit walks the sequence, collects each refusal's target and compares them all
      with the stop loop it finds after the jump. */
  method AuditGateway(image: Image, base: int, state: Word) returns (ok: bool)
    ensures ok == GatewayAccepted(image, base, state, EXPORTS)
  {
    hide Checks, CheckAt, ChecksAt, ItemAt, Half, AllAre, BranchTarget, ShortBranchOn, Matches, AllWitnesses;
    var checks := Checks(state, EXPORTS);
    var pc, i, branches := base, 0, [];
    ghost var stop := base + 2 * |checks| + 4;
    ChecksStart(image, base, checks, stop);
    while i < |checks|
      invariant 0 <= i <= |checks| && pc == base + 2 * i
      invariant AllAre(branches, stop) == ChecksAt(image, base, checks[..i], stop)
    {
      ChecksGrow(image, base, checks, stop, i);
      match checks[i] {
        case Do(item) =>
          if !ItemAt(image, pc, item) {
            return false;
          }
        case Refuse(onTrue) =>
          var op := Half(image, pc);
          if op.None? || !ShortBranchOn(op.value, onTrue) {
            return false;
          }
          AllAreGrow(branches, BranchTarget(op.value, pc), stop);
          branches := branches + [BranchTarget(op.value, pc)];
      }
      i, pc := i + 1, pc + 2;
    }
    assert checks[..i] == checks;
    var c := new Walker(image, pc);
    ok := c.ExpectAll(JumpAndStop());
    ok := ok && AllAre(branches, pc + 4);
  }

  predicate AllAre(branches: seq<int>, stop: int) {
    forall k :: 0 <= k < |branches| ==> branches[k] == stop
  }

  lemma AllAreGrow(branches: seq<int>, last: int, stop: int)
    ensures AllAre(branches + [last], stop) == (AllAre(branches, stop) && last == stop)
  {
    var grown := branches + [last];
    assert grown[|branches|] == last;
    assert forall k :: 0 <= k < |branches| ==> grown[k] == branches[k];
  }

  lemma ChecksStart(image: Image, pc: int, checks: seq<Check>, stop: int)
    ensures ChecksAt(image, pc, checks[..0], stop) && AllAre([], stop)
  {
  }

  lemma ChecksGrow(image: Image, pc: int, checks: seq<Check>, stop: int, i: nat)
    requires i < |checks|
    ensures ChecksAt(image, pc, checks[..i + 1], stop)
      == (ChecksAt(image, pc, checks[..i], stop) && CheckAt(image, pc + 2 * i, checks[i], stop))
    ensures ChecksAt(image, pc, checks, stop) ==> CheckAt(image, pc + 2 * i, checks[i], stop)
    ensures checks[i].Do? ==>
      (CheckAt(image, pc + 2 * i, checks[i], stop) == ItemAt(image, pc + 2 * i, checks[i].item))
    ensures checks[i].Refuse? ==>
      (CheckAt(image, pc + 2 * i, checks[i], stop) ==
        (Half(image, pc + 2 * i).Some? && RefusesTo(Half(image, pc + 2 * i).value, pc + 2 * i, checks[i].onTrue, stop)))
  {
    hide ItemAt, Half, RefusesTo;
    var more := checks[..i + 1];
    assert more[i] == checks[i];
    assert forall j {:trigger more[j]} :: 0 <= j < i ==> more[j] == checks[..i][j];
    if ChecksAt(image, pc, more, stop) {
      forall j | 0 <= j < i ensures CheckAt(image, pc + 2 * j, checks[..i][j], stop) {
        assert more[j] == checks[..i][j];
      }
    }
  }

  /** The handoff audit instead computes each refusal opcode from the stop address; for a
      forward distance that a branch can encode, both audits accept the same opcode. */
  lemma RefusalEncodings(op: Opcode, pc: int, onTrue: bool, stop: int)
    requires 0 <= stop - (pc + 4) <= 254 && (stop - (pc + 4)) % 2 == 0
    ensures RefusesTo(op, pc, onTrue, stop) <==>
      var displacement := (stop - (pc + 4)) / 2;
      op == Opcode(8, if onTrue then 9 else 11, displacement / 16, displacement % 16)
  {
  }

  /** What the handoff audit demands of one halfword, with refusals already encoded. */
  function Encoded(check: Check, pc: int, stop: int): Item {
    match check
    case Do(item) => item
    case Refuse(onTrue) =>
      var displacement := (stop - (pc + 4)) / 2 % 256;
      Op(Opcode(8, if onTrue then 9 else 11, displacement / 16, displacement % 16))
  }

  function EncodedChecks(base: int, state: Word, exports: Word): (items: seq<Item>)
    ensures |items| == |Checks(state, exports)|
  {
    var checks := Checks(state, exports);
    seq(|checks|, i requires 0 <= i < |checks| => Encoded(checks[i], base + 2 * i, base + 2 * |checks| + 4))
  }

  /** The handoff audit of the same gateway: one straight walk, every refusal computed beforehand. */
  method AuditSupport(image: Image) returns (ok: bool)
    ensures ok <==>
      && "_kui_disc_vmu_support_terminal" in image.symbols && "_kui_disc_vmu_support_state" in image.symbols
      && "_kui_disc_vmu_support_exports" in image.symbols
      && SupportAccepted(image, image.symbols["_kui_disc_vmu_support_terminal"],
        image.symbols["_kui_disc_vmu_support_state"],
           image.symbols["_kui_disc_vmu_support_exports"])
  {
    hide Checks, Matches, AllWitnesses, EncodedChecks;
    if "_kui_disc_vmu_support_terminal" !in image.symbols || "_kui_disc_vmu_support_state" !in image.symbols
      || "_kui_disc_vmu_support_exports" !in image.symbols {
      return false;
    }
    var base: int, state :=
      image.symbols["_kui_disc_vmu_support_terminal"], image.symbols["_kui_disc_vmu_support_state"];
    var c := new Walker(image, base);
    ok := c.ExpectAll(EncodedChecks(base, state, image.symbols["_kui_disc_vmu_support_exports"]));
    if ok { ok := c.ExpectAll(JumpAndStop()); }
  }

  predicate SupportAccepted(image: Image, base: int, state: Word, exports: Word) {
    Matches(image, base, EncodedChecks(base, state, exports))
      && Matches(image, base + 2 * |Checks(state, exports)|, JumpAndStop())
  }

  lemma ChecksShort(state: Word, exports: Word)
    ensures 0 < |Checks(state, exports)| <= 100
  {
  }

  /** Wherever the exports are linked, the walk accepts exactly the gateways with those exports. */
  lemma SupportIsGateway(image: Image, base: int, state: Word, exports: Word)
    ensures SupportAccepted(image, base, state, exports) <==> GatewayAccepted(image, base, state, exports)
  {
    hide Checks, ItemAt, Half;
    var checks, items := Checks(state, exports), EncodedChecks(base, state, exports);
    var stop := base + 2 * |checks| + 4;
    ChecksShort(state, exports);
    forall i | 0 <= i < |checks|
      ensures ItemAt(image, base + 2 * i, items[i]) <==> CheckAt(image, base + 2 * i, checks[i], stop)
    {
      EncodedIsCheck(image, base + 2 * i, checks[i], stop);
    }
    if ChecksAt(image, base, checks, stop) {
      forall i | 0 <= i < |items| ensures ItemAt(image, base + 2 * i, items[i]) {
        assert CheckAt(image, base + 2 * i, checks[i], stop);
      }
    }
    if Matches(image, base, items) {
      forall i | 0 <= i < |checks| ensures CheckAt(image, base + 2 * i, checks[i], stop) {
        assert ItemAt(image, base + 2 * i, items[i]);
      }
    }
  }

  lemma EncodedIsCheck(image: Image, pc: int, check: Check, stop: int)
    requires 0 <= stop - (pc + 4) <= 254 && (stop - (pc + 4)) % 2 == 0
    ensures ItemAt(image, pc, Encoded(check, pc, stop)) <==> CheckAt(image, pc, check, stop)
  {
    hide Half, Long, RefusesTo;
    if check.Refuse? && Half(image, pc).Some? {
      RefusalEncodings(Half(image, pc).value, pc, check.onTrue, stop);
    }
  }

  // ---------- meaning ----------

  datatype Verdict = Passed(cpu: Cpu) | Stopped(cpu: Cpu) | Faulted(cpu: Cpu)

  function RunChecks(checks: seq<Check>, cpu: Cpu): Verdict {
    if checks == [] then Passed(cpu)
    else match checks[0]
      case Refuse(onTrue) => if cpu.t == onTrue then Stopped(cpu) else RunChecks(checks[1..], cpu)
      case Do(item) =>
        match Apply(item, cpu)
        case Fault => Faulted(cpu)
        case Running(next) => RunChecks(checks[1..], next)
  }

  predicate StraightChecks(checks: seq<Check>) {
    forall i {:trigger checks[i]} :: 0 <= i < |checks| ==> (checks[i].Do? ==> Straight(checks[i].item))
  }

  lemma ChecksTail(image: Image, at: int, checks: seq<Check>, stop: int)
    requires ChecksAt(image, at, checks, stop) && StraightChecks(checks) && checks != []
    ensures ChecksAt(image, at + 2, checks[1..], stop) && StraightChecks(checks[1..])
    ensures CheckAt(image, at, checks[0], stop) && (checks[0].Do? ==> Straight(checks[0].item))
  {
    hide CheckAt, Straight;
    assert CheckAt(image, at + 2 * 0, checks[0], stop);
    forall i | 0 <= i < |checks| - 1
      ensures CheckAt(image, at + 2 + 2 * i, checks[1..][i], stop)
      ensures checks[1..][i].Do? ==> Straight(checks[1..][i].item)
    {
      assert checks[1..][i] == checks[i + 1];
      assert CheckAt(image, at + 2 * (i + 1), checks[i + 1], stop);
    }
  }

  lemma RefusalStep(image: Image, code: Code, at: int, onTrue: bool, stop: int, s: State) returns (next: State)
    requires Loaded(image, code) && CheckAt(image, at, Refuse(onTrue), stop) && Alias(s.pc, at)
    ensures Step(code, s) == Some(next) && next.cpu == s.cpu
    ensures Alias(next.pc, if s.cpu.t == onTrue then stop else at + 2)
  {
    hide Step, Fetch, Loaded, Half, Alias;
    var op := Half(image, at).value;
    HalfFetched(image, code, at, s.pc);
    StepShort(code, s, op);
    AliasPlus(s.pc, at, 2);
    AliasPlus(s.pc, at, 4 + 2 * Signed8(op.Imm8()));
    next := Step(code, s).value;
  }

  /** Where the machine is when the checks are decided: at the jump, in the stop loop, or before a check
      it cannot execute. */
  ghost predicate Decided(code: Code, at: int, checks: seq<Check>, stop: int, verdict: Verdict, next: State) {
    && next.cpu == verdict.cpu
    && (verdict.Passed? ==> Alias(next.pc, at + 2 * |checks|))
    && (verdict.Stopped? ==> Alias(next.pc, stop))
    && (verdict.Faulted? ==> Step(code, next).None?)
  }

  /** The machine follows `RunChecks`. */
  lemma {:induction false} ChecksExecute(image: Image, code: Code, at: int, checks: seq<Check>, stop: int, s: State)
    returns (next: State)
    requires Loaded(image, code) && ChecksAt(image, at, checks, stop) && Alias(s.pc, at) && StraightChecks(checks)
    ensures Reaches(code, s, next) && Decided(code, at, checks, stop, RunChecks(checks, s.cpu), next)
    decreases |checks|
  {
    hide Step, Loaded, Alias, Apply, Reaches, ItemAt, Half, ChecksAt, StraightChecks, RefusesTo, Straight;
    if checks == [] {
      next := s;
      ReachesSelf(code, s);
    } else {
      ChecksTail(image, at, checks, stop);
      var mid;
      if checks[0].Refuse? {
        mid := RefusalStep(image, code, at, checks[0].onTrue, stop, s);
      } else {
        ItemExecuted(image, code, at, checks[0].item, s);
        if Apply(checks[0].item, s.cpu).Fault? {
          ReachesSelf(code, s);
          return s;
        }
        AliasPlus(s.pc, at, 2);
        mid := State(Plus(s.pc, 2), Apply(checks[0].item, s.cpu).cpu);
      }
      ReachesStep(code, s, mid);
      if checks[0].Refuse? && s.cpu.t == checks[0].onTrue {
        next := mid;
      } else {
        next := ChecksExecute(image, code, at + 2, checks[1..], stop, mid);
        ReachesCompose(code, s, mid, next);
      }
    }
  }
}
