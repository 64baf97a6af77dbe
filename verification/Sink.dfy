/** The closed interpreter that executes a linked halfword sink over bounded memory.
    Whatever code it is given, it can only copy through the destination window. */
module Sink {
  import opened Words
  import opened Opcodes

  const RETURN: int := 0xdead_0000
  const STACK_TOP: int := 0x8c10_0000
  const FILL: int := 0x5a
  const STEP_LIMIT: int := 10000

  type Registers = s: seq<nat> | |s| == 16 witness seq(16, _ => 0)

  /** One case: where the code is linked, and the copy it is asked to make. */
  datatype Case = Case(address: nat, code: seq<Byte>, destination: nat, source: nat, count: nat)

  datatype State = State(r: Registers, t: bool, macl: nat, memory: map<int, Byte>, stack: map<int, nat>,
    stores: seq<int>, pc: int, steps: nat)

  function Expected(i: nat): Byte { (i * 109 + 7) % 256 }

  function FloorEven(a: int): int { a - a % 2 }

  /** The destination rounded out to whole halfwords. */
  predicate InWindow(k: Case, at: int) {
    FloorEven(k.destination) <= at < FloorEven(k.destination + k.count + 1)
  }

  predicate InSource(k: Case, at: int) { k.source <= at < k.source + k.count }

  function InitialRegisters(k: Case): Registers {
    [Seed(0), Seed(1), Seed(2), Seed(3), k.destination, k.source, k.count, Seed(7),
     Seed(8), Seed(9), Seed(10), Seed(11), Seed(12), Seed(13), Seed(14), STACK_TOP]
  }

  function Seed(i: nat): nat { 0x1357_0000 + i * 0x123 }

  /** Source bytes first, then the filled window over them; nothing at all for an empty copy. */
  function InitialMemory(k: Case): map<int, Byte> {
    var bytes := map at: int | k.source <= at < k.source + k.count && InSource(k, at) :: Expected(at - k.source);
    if k.count == 0 then bytes
    else
      var low, high := FloorEven(k.destination), FloorEven(k.destination + k.count + 1);
      bytes + map at: int | low <= at < high && InWindow(k, at) :: FILL
  }

  function Initial(k: Case): State {
    State(InitialRegisters(k), false, 0, InitialMemory(k), map[], [], k.address, 0)
  }

  // ---------- memory ----------

  function Fetch(k: Case, at: int): Option<Opcode> {
    if k.address <= at <= k.address + |k.code| - 2
    then Some(OpcodeOf(k.code[at - k.address], k.code[at - k.address + 1])) else None
  }

  function Join(b: seq<Byte>): nat
    requires |b| in {1, 2, 4}
  {
    var low: int := b[0];
    if |b| == 1 then low
    else
      var second: int := b[1];
      if |b| == 2 then low + 0x100 * second
      else
        var third: int, fourth: int := b[2], b[3];
        low + 0x100 * second + 0x1_0000 * third + 0x100_0000 * fourth
  }

  predicate Owned(memory: map<int, Byte>, at: int, width: int)
    requires width in {1, 2, 4}
  {
    at in memory && (width >= 2 ==> at + 1 in memory) && (width == 4 ==> at + 2 in memory && at + 3 in memory)
  }

  function Read(k: Case, s: State, at: int, width: int): Option<nat>
    requires width in {1, 2, 4}
  {
    if at % width != 0 then None
    else if width == 4 && at in s.stack then Some(s.stack[at])
    else if k.address <= at && at + width <= k.address + |k.code| then
      Some(Join(k.code[at - k.address..at - k.address + width]))
    else if !Owned(s.memory, at, width) then None
    else if width == 1 then Some(Join([s.memory[at]]))
    else if width == 2 then Some(Join([s.memory[at], s.memory[at + 1]]))
    else Some(Join([s.memory[at], s.memory[at + 1], s.memory[at + 2], s.memory[at + 3]]))
  }

  /** Two stack words, or one halfword of the window; everything else is refused. */
  function Write(k: Case, s: State, at: int, value: nat, width: int): Option<State>
    requires width in {1, 2, 4}
  {
    if at % width != 0 then None
    else if width == 4 && STACK_TOP - 8 <= at < STACK_TOP then Some(s.(stack := s.stack[at := value]))
    else if width != 2 then None
    else if !Owned(s.memory, at, width) || !InWindow(k, at) then None
    else Some(s.(stores := s.stores + [at], memory := s.memory[at := value % 256][at + 1 := value / 256 % 256]))
  }

  // ---------- instructions ----------

  function Put(s: State, n: Nibble, value: nat): Option<State> { Some(s.(r := s.r[n := value])) }

  function Extend(value: nat, width: int): Word {
    if width == 1 then Wrap(if value >= 0x80 then value - 0x100 else value)
    else if width == 2 then Wrap(if value >= 0x8000 then value - 0x1_0000 else value)
    else Wrap(value)
  }

  function LoadInto(k: Case, s: State, n: Nibble, at: int, width: int): Option<State>
    requires width in {1, 2, 4}
  {
    match Read(k, s, at, width)
    case None => None
    case Some(v) => Put(s, n, Extend(v, width))
  }

  function PopInto(k: Case, s: State, n: Nibble, m: Nibble, width: int): Option<State>
    requires width in {1, 2, 4}
  {
    match Read(k, s, s.r[m], width)
    case None => None
    case Some(v) =>
      Put(if n == m then s else s.(r := s.r[m := Plus(s.r[m], width)]), n, Extend(v, width))
  }

  function PushInto(k: Case, s: State, n: Nibble, m: Nibble): Option<State> {
    var moved := s.(r := s.r[n := Minus(s.r[n], 4)]);
    Write(k, moved, moved.r[n], moved.r[m], 4)
  }

  /** The admitted instruction set. */
  function Plain(k: Case, op: Opcode, pc: int, s: State): Option<State> {
    var n, m, low := op.n, op.m, op.low;
    var a: nat, b: nat, z: nat := s.r[n], s.r[m], s.r[0];
    if op == NOP then Some(s)
    else if op.top == 14 then Put(s, n, Wrap(Signed8(op.Imm8())))
    else if op.top == 7 then Put(s, n, Wrap(a + Signed8(op.Imm8())))
    else if op.top == 9 then LoadInto(k, s, n, pc + 4 + 2 * op.Imm8(), 2)
    else if op.top == 6 && low == 3 then Put(s, n, b)
    else if op.top == 6 && low == 12 then Put(s, n, b % 0x100)
    else if op.top == 6 && low == 13 then Put(s, n, b % 0x1_0000)
    else if op.top == 6 && low in {0, 1, 2} then LoadInto(k, s, n, b, if low == 0 then 1 else if low == 1 then 2 else 4)
    else if op.top == 6 && low in {4, 6} then PopInto(k, s, n, m, if low == 4 then 1 else 4)
    else if op.top == 8 && n == 4 then LoadInto(k, s, 0, b + low, 1)
    else if op.top == 2 && low == 6 then PushInto(k, s, n, m)
    else if op.top == 2 && low in {0, 1, 2} then Write(k, s, a, b, if low == 0 then 1 else if low == 1 then 2 else 4)
    else if op.top == 2 && low == 8 then Some(s.(t := And(a, b) == 0))
    else if op.top == 2 && low == 9 then Put(s, n, And(a, b))
    else if op.top == 2 && low == 11 then Put(s, n, Or(a, b))
    else if op.top == 3 && low == 12 then Put(s, n, Wrap(a + b))
    else if op.top == 3 && low == 8 then Put(s, n, Wrap(a - b))
    else if op.top == 0 && low == 7 then Some(s.(macl := Wrap(a * b)))
    else if op.top == 0 && op.Imm8() == 0x1a then Put(s, n, s.macl)
    else if op.top == 4 && op.Imm8() == 0x10 then Some(s.(r := s.r[n := Wrap(a - 1)], t := Wrap(a - 1) == 0))
    else if op.top == 4 && op.Imm8() == 0x01 then Some(s.(r := s.r[n := a / 2], t := a % 2 == 1))
    else if op.top == 4 && op.Imm8() == 0x18 then Put(s, n, Wrap(0x100 * a))
    else if op.top == 12 && n == 8 then Some(s.(t := And(z, op.Imm8()) == 0))
    else if op.top == 12 && n == 9 then Put(s, 0, And(z, op.Imm8()))
    else None
  }

  /** The instruction in a slot; the sink does not check that it is legal there. */
  function Slot(k: Case, pc: int, s: State): Option<State> {
    match Fetch(k, pc + 2)
    case None => None
    case Some(op) =>
      match Plain(k, op, pc + 2, s)
      case None => None
      case Some(after) => Some(after.(steps := after.steps + 1))
  }

  function At(s: Option<State>, pc: int): Option<State> {
    match s case None => None case Some(after) => Some(after.(pc := pc))
  }

  /** One turn of the loop; None is a refusal. */
  function Step(k: Case, s: State): Option<State> {
    var counted := s.(steps := s.steps + 1);
    var pc := s.pc;
    if counted.steps > STEP_LIMIT then None
    else
      match Fetch(k, pc)
      case None => None
      case Some(op) =>
        if op == Opcode(0, 0, 0, 11) then At(Slot(k, pc, counted), RETURN)
        else if op.top == 10 then At(Slot(k, pc, counted), pc + 4 + 2 * op.SignedDisp12())
        else if ShortBranch(op) then
          var delayed := op.n in {13, 15};
          var target := if s.t == (op.n in {9, 13}) then pc + 4 + 2 * Signed8(op.Imm8())
                        else pc + (if delayed then 4 else 2);
          At(if delayed then Slot(k, pc, counted) else Some(counted), target)
        else At(Plain(k, op, pc, counted), pc + 2)
  }

  /** The checks after the run. */
  predicate Accepted(k: Case, s: State) {
    && s.r[8..] == InitialRegisters(k)[8..]
    && (forall at :: k.destination <= at < k.destination + k.count ==>
      at in s.memory && s.memory[at] == Expected(at - k.destination))
    && (k.count > 0 && k.destination % 2 == 1 ==> k.destination - 1 in s.memory && s.memory[k.destination - 1] == FILL)
    && (k.count > 0 && (k.destination + k.count) % 2 == 1 ==>
          k.destination + k.count in s.memory && s.memory[k.destination + k.count] == FILL)
  }

  // ---------- invariant ----------

  /** Source and window share no byte. */
  predicate Apart(k: Case) {
    k.source + k.count <= FloorEven(k.destination) || FloorEven(k.destination + k.count + 1) <= k.source
  }

  /** What every reachable state keeps, whatever the code. */
  ghost predicate Confined(k: Case, s: State) {
    && s.memory.Keys == InitialMemory(k).Keys
    && (forall at :: at in s.memory && !InWindow(k, at) ==> s.memory[at] == InitialMemory(k)[at])
    && (forall at :: at in s.stack ==> at == STACK_TOP - 8 || at == STACK_TOP - 4)
    && (forall i :: 0 <= i < |s.stores| ==>
      s.stores[i] % 2 == 0 && InWindow(k, s.stores[i]) && Owned(InitialMemory(k), s.stores[i], 2))
  }

  /** One instruction changes memory by at most one even halfword of the window. */
  ghost predicate OneHalfword(k: Case, s: State, after: State) {
    || (after.memory == s.memory && after.stores == s.stores)
    || exists at: int, low: Byte, high: Byte :: HalfwordStored(k, s, after, at, low, high)
  }

  ghost predicate HalfwordStored(k: Case, s: State, after: State, at: int, low: Byte, high: Byte) {
    at % 2 == 0 && InWindow(k, at) && Owned(s.memory, at, 2)
    && after.stores == s.stores + [at] && after.memory == s.memory[at := low][at + 1 := high]
  }

  lemma StoreConfined(k: Case, s: State, at: int, value: nat, width: int)
    requires width in {1, 2, 4} && Confined(k, s) && Write(k, s, at, value, width).Some?
    ensures Confined(k, Write(k, s, at, value, width).value) && OneHalfword(k, s, Write(k, s, at, value, width).value)
  {
    hide InitialMemory;
    var after := Write(k, s, at, value, width).value;
    if width == 2 {
      WindowEven(k, at);
      assert HalfwordStored(k, s, after, at, value % 256, value / 256 % 256);
      assert after.memory.Keys == s.memory.Keys;
      assert Owned(InitialMemory(k), at, 2);
    }
  }

  /** An even address in the window has its whole halfword there. */
  lemma WindowEven(k: Case, at: int)
    requires at % 2 == 0 && InWindow(k, at)
    ensures InWindow(k, at + 1)
  {
  }

  lemma ComputesConfined(k: Case, s: State, after: State)
    requires Confined(k, s)
      && after == s.(r := after.r, t := after.t, macl := after.macl, pc := after.pc, steps := after.steps)
    ensures Confined(k, after) && OneHalfword(k, s, after)
  {
    hide InitialMemory;
  }

  predicate Stores(op: Opcode) { op.top == 2 && op.low in {0, 1, 2, 6} }

  lemma PlainComputes(k: Case, op: Opcode, pc: int, s: State)
    requires !Stores(op) && Plain(k, op, pc, s).Some?
    ensures var after := Plain(k, op, pc, s).value; after == s.(r := after.r, t := after.t, macl := after.macl)
  {
    hide Read, Write, PushInto, Wrap, And, Or, Extend, Plus, Signed8, Plain;
    if op.top in {3, 4} { PlainArithmetic(k, op, pc, s); } else { PlainOthers(k, op, pc, s); }
  }

  lemma PlainArithmetic(k: Case, op: Opcode, pc: int, s: State)
    requires op.top in {3, 4} && Plain(k, op, pc, s).Some?
    ensures var after := Plain(k, op, pc, s).value; after == s.(r := after.r, t := after.t, macl := after.macl)
  {
    hide Read, Write, PushInto, Wrap, And, Or, Extend, Plus, Signed8;
  }

  lemma PlainOthers(k: Case, op: Opcode, pc: int, s: State)
    requires op.top !in {3, 4} && !Stores(op) && Plain(k, op, pc, s).Some?
    ensures var after := Plain(k, op, pc, s).value; after == s.(r := after.r, t := after.t, macl := after.macl)
  {
    hide Read, Write, PushInto, Wrap, And, Or, Extend, Plus, Signed8;
  }

  lemma PlainConfined(k: Case, op: Opcode, pc: int, s: State)
    requires Confined(k, s) && Plain(k, op, pc, s).Some?
    ensures Confined(k, Plain(k, op, pc, s).value) && OneHalfword(k, s, Plain(k, op, pc, s).value)
  {
    hide Plain, Confined, OneHalfword, Write;
    var after := Plain(k, op, pc, s).value;
    if Stores(op) {
      PlainStores(k, op, pc, s);
      var base := if op.low == 6 then s.(r := s.r[op.n := Minus(s.r[op.n], 4)]) else s;
      ComputesConfined(k, s, base);
      StoreConfined(k, base, base.r[op.n], base.r[op.m], if op.low == 0 then 1 else if op.low == 1 then 2 else 4);
      SameMemory(k, s, base, after);
    } else {
      PlainComputes(k, op, pc, s);
      ComputesConfined(k, s, after);
    }
  }

  lemma PlainStores(k: Case, op: Opcode, pc: int, s: State)
    requires Stores(op)
    ensures var base := if op.low == 6 then s.(r := s.r[op.n := Minus(s.r[op.n], 4)]) else s;
      Plain(k, op, pc, s) ==
        Write(k, base, base.r[op.n], base.r[op.m], if op.low == 0 then 1 else if op.low == 1 then 2 else 4)
  {
    hide Write, Read, LoadInto, PopInto, Wrap, And, Or, Minus;
  }

  lemma SameMemory(k: Case, s: State, base: State, after: State)
    requires base.memory == s.memory && base.stores == s.stores && OneHalfword(k, base, after)
    ensures OneHalfword(k, s, after)
  {
    if !(after.memory == s.memory && after.stores == s.stores) {
      var at: int, low: Byte, high: Byte :| HalfwordStored(k, base, after, at, low, high);
      assert HalfwordStored(k, s, after, at, low, high);
    }
  }

  /** Every turn, of any code: confined before, confined after. */
  lemma StepConfined(k: Case, s: State)
    requires Confined(k, s) && Step(k, s).Some?
    ensures Confined(k, Step(k, s).value) && OneHalfword(k, s, Step(k, s).value)
    ensures Step(k, s).value.steps > s.steps
  {
    hide Confined, OneHalfword, Plain, Fetch, Signed8;
    var counted := s.(steps := s.steps + 1);
    ComputesConfined(k, s, counted);
    var op := Fetch(k, s.pc).value;
    var after := Step(k, s).value;
    if op == Opcode(0, 0, 0, 11) || op.top == 10 || (ShortBranch(op) && op.n in {13, 15}) {
      SlotConfined(k, s.pc, counted);
      Relocate(k, s, counted, Slot(k, s.pc, counted).value, after);
    } else if ShortBranch(op) {
      ComputesConfined(k, s, after);
    } else {
      PlainConfined(k, op, s.pc, counted);
      StepsKept(k, op, s.pc, counted);
      Relocate(k, s, counted, Plain(k, op, s.pc, counted).value, after);
    }
  }

  lemma StepsKept(k: Case, op: Opcode, pc: int, s: State)
    requires Plain(k, op, pc, s).Some?
    ensures Plain(k, op, pc, s).value.steps == s.steps
  {
    hide Read, Wrap, And, Or, Extend, Plus, Minus, Signed8, Owned, InWindow;
  }

  lemma SlotConfined(k: Case, pc: int, s: State)
    requires Confined(k, s) && Slot(k, pc, s).Some?
    ensures Confined(k, Slot(k, pc, s).value) && OneHalfword(k, s, Slot(k, pc, s).value)
    ensures Slot(k, pc, s).value.steps > s.steps
  {
    hide Confined, OneHalfword, Plain, Fetch;
    var op := Fetch(k, pc + 2).value;
    PlainConfined(k, op, pc + 2, s);
    StepsKept(k, op, pc + 2, s);
    Relocate(k, s, s, Plain(k, op, pc + 2, s).value, Slot(k, pc, s).value);
  }

  /** Program counter and step count do not matter to confinement. */
  lemma Relocate(k: Case, s: State, base: State, mid: State, after: State)
    requires Confined(k, mid) && OneHalfword(k, base, mid)
    requires base.memory == s.memory && base.stores == s.stores
    requires after == mid.(pc := after.pc, steps := after.steps)
    ensures Confined(k, after) && OneHalfword(k, s, after)
  {
    hide InitialMemory;
    if !(mid.memory == s.memory && mid.stores == s.stores) {
      var at: int, low: Byte, high: Byte :| HalfwordStored(k, base, mid, at, low, high);
      assert HalfwordStored(k, s, after, at, low, high);
    }
  }

  lemma InitialConfined(k: Case)
    ensures Confined(k, Initial(k))
  {
  }

  // ---------- whole runs ----------

  /** What a run that returns has established, for any code at all. */
  ghost predicate Copied(k: Case, s: State) {
    && Confined(k, s)
    && s.r[8..] == InitialRegisters(k)[8..]
    && DestinationIsSource(k, s)
    && OthersIntact(k, s)
    && (k.count == 0 ==> s.stores == [])
  }

  ghost predicate DestinationIsSource(k: Case, s: State) {
    forall i :: 0 <= i < k.count ==> ByteCopied(k, s, i)
  }

  ghost predicate ByteCopied(k: Case, s: State, i: nat) {
    && k.destination + i in s.memory && k.source + i in s.memory
    && s.memory[k.destination + i] == s.memory[k.source + i] == Expected(i)
  }

  ghost predicate OthersIntact(k: Case, s: State) {
    s.memory.Keys == InitialMemory(k).Keys
    && forall at :: at in s.memory && !(k.destination <= at < k.destination + k.count) ==>
      s.memory[at] == InitialMemory(k)[at]
  }

  /** Confinement and the final checks give the whole promise: the destination equals the untouched
      source, and no other byte, neighbours included, differs from its initial value. */
  lemma AcceptedCopies(k: Case, s: State)
    requires Apart(k) && Confined(k, s) && Accepted(k, s)
    ensures Copied(k, s)
  {
    hide InitialMemory, FloorEven, Expected, Confined, InitialRegisters;
    DestinationFilled(k, s);
    OthersKept(k, s);
    EmptyCopyStoresNothing(k, s);
  }

  lemma DestinationFilled(k: Case, s: State)
    requires Apart(k) && Confined(k, s) && Accepted(k, s)
    ensures DestinationIsSource(k, s)
  {
    hide InitialMemory, Confined, Expected, Apart;
    forall i | 0 <= i < k.count
      ensures ByteCopied(k, s, i)
    {
      SourceKept(k, s, i);
      var at := k.destination + i;
      assert at in s.memory && s.memory[at] == Expected(at - k.destination);
    }
  }

  lemma OthersKept(k: Case, s: State)
    requires Confined(k, s) && Accepted(k, s)
    ensures OthersIntact(k, s)
  {
    hide Accepted, Expected, InWindow;
    if k.count > 0 {
      forall at | at in s.memory && !(k.destination <= at < k.destination + k.count)
        ensures s.memory[at] == InitialMemory(k)[at]
      {
        if InWindow(k, at) { EdgeKept(k, s, at); }
      }
    }
  }

  lemma EmptyCopyStoresNothing(k: Case, s: State)
    requires Confined(k, s)
    ensures k.count == 0 ==> s.memory == map[] && s.stores == []
  {
    assert |s.stores| > 0 ==> Owned(InitialMemory(k), s.stores[0], 2);
  }

  /** Confinement keeps every source byte. */
  lemma SourceKept(k: Case, s: State, i: nat)
    requires Apart(k) && Confined(k, s) && i < k.count
    ensures k.source + i in s.memory && s.memory[k.source + i] == Expected(i)
  {
    var at := k.source + i;
    assert InSource(k, at) && !InWindow(k, at);
    assert at in InitialMemory(k) && InitialMemory(k)[at] == Expected(i);
  }

  lemma EdgeKept(k: Case, s: State, at: int)
    requires Confined(k, s) && Accepted(k, s) && at in s.memory && InWindow(k, at)
    requires k.count > 0 && !(k.destination <= at < k.destination + k.count)
    ensures s.memory[at] == InitialMemory(k)[at]
  {
    hide InitialMemory, InWindow;
    EdgeNeighbours(k, at);
    EdgeFilled(k, at);
  }

  lemma EdgeFilled(k: Case, at: int)
    requires InWindow(k, at) && k.count > 0
    ensures at in InitialMemory(k) && InitialMemory(k)[at] == FILL
  {
  }

  /** The window holds the destination and at most one neighbour at each end. */
  lemma EdgeNeighbours(k: Case, at: int)
    requires InWindow(k, at) && !(k.destination <= at < k.destination + k.count)
    ensures (at == k.destination - 1 && k.destination % 2 == 1)
      || (at == k.destination + k.count && (k.destination + k.count) % 2 == 1)
  {
  }

  /** The interpreter object: its fields change in place, one instruction at a time. */
  class Machine {
    const k: Case
    var state: State

    constructor (k: Case)
      ensures this.k == k && state == Initial(k)
    {
      this.k := k;
      this.state := Initial(k);
    }

    /** Run to the return address, then check; false is any refusal.  It always ends, and it succeeds
        exactly when single steps reach the return address in a state that passes the checks. */
    method Run() returns (ok: bool)
      requires Confined(k, state) && Apart(k)
      modifies this
      ensures Confined(k, state)
      ensures ok <==> Finish(k, old(state)).Some? && Accepted(k, Finish(k, old(state)).value)
      ensures ok ==> Some(state) == Finish(k, old(state)) && state.pc == RETURN && Copied(k, state)
    {
      hide Step, Confined, OneHalfword, Copied, Accepted;
      while state.pc != RETURN
        invariant Confined(k, state)
        invariant Finish(k, state) == Finish(k, old(state))
        decreases STEP_LIMIT - state.steps
      {
        var next := Step(k, state);
        if next.None? {
          return false;
        }
        StepConfined(k, state);
        StepBound(k, state);
        state := next.value;
      }
      ok := Accepted(k, state);
      if ok { AcceptedCopies(k, state); }
    }
  }

  /** The state at the return address, if the steps get there. */
  function Finish(k: Case, s: State): Option<State>
    decreases STEP_LIMIT - s.steps
  {
    if s.pc == RETURN then Some(s)
    else match Step(k, s)
      case None => None
      case Some(next) => StepCounts(k, s); Finish(k, next)
  }

  lemma StepCounts(k: Case, s: State)
    requires Step(k, s).Some?
    ensures s.steps < STEP_LIMIT && s.steps < Step(k, s).value.steps
  {
    hide Plain, Fetch, Signed8;
    StepBound(k, s);
    var counted := s.(steps := s.steps + 1);
    var op := Fetch(k, s.pc).value;
    if op == Opcode(0, 0, 0, 11) || op.top == 10 || (ShortBranch(op) && op.n in {13, 15}) {
      StepsKept(k, Fetch(k, s.pc + 2).value, s.pc + 2, counted);
    } else if !ShortBranch(op) {
      StepsKept(k, op, s.pc, counted);
    }
  }

  lemma StepBound(k: Case, s: State)
    requires Step(k, s).Some?
    ensures s.steps < STEP_LIMIT
  {
    hide Slot, Plain, Fetch;
  }

  function StepN(k: Case, s: State, count: nat): Option<State>
    decreases count
  {
    if count == 0 then Some(s)
    else match Step(k, s)
      case None => None
      case Some(next) => StepN(k, next, count - 1)
  }

  /** Every state any code can reach leaves the source bytes as they were. */
  lemma {:induction false} ReachableConfined(k: Case, s: State, count: nat)
    requires Confined(k, s) && StepN(k, s, count).Some?
    ensures Confined(k, StepN(k, s, count).value)
    decreases count
  {
    hide Step, Confined;
    if count > 0 {
      StepConfined(k, s);
      ReachableConfined(k, Step(k, s).value, count - 1);
    }
  }

  lemma SourceIntact(k: Case, count: nat, i: nat)
    requires Apart(k) && StepN(k, Initial(k), count).Some? && i < k.count
    ensures var s := StepN(k, Initial(k), count).value;
      k.source + i in s.memory && s.memory[k.source + i] == Expected(i)
  {
    hide Step, StepN;
    InitialConfined(k);
    ReachableConfined(k, Initial(k), count);
    SourceKept(k, StepN(k, Initial(k), count).value, i);
  }
}
