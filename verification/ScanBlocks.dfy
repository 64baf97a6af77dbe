/** `ScanBlocks`: decode straight-line blocks once, run them many times, and agree with
    single-instruction dispatch in every register, byte, branch and count. */
module ScanBlocks {
  import opened Words
  import opened Opcodes
  import opened ColdCpu

  const INSTRUCTION_BOUND: int := 200_000_000
  const BLOCK_LIMIT: int := 64

  datatype Machine = Machine(pc: nat, instructions: int, executed: set<int>, core: Core)

  type Spans = seq<(int, int)>

  predicate Contains(spans: Spans, pc: int) {
    exists i :: 0 <= i < |spans| && spans[i].0 <= pc < spans[i].1
  }

  /** Code of the game's own allocate and release functions. */
  predicate InAllocator(env: Profile, pc: int) {
    env.allocator <= pc < env.allocator + 0xce || env.releaser <= pc < env.releaser + 0x9a
  }

  function FetchOp(c: Core, a: int): Option<Opcode> {
    if InRam(a, 2) then Some(OpcodeOf(ByteAt(c.mem, Physical(a)), ByteAt(c.mem, Physical(a) + 1))) else None
  }

  // ---------- single-instruction dispatch ----------

  predicate Transfers(op: Opcode) { Unconditional(op) || ShortBranch(op) }

  predicate HasSlot(op: Opcode) { Unconditional(op) || (op.top == 8 && op.n in {13, 15}) }

  function Link(op: Opcode, pc: nat, c: Core): Core {
    if op.top == 11 || (op.top == 4 && op.Imm8() == 0x0b) then c.(pr := pc + 4) else c
  }

  /** Target and condition, both sampled before the slot. */
  function Goes(op: Opcode, pc: nat, c: Core): Word
    requires Transfers(op)
  {
    if op.top in {10, 11} then Wrap(pc + 4 + 2 * op.SignedDisp12())
    else if op.top == 4 then Wrap(c.r[op.n])
    else if op.top == 0 then Wrap(c.pr)
    else if (c.sr % 2 == 1) == (op.n in {9, 13}) then Wrap(pc + 4 + 2 * Signed8(op.Imm8()))
    else Wrap(pc + (if op.n in {13, 15} then 4 else 2))
  }

  function Step(env: Profile, s: Machine): Option<Machine> {
    match FetchOp(s.core, s.pc)
    case None => None
    case Some(op) =>
      var byAllocator := InAllocator(env, s.pc);
      var visited := s.executed + {s.pc};
      if !Transfers(op) then
        match Effect(env, op, s.pc, s.core, byAllocator)
        case None => None
        case Some(c) => Some(Machine(s.pc + 2, s.instructions + 1, visited, c))
      else
        var linked := Link(op, s.pc, s.core);
        var target := Goes(op, s.pc, s.core);
        if !HasSlot(op) then Some(Machine(target, s.instructions + 1, visited, linked))
        else
          match FetchOp(linked, s.pc + 2)
          case None => None
          case Some(slot) =>
            if SlotIllegal(slot) then None
            else
              match Effect(env, slot, s.pc + 2, linked, byAllocator)
              case None => None
              case Some(c) => Some(Machine(target, s.instructions + 2, visited + {s.pc + 2}, c))
  }

  function StepN(env: Profile, s: Machine, count: nat): Option<Machine>
    decreases count
  {
    if count == 0 then Some(s)
    else match Step(env, s)
      case None => None
      case Some(next) => StepN(env, next, count - 1)
  }

  // ---------- the decoded form ----------

  /** `scalar`: the expression a block contains for one opcode; whatever it does not
      list falls back to the dispatcher. */
  function Scalar(env: Profile, op: Opcode, pc: nat, c: Core, byAllocator: bool): Option<Core> {
    var n, m, low := op.n, op.m, op.low;
    var a: nat, b: nat := c.r[n], c.r[m];
    if op == NOP then Some(c)
    else if op.top == 14 then Reg(c, n, Wrap(Signed8(op.Imm8())))
    else if op.top == 7 then Reg(c, n, Wrap(a + Signed8(op.Imm8())))
    else if op.top == 13 then LoadInto(c, n, Literal(pc, op), 4)
    else if op.top == 9 then LoadInto(c, n, pc + 4 + 2 * op.Imm8(), 2)
    else if op.top == 1 then Write(env, c, byAllocator, a + 4 * low, b, 4)
    else if op.top == 5 then LoadInto(c, n, b + 4 * low, 4)
    else if op.top == 6 && low == 3 then Reg(c, n, b)
    else if op.top == 6 && low in {0, 1, 2} then LoadInto(c, n, b, if low == 0 then 1 else if low == 1 then 2 else 4)
    else if op.top == 6 && low == 12 then Reg(c, n, b % 0x100)
    else if op.top == 6 && low == 13 then Reg(c, n, b % 0x1_0000)
    else if op.top == 6 && low in {14, 15} then
      Reg(c, n, if low == 14 then Wrap(Signed(b % 0x100, 8)) else Wrap(Signed(b % 0x1_0000, 16)))
    else if op.top == 6 && low == 8 then Reg(c, n, SwapBytes(b))
    else if op.top == 2 && low in {9, 10, 11} then
      Reg(c, n, if low == 9 then And(a, b) else if low == 10 then Xor(a, b) else Or(a, b))
    else if op.top == 2 && low == 8 then Some(Flag(c, And(a, b) == 0))
    else if op.top == 3 && low in {0, 2, 6} then
      Some(Flag(c, if low == 0 then a == b else if low == 2 then a >= b else a > b))
    else if op.top == 3 && low in {8, 12} then Reg(c, n, if low == 8 then Wrap(a - b) else Wrap(a + b))
    else if op.top == 4 && op.Imm8() in {0x08, 0x18} then
      Reg(c, n, if op.Imm8() == 0x08 then Wrap(4 * a) else Wrap(a * 0x100))
    else if op.top == 0 && op.Imm8() == 0x29 then Reg(c, n, c.sr % 2)
    else if op.top == 8 && n == 4 then LoadInto(c, 0, b + low, 1)
    else if op.top == 12 && n == 8 then Some(Flag(c, And(c.r[0], op.Imm8()) == 0))
    else Effect(env, op, pc, c, byAllocator)
  }

  /** The halfword addresses of `count` consecutive instructions. */
  function Row(first: int, count: nat): set<int>
    decreases count
  {
    if count == 0 then {} else {first} + Row(first + 2, count - 1)
  }

  /** How a block ends: past its last instruction, or with a transfer and perhaps its slot. */
  datatype Tail = Fall | Transfer(op: Opcode, slot: Option<Opcode>)

  datatype Block = Block(first: nat, body: seq<Opcode>, tail: Tail) {
    function EndPc(): nat { first + 2 * |body| }
    function Count(): nat {
      |body| + match tail case Fall => 0 case Transfer(_, slot) => if slot.Some? then 2 else 1
    }
    function Places(): set<int> {
      Row(first, |body|) +
      match tail
      case Fall => {}
      case Transfer(_, slot) => if slot.Some? then {EndPc(), EndPc() + 2} else {EndPc()}
    }
    function Dispatches(): nat { |body| + if tail.Fall? then 0 else 1 }
  }

  /** Decode from `pc` until a transfer, the end of the reviewed spans or 64 places. */
  function Decode(spans: Spans, code: Core, pc: nat, done: nat): (block: Option<Block>)
    requires done < BLOCK_LIMIT
    ensures block.Some? ==> block.value.first == pc && block.value.Count() > 0 && Contains(spans, pc)
    decreases BLOCK_LIMIT - done
  {
    if !Contains(spans, pc) then None
    else
      match FetchOp(code, pc)
      case None => None
      case Some(op) =>
        if Transfers(op) then
          if !HasSlot(op) then Some(Block(pc, [], Transfer(op, None)))
          else
            match FetchOp(code, pc + 2)
            case None => None
            case Some(slot) => if SlotIllegal(slot) then None else Some(Block(pc, [], Transfer(op, Some(slot))))
        else if !Contains(spans, pc + 2) || done + 1 >= BLOCK_LIMIT then Some(Block(pc, [op], Fall))
        else
          match Decode(spans, code, pc + 2, done + 1)
          case None => None
          case Some(rest) => Some(Block(pc, [op] + rest.body, rest.tail))
  }

  function RunBody(env: Profile, byAllocator: bool, pc: nat, body: seq<Opcode>, c: Core): Option<Core>
    decreases |body|
  {
    if body == [] then Some(c)
    else match Scalar(env, body[0], pc, c, byAllocator)
      case None => None
      case Some(next) => RunBody(env, byAllocator, pc + 2, body[1..], next)
  }

  /** Where the tail leaves the program counter and the core. */
  function RunTail(env: Profile, byAllocator: bool, pc: nat, tail: Tail, c: Core): Option<(nat, Core)>
    requires tail.Transfer? ==> Transfers(tail.op)
  {
    match tail
    case Fall => Some((pc, c))
    case Transfer(op, slot) =>
      var linked := Link(op, pc, c);
      var target := Goes(op, pc, c);
      match slot
      case None => Some((target, linked))
      case Some(delay) =>
        match Scalar(env, delay, pc + 2, linked, byAllocator)
        case None => None
        case Some(after) => Some((target, after))
  }

  predicate Runnable(block: Block) { block.tail.Transfer? ==> Transfers(block.tail.op) }

  /** A compiled block: body, tail, then one update of the counters. */
  function RunBlock(env: Profile, block: Block, s: Machine): Option<Machine>
    requires Runnable(block)
  {
    var byAllocator := InAllocator(env, block.first);
    match RunBody(env, byAllocator, block.first, block.body, s.core)
    case None => None
    case Some(c) =>
      match RunTail(env, byAllocator, block.EndPc(), block.tail, c)
      case None => None
      case Some((pc, after)) => Some(Machine(pc, s.instructions + block.Count(), s.executed + block.Places(), after))
  }

  // ---------- one decoded instruction ----------

  lemma Scalar02(env: Profile, op: Opcode, pc: nat, c: Core, byAllocator: bool)
    requires op.top in {0, 2}
    ensures Scalar(env, op, pc, c, byAllocator) == Effect(env, op, pc, c, byAllocator)
  {
    hide Write, Read, Purge, Wrap, And, Or, Xor, LoadInto, PopInto, PushFrom, Flag, Signed, Signed8, Literal, ShiftBy,
      SwapBytes;
  }

  lemma Scalar34(env: Profile, op: Opcode, pc: nat, c: Core, byAllocator: bool)
    requires op.top in {3, 4}
    ensures Scalar(env, op, pc, c, byAllocator) == Effect(env, op, pc, c, byAllocator)
  {
    hide Write, Read, Purge, Wrap, LoadInto, PopInto, PushFrom, Flag, Signed, Signed8, Literal, ShiftBy, SwapBytes;
  }

  lemma Scalar6(env: Profile, op: Opcode, pc: nat, c: Core, byAllocator: bool)
    requires op.top == 6
    ensures Scalar(env, op, pc, c, byAllocator) == Effect(env, op, pc, c, byAllocator)
  {
    hide Write, Read, Wrap, LoadInto, PopInto, PushFrom, Purge, Flag, Signed, Signed8, Literal, ShiftBy, SwapBytes;
  }

  lemma Scalar8C(env: Profile, op: Opcode, pc: nat, c: Core, byAllocator: bool)
    requires op.top in {8, 12}
    ensures Scalar(env, op, pc, c, byAllocator) == Effect(env, op, pc, c, byAllocator)
  {
    hide Write, Read, Wrap, LoadInto, PopInto, PushFrom, Purge, Flag, And, Xor, Or, Signed8, Signed, Literal, ShiftBy,
      SwapBytes;
  }

  lemma ScalarRest(env: Profile, op: Opcode, pc: nat, c: Core, byAllocator: bool)
    requires op.top !in {0, 2, 3, 4, 6, 8, 12}
    ensures Scalar(env, op, pc, c, byAllocator) == Effect(env, op, pc, c, byAllocator)
  {
    hide Write, Read, Wrap, LoadInto, PopInto, PushFrom, Purge, Flag, And, Xor, Or, Signed8, Signed, Literal, ShiftBy,
      SwapBytes;
  }

  /** Every opcode's decoded expression does what the inherited dispatcher does. */
  lemma ScalarIsEffect(env: Profile, op: Opcode, pc: nat, c: Core, byAllocator: bool)
    ensures Scalar(env, op, pc, c, byAllocator) == Effect(env, op, pc, c, byAllocator)
  {
    hide Scalar, Effect;
    if op.top in {0, 2} { Scalar02(env, op, pc, c, byAllocator); }
    else if op.top in {3, 4} { Scalar34(env, op, pc, c, byAllocator); }
    else if op.top == 6 { Scalar6(env, op, pc, c, byAllocator); }
    else if op.top in {8, 12} { Scalar8C(env, op, pc, c, byAllocator); }
    else { ScalarRest(env, op, pc, c, byAllocator); }
  }
}
