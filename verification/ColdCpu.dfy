/** The cold-installer CPU: one physically aliased RAM, watched stores, and the scalar
    instruction dispatch inherited through `SH`, `ReleaseSH` and `Cold`.

    The program counter is kept apart (see `ScanBlocks`); a store only needs to know
    whether it is made by the game's own allocator. */
module ColdCpu {
  import opened Words
  import opened Opcodes

  const RAM_BEGIN: int := 0x0C00_0000
  const RAM_END: int := 0x0D00_0000

  type Registers = s: seq<nat> | |s| == 16 witness seq(16, _ => 0)
  type Ram = map<int, Byte>

  /** What one installer run is bound to. */
  datatype Profile = Profile(
    stageBegin: nat, stageEnd: nat, allocator: nat, releaser: nat, sentinel: nat,
    heapBegin: nat, leaseBytes: nat, control: nat, hasBudget: bool)

  datatype Store = Store(address: int, value: int)

  /** Objects the loop follows: the prepared lease and plan, the lease being armed, the hash contexts. */
  datatype Book = Book(budget: Option<(nat, nat)>, lease: Option<nat>, hashes: map<nat, seq<Byte>>)

  datatype Core = Core(
    r: Registers, mem: Ram, pr: nat, sr: nat, macl: nat,
    watch: bool, slot: Option<nat>, dirty: bool, ram: nat, reserveAfter: nat,
    reserveStores: seq<Store>, purges: seq<int>,
    prepareCalls: nat, publishCalls: nat, ownerCalls: nat, passiveCalls: nat,
    published: Option<int>, allocatorStack: nat,
    book: Book)

  // ---------- memory ----------

  /** The three RAM windows, and the whole access inside main RAM. */
  predicate InRam(address: int, count: int) {
    var p := Physical(address);
    Wrap(address) - p in {0, 0x8000_0000, 0xA000_0000} && RAM_BEGIN <= p <= RAM_END - count
  }

  function ByteAt(mem: Ram, at: int): Byte { if at in mem then mem[at] else 0 }

  function Gather(mem: Ram, at: int, count: int): nat
    requires count in {1, 2, 4}
  {
    if count == 1 then ByteAt(mem, at)
    else if count == 2 then ByteAt(mem, at) + 0x100 * ByteAt(mem, at + 1)
    else
      ByteAt(mem, at) + 0x100 * ByteAt(mem, at + 1) + 0x1_0000 * ByteAt(mem, at + 2) + 0x100_0000 * ByteAt(mem, at + 3)
  }

  function Scatter(mem: Ram, at: int, value: nat, count: int): Ram
    requires count in {1, 2, 4}
  {
    var b0, b1 := value % 0x100, value / 0x100 % 0x100;
    var b2, b3 := value / 0x1_0000 % 0x100, value / 0x100_0000 % 0x100;
    if count == 1 then mem[at := b0]
    else if count == 2 then mem[at := b0][at + 1 := b1]
    else mem[at := b0][at + 1 := b1][at + 2 := b2][at + 3 := b3]
  }

  function RawRead(c: Core, address: int, count: int): Option<nat>
    requires count in {1, 2, 4}
  {
    if InRam(address, count) then Some(Gather(c.mem, Physical(address), count)) else None
  }

  /** A dirty reserve line is still old to an uncached 32-bit read. */
  function Read(c: Core, address: int, count: int): Option<nat>
    requires count in {1, 2, 4}
  {
    if c.dirty && count == 4 && c.slot.Some? && Wrap(address) - Physical(address) == 0xA000_0000
       && Physical(address) == Physical(c.slot.value) then Some(c.ram)
    else RawRead(c, address, count)
  }

  function RawWrite(c: Core, address: int, value: nat, count: int): Option<Core>
    requires count in {1, 2, 4}
  {
    if InRam(address, count) then Some(c.(mem := Scatter(c.mem, Physical(address), value, count))) else None
  }

  predicate Within(low: int, p: int, count: int, high: int) { low <= p && p + count <= high }

  /** Stores the game's own allocator may make: its metadata and its call frame. */
  predicate AllocatorMay(env: Profile, c: Core, p: int, count: int) {
    var header := Physical(env.heapBegin);
    var upper := header + env.leaseBytes + 32;
    var sentinel := Physical(env.sentinel);
    var stack := Physical(c.allocatorStack);
    || (count == 4 && (Within(header, p, 4, header + 8) || Within(upper, p, 4, upper + 8) ||
                       Within(sentinel, p, 4, sentinel + 0x34)))
    || (count in {2, 4} && Within(stack - 16, p, count, stack))
  }

  predicate IsReserve(env: Profile, c: Core, p: int, count: int) {
    env.hasBudget && c.slot.Some? && count == 4 && p == Physical(c.slot.value)
  }

  /** The single publication the watch admits. */
  predicate ReserveMay(c: Core, address: int, value: nat) {
    && c.publishCalls == 1 && c.passiveCalls == 0 && c.prepareCalls == 1 && c.ownerCalls == 3
    && value == c.reserveAfter && c.slot == Some(address) && c.reserveStores == []
  }

  predicate StageMay(env: Profile, p: int, count: int) {
    || Within(Physical(env.stageBegin), p, count, Physical(env.stageEnd))
    || p == Physical(env.control) + 12 || p == Physical(env.control) + 8
  }

  /** Bookkeeping before the bytes change; None refuses the store. */
  function Admit(env: Profile, c: Core, byAllocator: bool, address: int, value: nat, count: int): Option<Core>
    requires count in {1, 2, 4}
  {
    var p := Physical(address);
    if !c.watch then Some(c)
    else
      var noted :=
        if byAllocator then (if AllocatorMay(env, c, p, count) then Some(c) else None)
        else if IsReserve(env, c, p, count) then
          var before := Read(c, address, 4);
          if !ReserveMay(c, address, value) || before.None? then None
          else Some(c.(ram := before.value, dirty := true, reserveStores := c.reserveStores + [Store(address, value)]))
        else if StageMay(env, p, count) then Some(c) else None;
      if noted.None? then None
      else if p == Physical(env.control) + 12 then
        if c.passiveCalls != 0 then None else Some(noted.value.(published := Some(value)))
      else noted
  }

  function Write(env: Profile, c: Core, byAllocator: bool, address: int, value: nat, count: int): Option<Core>
    requires count in {1, 2, 4}
  {
    match Admit(env, c, byAllocator, address, value, count)
    case None => None
    case Some(noted) => RawWrite(noted, address, value, count)
  }

  // ---------- scalar instructions ----------

  function Reg(c: Core, n: Nibble, value: nat): Option<Core> { Some(c.(r := c.r[n := value])) }

  function Flag(c: Core, value: bool): Core { c.(sr := c.sr - c.sr % 2 + (if value then 1 else 0)) }

  function Bits(count: int): int { if count == 1 then 8 else if count == 2 then 16 else 32 }

  function Signed(value: nat, bits: int): int {
    if bits == 8 then (if value / 0x80 % 2 == 1 then value - 0x100 else value)
    else if bits == 16 then (if value / 0x8000 % 2 == 1 then value - 0x1_0000 else value)
    else (if value / 0x8000_0000 % 2 == 1 then value - 0x1_0000_0000 else value)
  }

  /** `r[n] = read(...)`, sign-extended when narrower than a word. */
  function LoadInto(c: Core, n: Nibble, address: int, count: int): Option<Core>
    requires count in {1, 2, 4}
  {
    match Read(c, address, count)
    case None => None
    case Some(v) => Reg(c, n, if count == 4 then v else Wrap(Signed(v, Bits(count))))
  }

  function PopInto(c: Core, n: Nibble, m: Nibble, count: int): Option<Core>
    requires count in {1, 2, 4}
  {
    match Read(c, c.r[m], count)
    case None => None
    case Some(v) =>
      var moved := if n == m then c else c.(r := c.r[m := Plus(c.r[m], count)]);
      Reg(moved, n, if count == 4 then v else Wrap(Signed(v, Bits(count))))
  }

  function PushFrom(env: Profile, c: Core, byAllocator: bool, n: Nibble, value: nat): Option<Core> {
    var at := Minus(c.r[n], 4);
    Write(env, c.(r := c.r[n := at]), byAllocator, at, value, 4)
  }

  function SwapBytes(v: nat): nat { v / 0x1_0000 * 0x1_0000 + v % 0x100 * 0x100 + v / 0x100 % 0x100 }

  function ShiftBy(count: nat, a: nat, arithmetic: bool): nat {
    if count / 0x8000_0000 % 2 == 0 then Wrap(a * Pow2(count % 32))
    else if count % 32 == 0 then (if arithmetic then Wrap(Signed(a, 32) / 0x1_0000_0000) else 0)
    else if arithmetic then Wrap(Signed(a, 32) / Pow2(32 - count % 32))
    else a / Pow2(32 - count % 32)
  }

  function Literal(pc: int, op: Opcode): int { (pc + 4) / 4 * 4 + 4 * op.Imm8() }

  /** The purge instruction: only the newly published line, and only while it is dirty. */
  function Purge(env: Profile, c: Core, address: nat): Option<Core> {
    if !env.hasBudget || c.slot.None? || !c.dirty || address / 32 != c.slot.value / 32 then None
    else
      match RawRead(c, c.slot.value, 4)
      case None => None
      case Some(v) => Some(c.(purges := c.purges + [address], dirty := false, ram := v))
  }

  /** Cases `Cold.plain` decides itself; None means it defers. */
  function ColdCase(env: Profile, op: Opcode, pc: int, c: Core): Option<Option<Core>> {
    var n, m, low := op.n, op.m, op.low;
    var a: nat, b: nat, t := c.r[n], c.r[m], c.sr % 2;
    if op.top == 0 && op.Imm8() == 0xa3 then Some(Purge(env, c, a))
    else if op.top == 6 && low == 8 then Some(Reg(c, n, SwapBytes(b)))
    else if op.top == 4 && op.Imm8() in {0x18, 0x28} then
      Some(Reg(c, n, Wrap(a * (if op.Imm8() == 0x18 then 0x100 else 0x1_0000))))
    else if op.top == 4 && op.Imm8() in {0x19, 0x29} then
      Some(Reg(c, n, a / (if op.Imm8() == 0x19 then 0x100 else 0x1_0000)))
    else if op.top == 6 && low in {14, 15} then
      Some(Reg(c, n, if low == 14 then Wrap(Signed(b % 0x100, 8)) else Wrap(Signed(b % 0x1_0000, 16))))
    else if op.top == 4 && op.Imm8() in {0x11, 0x15} then
      Some(Some(Flag(c, if op.Imm8() == 0x11 then Signed(a, 32) >= 0 else Signed(a, 32) > 0)))
    else if op in {Opcode(0, 0, 0, 8), Opcode(0, 0, 1, 8)} then Some(Some(Flag(c, op == Opcode(0, 0, 1, 8))))
    else if op.top == 3 && low in {10, 14} then
      var value := if low == 10 then a - b - t else a + b + t;
      Some(Some(Flag(c.(r := c.r[n := Wrap(value)]), if low == 10 then value < 0 else value > 0xffff_ffff)))
    else if op.top == 3 && low == 3 then Some(Some(Flag(c, Signed(a, 32) >= Signed(b, 32))))
    else if op.top == 3 && low == 7 then Some(Some(Flag(c, Signed(a, 32) > Signed(b, 32))))
    else if op.top == 8 && n == 4 then Some(LoadInto(c, 0, b + low, 1))
    else if op.top == 12 && n == 7 && pc >= 0 then Some(Reg(c, 0, Literal(pc, op)))
    else None
  }

  /** Cases `ReleaseSH.plain` decides itself. */
  function ReleaseCase(env: Profile, op: Opcode, c: Core, byAllocator: bool): Option<Option<Core>> {
    var n, m, low := op.n, op.m, op.low;
    var a: nat, b: nat, z: nat, t := c.r[n], c.r[m], c.r[0], c.sr % 2;
    if op.top == 8 && n == 0 then Some(Write(env, c, byAllocator, b + low, z, 1))
    else if op.top == 8 && n == 1 then Some(Write(env, c, byAllocator, b + 2 * low, z, 2))
    else if op.top == 8 && n == 5 then Some(LoadInto(c, 0, b + 2 * low, 2))
    else if op.top == 2 && low == 0 then Some(Write(env, c, byAllocator, a, b, 1))
    else if op.top == 6 && low == 0 then Some(LoadInto(c, n, b, 1))
    else if op.top == 6 && low == 4 then Some(PopInto(c, n, m, 1))
    else if op.top == 6 && low == 5 then Some(PopInto(c, n, m, 2))
    else if op.top == 6 && low == 7 then Some(Reg(c, n, Wrap(-1 - b)))
    else if op.top == 6 && low == 10 then Some(Some(Flag(c.(r := c.r[n := Wrap(0 - (b + t))]), b + t != 0)))
    else if op.top == 6 && low == 11 then Some(Reg(c, n, Wrap(0 - b)))
    else if op.top == 6 && low == 12 then Some(Reg(c, n, b % 0x100))
    else if op.top == 2 && low == 10 then Some(Reg(c, n, Xor(a, b)))
    else if op.top == 0 && low == 14 then Some(LoadInto(c, n, Plus(z, b), 4))
    else if op.top == 0 && low == 13 then Some(LoadInto(c, n, Plus(z, b), 2))
    else if op.top == 0 && low == 5 then Some(Write(env, c, byAllocator, Plus(z, a), b, 2))
    else if op.top == 0 && low == 7 then Some(Some(c.(macl := Wrap(a * b))))
    else if op.top == 0 && op.Imm8() == 0x1a then Some(Reg(c, n, c.macl))
    else if op.top == 0 && op.Imm8() == 0x29 then Some(Reg(c, n, t))
    else if op.top == 4 && op.Imm8() == 0x10 then
      Some(Some(Flag(c.(r := c.r[n := Wrap(a - 1)]), Wrap(a - 1) == 0)))
    else if op.top == 4 && low == 13 then Some(Reg(c, n, ShiftBy(b, a, false)))
    else if op.top == 4 && low == 12 then Some(Reg(c, n, ShiftBy(b, a, true)))
    else if op.top == 12 && n == 8 then Some(Some(Flag(c, And(z, op.Imm8()) == 0)))
    else if op.top == 12 && n == 10 then Some(Reg(c, 0, Xor(z, op.Imm8())))
    else if op.top == 8 && n == 8 then Some(Some(Flag(c, z == Wrap(Signed8(op.Imm8())))))
    else None
  }

  /** The base `SH.plain`. */
  function BaseCase(env: Profile, op: Opcode, pc: int, c: Core, byAllocator: bool): Option<Core> {
    var n, m, low := op.n, op.m, op.low;
    var a: nat, b: nat, z: nat := c.r[n], c.r[m], c.r[0];
    if op == NOP then Some(c)
    else if op.top == 14 then Reg(c, n, Wrap(Signed8(op.Imm8())))
    else if op.top == 7 then Reg(c, n, Wrap(a + Signed8(op.Imm8())))
    else if op.top == 13 then LoadInto(c, n, Literal(pc, op), 4)
    else if op.top == 9 then LoadInto(c, n, pc + 4 + 2 * op.Imm8(), 2)
    else if op.top == 1 then Write(env, c, byAllocator, a + 4 * low, b, 4)
    else if op.top == 5 then LoadInto(c, n, b + 4 * low, 4)
    else if op.top == 6 && low == 3 then Reg(c, n, b)
    else if op.top == 6 && low == 2 then LoadInto(c, n, b, 4)
    else if op.top == 6 && low == 1 then LoadInto(c, n, b, 2)
    else if op.top == 6 && low == 6 then PopInto(c, n, m, 4)
    else if op.top == 6 && low == 13 then Reg(c, n, b % 0x1_0000)
    else if op.top == 2 && low == 2 then Write(env, c, byAllocator, a, b, 4)
    else if op.top == 2 && low == 1 then Write(env, c, byAllocator, a, b, 2)
    else if op.top == 2 && low == 6 then PushFrom(env, c, byAllocator, n, if n == m then Minus(a, 4) else b)
    else if op.top == 4 && op.Imm8() == 0x22 then PushFrom(env, c, byAllocator, n, c.pr)
    else if op.top == 4 && op.Imm8() == 0x26 then
      match Read(c, a, 4)
      case None => None
      case Some(v) => Some(c.(pr := v, r := c.r[n := Plus(a, 4)]))
    else if op.top == 0 && op.Imm8() == 0x02 then Reg(c, n, c.sr)
    else if op.top == 4 && op.Imm8() == 0x0e then Some(c.(sr := a))
    else if op.top == 4 && op.Imm8() == 0x09 then Reg(c, n, a / 4)
    else if op.top == 4 && op.Imm8() == 0x01 then Some(Flag(c, a % 2 == 1).(r := c.r[n := a / 2]))
    else if op.top == 4 && op.Imm8() == 0x08 then Reg(c, n, Wrap(4 * a))
    else if op.top == 4 && op.Imm8() == 0x00 then
      Some(Flag(c, a / 0x8000_0000 % 2 == 1).(r := c.r[n := Wrap(2 * a)]))
    else if op.top == 2 && low == 9 then Reg(c, n, And(a, b))
    else if op.top == 2 && low == 11 then Reg(c, n, Or(a, b))
    else if op.top == 2 && low == 8 then Some(Flag(c, And(a, b) == 0))
    else if op.top == 12 && n == 9 then Reg(c, 0, And(z, op.Imm8()))
    else if op.top == 12 && n == 11 then Reg(c, 0, Or(z, op.Imm8()))
    else if op.top == 3 && low == 12 then Reg(c, n, Wrap(a + b))
    else if op.top == 3 && low == 8 then Reg(c, n, Wrap(a - b))
    else if op.top == 3 && low == 0 then Some(Flag(c, a == b))
    else if op.top == 3 && low == 2 then Some(Flag(c, a >= b))
    else if op.top == 3 && low == 6 then Some(Flag(c, a > b))
    else None
  }

  /** The inherited chain, most derived first; counting the instruction is the caller's part. */
  function Effect(env: Profile, op: Opcode, pc: int, c: Core, byAllocator: bool): Option<Core> {
    var cold := ColdCase(env, op, pc, c);
    if cold.Some? then cold.value
    else
      var release := ReleaseCase(env, op, c, byAllocator);
      if release.Some? then release.value else BaseCase(env, op, pc, c, byAllocator)
  }
}
