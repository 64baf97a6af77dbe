/** The sink interpreter against the SH-4 machine: what it admits, the machine does, instruction by
    instruction and over whole accepted runs. */
module SinkMachine {
  import opened Words
  import opened Opcodes
  import opened Sh4Bytes
  import Sink
  import Sh4

  type Case = Sink.Case
  type State = Sink.State
  type Cpu = Sh4.Cpu

  // ---------- one memory ----------

  predicate InStack(a: int) { Sink.STACK_TOP - 8 <= a < Sink.STACK_TOP }

  predicate InCode(k: Case, a: int) { k.address <= a < k.address + |k.code| }

  /** Every byte a case may read or write. */
  predicate Owned(k: Case, a: int) { a in Sink.InitialMemory(k) || InStack(a) || InCode(k, a) }

  /** Code, stack and data are apart, and no two owned addresses are one physical byte. */
  ghost predicate Separate(k: Case) {
    && (forall a :: Owned(k, a) ==> 0 <= a < 0x1_0000_0000)
    && (forall a :: a in Sink.InitialMemory(k) ==> !InStack(a) && !InCode(k, a))
    && (forall a :: InStack(a) ==> !InCode(k, a))
    && forall a: Word, b: Word :: Owned(k, a) && Owned(k, b) && Sh4.Key(a) == Sh4.Key(b) ==> a == b
  }

  /** The machine's memory holds what the interpreter's does. */
  ghost predicate Holds(k: Case, s: State, mem: Sh4.Memory) {
    && (forall a: Word :: a in s.memory ==> ByteIn(mem, Sh4.Key(a)) == s.memory[a])
    && (forall a: Word :: InCode(k, a) ==> ByteIn(mem, Sh4.Key(a)) == k.code[a - k.address])
    && forall a: Word :: a in s.stack ==> Sh4.Peek(mem, Sh4.Key(a)) == s.stack[a]
  }

  /** Registers, T and MACL agree, and PR is the return address. */
  predicate Registers(s: State, cpu: Cpu) {
    s.r == cpu.r && s.t == cpu.t && s.macl == cpu.macl && cpu.pr == Sink.RETURN
  }

  ghost predicate Same(k: Case, s: State, cpu: Cpu) {
    Registers(s, cpu) && Sink.Confined(k, s) && Holds(k, s, cpu.mem)
  }

  /** The bytes of an aligned access are consecutive in the physical space too. */
  lemma KeyNext(a: Word)
    ensures a % 2 == 0 ==> Sh4.Key(a + 1) == Sh4.Key(a) + 1
    ensures a % 4 == 0 ==> Sh4.Key(a + 2) == Sh4.Key(a) + 2 && Sh4.Key(a + 3) == Sh4.Key(a) + 3
  {
    hide Physical;
    PhysicalEven(a);
    if a % 2 == 0 { PhysicalPlus(a, 1); }
    if a % 4 == 0 {
      PhysicalPlus(a, 2);
      PhysicalPlus(a, 3);
    }
  }

  lemma PhysicalEven(a: int)
    ensures a % 2 == 0 ==> Physical(a) + 1 < 0x2000_0000
    ensures a % 4 == 0 ==> Physical(a) + 3 < 0x2000_0000
  {
    hide Physical;
    PhysicalIsMod(a);
    var q := a / 0x2000_0000;
    assert a % 2 == 0 ==> Physical(a) == 2 * (a / 2 - 0x1000_0000 * q);
    assert a % 4 == 0 ==> Physical(a) == 4 * (a / 4 - 0x800_0000 * q);
  }

  lemma {:induction false} PhysicalPlus(a: int, k: nat)
    requires a >= 0 && Physical(a) + k < 0x2000_0000
    ensures Physical(a + k) == Physical(a) + k
    decreases a
  {
    if a >= 0x2000_0000 { PhysicalPlus(a - 0x2000_0000, k); }
  }

  lemma StackWords(k: Case, s: State, at: int)
    requires Sink.Confined(k, s) && at in s.stack
    ensures at % 4 == 0 && InStack(at) && InStack(at + 3)
  {
    hide Sink.InitialMemory;
  }

  /** A read the interpreter admits is the machine's load. */
  lemma ReadSame(k: Case, s: State, mem: Sh4.Memory, a: int, width: int)
    requires Separate(k) && Sink.Confined(k, s) && Holds(k, s, mem) && width in {1, 2, 4}
    requires Sink.Read(k, s, a, width).Some?
    ensures 0 <= a < 0x1_0000_0000 && a % width == 0
    ensures Sh4.Load(mem, a, width) == Sink.Read(k, s, a, width)
  {
    hide Sh4.Load, Sink.Confined, Separate, Holds, Sink.Read;
    ReadKinds(k, s, a, width);
    if width == 4 && a in s.stack { ReadStack(k, s, mem, a); }
    else if InCode(k, a) && InCode(k, a + width - 1) { ReadCode(k, s, mem, a, width); }
    else { ReadData(k, s, mem, a, width); }
  }

  lemma ReadKinds(k: Case, s: State, a: int, width: int)
    requires width in {1, 2, 4} && Sink.Read(k, s, a, width).Some?
    ensures a % width == 0
    ensures !(width == 4 && a in s.stack) && !(InCode(k, a) && InCode(k, a + width - 1)) ==>
      Sink.Owned(s.memory, a, width)
  {
    hide Sink.Join;
  }

  lemma ReadStack(k: Case, s: State, mem: Sh4.Memory, a: int)
    requires Separate(k) && Sink.Confined(k, s) && Holds(k, s, mem) && a in s.stack
    ensures 0 <= a < 0x1_0000_0000 && a % 4 == 0 && Sh4.Load(mem, a, 4) == Some(s.stack[a])
    ensures Sink.Read(k, s, a, 4) == Some(s.stack[a])
  {
    hide Sh4.Key, Sh4.Load, Sink.InitialMemory, Sh4.Peek, Sink.InWindow, Sink.Join, ByteIn;
    StackWords(k, s, a);
    assert Owned(k, a);
    StackLoad(mem, a);
  }

  lemma ReadCode(k: Case, s: State, mem: Sh4.Memory, a: int, width: int)
    requires Separate(k) && Holds(k, s, mem) && width in {1, 2, 4} && InCode(k, a) && InCode(k, a + width - 1)
    requires a % width == 0 && !(width == 4 && a in s.stack)
    ensures 0 <= a < 0x1_0000_0000 && Sh4.Load(mem, a, width) == Sink.Read(k, s, a, width)
  {
    hide Sh4.Key, Sh4.Load, Sink.InitialMemory, ByteIn, Sh4.Peek, Sink.Owned, Sink.Read, Joined;
    assert Owned(k, a);
    KeyNext(a);
    LoadBytes(mem, a, width);
    CodeBytes(k, s, a, width);
    assert width >= 2 ==> InCode(k, a + 1);
    assert width == 4 ==> InCode(k, a + 2) && InCode(k, a + 3);
  }

  lemma CodeBytes(k: Case, s: State, a: int, width: int)
    requires width in {1, 2, 4} && InCode(k, a) && InCode(k, a + width - 1)
    requires a % width == 0 && !(width == 4 && a in s.stack)
    ensures var i := a - k.address;
      var b0: int, b1: int := k.code[i], if width >= 2 then k.code[i + 1] else 0;
      Sink.Read(k, s, a, width) == Some(if width == 1 then b0 else if width == 2 then b0 + 0x100 * b1
        else Joined(k.code[i], k.code[i + 1], k.code[i + 2], k.code[i + 3]))
  {
    hide Sink.Owned;
    var bytes := k.code[a - k.address..a - k.address + width];
    assert bytes[0] == k.code[a - k.address];
  }

  lemma ReadData(k: Case, s: State, mem: Sh4.Memory, a: int, width: int)
    requires Separate(k) && Sink.Confined(k, s) && Holds(k, s, mem) && width in {1, 2, 4}
    requires a % width == 0 && !(width == 4 && a in s.stack) && !(InCode(k, a) && InCode(k, a + width - 1))
    requires Sink.Owned(s.memory, a, width)
    ensures 0 <= a < 0x1_0000_0000 && Sh4.Load(mem, a, width) == Sink.Read(k, s, a, width)
  {
    hide Sh4.Key, Sh4.Load, Sink.InitialMemory, ByteIn, Sh4.Peek, Sink.InWindow, Sink.Confined;
    ConfinedOwned(k, s);
    KeyNext(a);
    LoadBytes(mem, a, width);
    assert width >= 2 ==> Owned(k, a + 1);
    assert width == 4 ==> Owned(k, a + 2) && Owned(k, a + 3);
  }

  lemma StackLoad(mem: Sh4.Memory, a: Word)
    requires a % 4 == 0
    ensures Sh4.Load(mem, a, 4) == Some(Sh4.Peek(mem, Sh4.Key(a)))
  {
    hide Sh4.Key;
  }

  // ---------- stores ----------

  /** The digits a halfword store leaves are those of its value. */
  lemma WriteHalf(k: Case, s: State, mem: Sh4.Memory, at: int, value: Word)
    requires Separate(k) && Sink.Confined(k, s) && Holds(k, s, mem) && Sink.Write(k, s, at, value, 2).Some?
    ensures 0 <= at < 0x1_0000_0000 && at % 2 == 0 && Sh4.Store(mem, at, value, 2).Some?
    ensures Holds(k, Sink.Write(k, s, at, value, 2).value, Sh4.Store(mem, at, value, 2).value)
  {
    hide Sh4.Key, Sh4.Store, Sink.InitialMemory, ByteIn, Sh4.Peek, Sink.InWindow, Sink.Confined;
    assert Owned(k, at) && Owned(k, at + 1) by { ConfinedOwned(k, s); }
    KeyNext(at);
    var after, m := Sink.Write(k, s, at, value, 2).value, Sh4.Store(mem, at, value, 2);
    StoreHalf(mem, at, value, 0);
    forall a: Word | a in after.memory ensures ByteIn(m.value, Sh4.Key(a)) == after.memory[a] {
      ConfinedOwned(k, s);
      StoreHalf(mem, at, value, Sh4.Key(a));
    }
    forall a: Word | InCode(k, a) ensures ByteIn(m.value, Sh4.Key(a)) == k.code[a - k.address] {
      assert Owned(k, a);
      ConfinedOwned(k, s);
      StoreHalf(mem, at, value, Sh4.Key(a));
    }
    forall a: Word | a in after.stack ensures Sh4.Peek(m.value, Sh4.Key(a)) == after.stack[a] {
      StackKept(k, s, mem, at, value, a);
    }
  }

  lemma ConfinedOwned(k: Case, s: State)
    requires Sink.Confined(k, s)
    ensures s.memory.Keys == Sink.InitialMemory(k).Keys
    ensures forall a :: a in s.memory ==> Owned(k, a)
  {
    hide Sink.InitialMemory, Sink.InWindow;
  }

  lemma StackKept(k: Case, s: State, mem: Sh4.Memory, at: Word, value: Word, a: Word)
    requires Separate(k) && Sink.Confined(k, s) && a in s.stack && at in s.memory && at + 1 in s.memory && at % 2 == 0
    requires Sh4.Store(mem, at, value, 2).Some?
    ensures Sh4.Peek(Sh4.Store(mem, at, value, 2).value, Sh4.Key(a)) == Sh4.Peek(mem, Sh4.Key(a))
  {
    hide Sh4.Key, Sh4.Store, Sink.InitialMemory, ByteIn, Sh4.Peek, Sink.InWindow, Joined;
    ConfinedOwned(k, s);
    StackWords(k, s, a);
    KeyAligned(a);
    KeyNext(a);
    KeyNext(at);
    var m := Sh4.Store(mem, at, value, 2).value;
    PeekBytes(mem, Sh4.Key(a));
    PeekBytes(m, Sh4.Key(a));
    assert Owned(k, a) && Owned(k, a + 1) && Owned(k, a + 2) && Owned(k, a + 3);
    StoreHalf(mem, at, value, Sh4.Key(a));
    StoreHalf(mem, at, value, Sh4.Key(a) + 1);
    StoreHalf(mem, at, value, Sh4.Key(a) + 2);
    StoreHalf(mem, at, value, Sh4.Key(a) + 3);
  }

  lemma WriteLong(k: Case, s: State, mem: Sh4.Memory, at: int, value: Word)
    requires Separate(k) && Sink.Confined(k, s) && Holds(k, s, mem) && Sink.Write(k, s, at, value, 4).Some?
    ensures 0 <= at < 0x1_0000_0000 && at % 4 == 0 && Sh4.Store(mem, at, value, 4).Some?
    ensures Holds(k, Sink.Write(k, s, at, value, 4).value, Sh4.Store(mem, at, value, 4).value)
  {
    hide Sh4.Key, Sh4.Store, Sink.InitialMemory, ByteIn, Sh4.Peek, Sink.InWindow, Sink.Confined;
    assert Owned(k, at) && Owned(k, at + 1) && Owned(k, at + 2) && Owned(k, at + 3);
    KeyNext(at);
    var after, m := Sink.Write(k, s, at, value, 4).value, Sh4.Store(mem, at, value, 4);
    StoreLong(mem, at, value, 0);
    forall a: Word | a in after.memory ensures ByteIn(m.value, Sh4.Key(a)) == after.memory[a] {
      ConfinedOwned(k, s);
      StoreLong(mem, at, value, Sh4.Key(a));
    }
    forall a: Word | InCode(k, a) ensures ByteIn(m.value, Sh4.Key(a)) == k.code[a - k.address] {
      assert Owned(k, a);
      StoreLong(mem, at, value, Sh4.Key(a));
    }
    forall a: Word | a in after.stack ensures Sh4.Peek(m.value, Sh4.Key(a)) == after.stack[a] {
      if a != at {
        StackWords(k, s, a);
        assert Owned(k, a);
      }
      LongKept(mem, at, value, a);
    }
  }

  lemma LongKept(mem: Sh4.Memory, at: Word, value: Word, a: Word)
    requires at % 4 == 0
    ensures Sh4.Store(mem, at, value, 4).Some?
    ensures Sh4.Peek(Sh4.Store(mem, at, value, 4).value, Sh4.Key(a)) ==
      if Sh4.Key(a) == Sh4.Key(at) then value else Sh4.Peek(mem, Sh4.Key(a))
  {
    hide Sh4.Key;
  }

  // ---------- instructions that only compute ----------

  /** Loads and stores; everything else computes. */
  predicate Accesses(op: Opcode) {
    || op.top in {8, 9} || (op.top == 6 && op.low in {0, 1, 2, 4, 6}) || Sink.Stores(op)
  }

  /** The machine computes what the interpreter does, and nothing else. */
  ghost predicate Computes(k: Case, op: Opcode, pc: int, s: State, cpu: Cpu) {
    && Sh4.Exec(op, cpu).Running? && Sink.Plain(k, op, pc, s).Some?
    && var c := Sh4.Exec(op, cpu).cpu;
       Registers(Sink.Plain(k, op, pc, s).value, c) && c == cpu.(r := c.r, t := c.t, macl := c.macl)
  }

  lemma Computes0(k: Case, op: Opcode, pc: int, s: State, cpu: Cpu)
    requires op.top == 0 && Registers(s, cpu) && Sink.Plain(k, op, pc, s).Some?
    ensures Computes(k, op, pc, s, cpu)
  {
    hide Sh4.Exec, Wrap, Signed8;
    Sh4.Dispatch0(op, cpu);
  }

  lemma Computes2(k: Case, op: Opcode, pc: int, s: State, cpu: Cpu)
    requires op.top == 2 && !Sink.Stores(op) && Registers(s, cpu) && Sink.Plain(k, op, pc, s).Some?
    ensures Computes(k, op, pc, s, cpu)
  {
    hide Sh4.Exec, And, Or, Wrap;
    Sh4.Dispatch2(op, cpu);
  }

  lemma Computes3(k: Case, op: Opcode, pc: int, s: State, cpu: Cpu)
    requires op.top == 3 && Registers(s, cpu) && Sink.Plain(k, op, pc, s).Some?
    ensures Computes(k, op, pc, s, cpu)
  {
    hide Sh4.Exec, Wrap;
    Sh4.Dispatch3(op, cpu);
  }

  lemma Computes4(k: Case, op: Opcode, pc: int, s: State, cpu: Cpu)
    requires op.top == 4 && Registers(s, cpu) && Sink.Plain(k, op, pc, s).Some?
    ensures Computes(k, op, pc, s, cpu)
  {
    hide Sh4.Exec, Wrap;
    Sh4.Dispatch4(op, cpu);
    OneLess(cpu.r[op.n]);
  }

  lemma OneLess(a: Word)
    ensures Wrap(a - 1) == 0 <==> a == 1
  {
  }

  lemma Computes6(k: Case, op: Opcode, pc: int, s: State, cpu: Cpu)
    requires op.top == 6 && !Accesses(op) && Registers(s, cpu) && Sink.Plain(k, op, pc, s).Some?
    ensures Computes(k, op, pc, s, cpu)
  {
    hide Sh4.Exec, Wrap;
    Sh4.Dispatch6(op, cpu);
  }

  lemma ComputesC(k: Case, op: Opcode, pc: int, s: State, cpu: Cpu)
    requires op.top == 12 && Registers(s, cpu) && Sink.Plain(k, op, pc, s).Some?
    ensures Computes(k, op, pc, s, cpu)
  {
    hide Sh4.Exec, And, Wrap;
    Sh4.DispatchC(op, cpu);
  }

  lemma ComputesImmediate(k: Case, op: Opcode, pc: int, s: State, cpu: Cpu)
    requires op.top in {7, 14} && Registers(s, cpu) && Sink.Plain(k, op, pc, s).Some?
    ensures Computes(k, op, pc, s, cpu)
  {
    hide Sh4.Exec, Wrap, Signed8;
    if op.top == 7 { Sh4.Dispatch7(op, cpu); } else { Sh4.DispatchE(op, cpu); }
  }

  /** Every admitted instruction without an access has the machine's effect on all registers, T and MACL. */
  lemma ComputesAlike(k: Case, op: Opcode, pc: int, s: State, cpu: Cpu)
    requires !Accesses(op) && Registers(s, cpu) && Sink.Plain(k, op, pc, s).Some?
    ensures Computes(k, op, pc, s, cpu)
  {
    hide Computes, Sink.Plain;
    match op.top
    case 0 => Computes0(k, op, pc, s, cpu);
    case 2 => Computes2(k, op, pc, s, cpu);
    case 3 => Computes3(k, op, pc, s, cpu);
    case 4 => Computes4(k, op, pc, s, cpu);
    case 6 => Computes6(k, op, pc, s, cpu);
    case 12 => ComputesC(k, op, pc, s, cpu);
    case _ =>
      AdmittedLead(k, op, pc, s);
      ComputesImmediate(k, op, pc, s, cpu);
  }

  lemma AdmittedLead(k: Case, op: Opcode, pc: int, s: State)
    requires Sink.Plain(k, op, pc, s).Some?
    ensures op.top in {0, 2, 3, 4, 6, 7, 8, 9, 12, 14}
  {
  }

  // ---------- loads and stores ----------

  /** The machine runs the instruction, and the states agree again. */
  ghost predicate Alike(k: Case, op: Opcode, pc: int, s: State, cpu: Cpu) {
    && Sh4.Exec(op, cpu).Running? && Sink.Plain(k, op, pc, s).Some?
    && Same(k, Sink.Plain(k, op, pc, s).value, Sh4.Exec(op, cpu).cpu)
  }

  lemma ExtendSame(v: Word, width: int)
    requires width in {1, 2, 4} && (width == 1 ==> v < 0x100) && (width == 2 ==> v < 0x1_0000)
    ensures Sh4.Extend(v, width) == Sink.Extend(v, width)
  {
    hide Wrap;
    if width == 4 { assert Wrap(v) == v by { WrapIsMod(v); } }
  }

  lemma ReadFits(k: Case, s: State, a: int, width: int)
    requires width in {1, 2} && Sink.Read(k, s, a, width).Some?
    ensures Sink.Read(k, s, a, width).value < if width == 1 then 0x100 else 0x1_0000
  {
    hide Sink.InitialMemory;
  }

  /** A load into a register, wherever its address came from. */
  lemma LoadAlike(k: Case, s: State, cpu: Cpu, n: Nibble, a: int, width: int)
    requires Separate(k) && Same(k, s, cpu) && width in {1, 2, 4} && Sink.Read(k, s, a, width).Some?
    ensures 0 <= a < 0x1_0000_0000 && Sh4.LoadTo(cpu, n, a, width).Running? && Sink.LoadInto(k, s, n, a, width).Some?
    ensures Same(k, Sink.LoadInto(k, s, n, a, width).value, Sh4.LoadTo(cpu, n, a, width).cpu)
  {
    hide Sh4.Key, Sh4.Load, Sink.Read, Sink.Confined, Separate, Holds, Sh4.Extend, Sink.Extend;
    ReadSame(k, s, cpu.mem, a, width);
    if width < 4 { ReadFits(k, s, a, width); }
    var v := Sink.Read(k, s, a, width).value;
    ExtendSame(v, width);
    var after, c := Sink.LoadInto(k, s, n, a, width).value, Sh4.LoadTo(cpu, n, a, width).cpu;
    KeptBeside(k, s, after, cpu.mem);
  }

  /** Registers do not matter to memory. */
  lemma KeptBeside(k: Case, s: State, after: State, mem: Sh4.Memory)
    requires Sink.Confined(k, s) && Holds(k, s, mem)
    requires after == s.(r := after.r, t := after.t, macl := after.macl, pc := after.pc, steps := after.steps)
    ensures Sink.Confined(k, after) && Holds(k, after, mem)
  {
    hide Sink.InitialMemory, ByteIn, Sh4.Key, Sink.OneHalfword;
    Sink.ComputesConfined(k, s, after);
  }

  lemma Load6(k: Case, op: Opcode, pc: int, s: State, cpu: Cpu)
    requires op.top == 6 && op.low in {0, 1, 2} && Separate(k) && Same(k, s, cpu) && Sink.Plain(k, op, pc, s).Some?
    ensures Alike(k, op, pc, s, cpu)
  {
    hide Sh4.Exec, Separate, Same, Sink.LoadInto, Sh4.LoadTo, Sink.Read;
    Sh4.Dispatch6(op, cpu);
    Plainly6(k, op, pc, s);
    var width := if op.low == 0 then 1 else if op.low == 1 then 2 else 4;
    SameRegisters(k, s, cpu);
    Admitted(k, s, op.n, s.r[op.m], width);
    LoadAlike(k, s, cpu, op.n, s.r[op.m], width);
  }

  lemma SameRegisters(k: Case, s: State, cpu: Cpu)
    requires Same(k, s, cpu)
    ensures Registers(s, cpu)
  {
  }

  lemma Admitted(k: Case, s: State, n: Nibble, a: int, width: int)
    requires width in {1, 2, 4} && Sink.LoadInto(k, s, n, a, width).Some?
    ensures Sink.Read(k, s, a, width).Some?
  {
  }

  lemma Plainly6(k: Case, op: Opcode, pc: int, s: State)
    requires op.top == 6
    ensures var width := if op.low % 4 == 0 then 1 else if op.low == 1 then 2 else 4;
      && (op.low in {0, 1, 2} ==> Sink.Plain(k, op, pc, s) == Sink.LoadInto(k, s, op.n, s.r[op.m], width))
      && (op.low in {4, 6} ==> Sink.Plain(k, op, pc, s) == Sink.PopInto(k, s, op.n, op.m, width))
  {
    hide Sink.LoadInto, Sink.PopInto;
  }

  lemma Pop6(k: Case, op: Opcode, pc: int, s: State, cpu: Cpu)
    requires op.top == 6 && op.low in {4, 6} && Separate(k) && Same(k, s, cpu) && Sink.Plain(k, op, pc, s).Some?
    ensures Alike(k, op, pc, s, cpu)
  {
    hide Sh4.Exec, Separate, Same, Sink.LoadInto, Sh4.LoadTo, Sink.Read, Wrap;
    Sh4.Dispatch6(op, cpu);
    Plainly6(k, op, pc, s);
    SameRegisters(k, s, cpu);
    var width := if op.low == 4 then 1 else 4;
    var s1 := if op.n == op.m then s else s.(r := s.r[op.m := Plus(s.r[op.m], width)]);
    var c1 := if op.n == op.m then cpu else Sh4.Put(cpu, op.m, Wrap(cpu.r[op.m] + Sh4.Size(op.low)));
    SameMoved(k, s, cpu, s1, c1);
    PopIsLoad(k, s, s1, op.n, op.m, width);
    LoadAlike(k, s1, c1, op.n, s.r[op.m], width);
  }

  lemma SameMoved(k: Case, s: State, cpu: Cpu, s1: State, c1: Cpu)
    requires Same(k, s, cpu) && s1 == s.(r := s1.r) && c1 == cpu.(r := c1.r) && s1.r == c1.r
    ensures Same(k, s1, c1)
  {
    hide Sink.Confined, Holds;
    KeptBeside(k, s, s1, cpu.mem);
  }

  lemma PopIsLoad(k: Case, s: State, s1: State, n: Nibble, m: Nibble, width: int)
    requires width in {1, 2, 4} && s1 == if n == m then s else s.(r := s.r[m := Plus(s.r[m], width)])
    requires Sink.PopInto(k, s, n, m, width).Some?
    ensures Sink.Read(k, s1, s.r[m], width).Some?
    ensures Sink.PopInto(k, s, n, m, width) == Sink.LoadInto(k, s1, n, s.r[m], width)
  {
    hide Sink.Extend, Plus, Sink.Owned;
  }

  lemma Load8(k: Case, op: Opcode, pc: int, s: State, cpu: Cpu)
    requires op.top == 8 && Separate(k) && Same(k, s, cpu) && Sink.Plain(k, op, pc, s).Some?
    ensures Alike(k, op, pc, s, cpu)
  {
    hide Sh4.Exec, Separate, Same, Sink.LoadInto, Sh4.LoadTo, Sink.Read;
    Sh4.Dispatch8(op, cpu);
    SameRegisters(k, s, cpu);
    var at := s.r[op.m] + op.low;
    assert Sink.Plain(k, op, pc, s) == Sink.LoadInto(k, s, 0, at, 1) && op.n == 4;
    Admitted(k, s, 0, at, 1);
    LoadAlike(k, s, cpu, 0, at, 1);
  }

  /** A push of its own pointer is the one admitted instruction the interpreter runs otherwise. */
  predicate PushesItself(op: Opcode) { op.top == 2 && op.low == 6 && op.n == op.m }

  lemma Store2(k: Case, op: Opcode, pc: int, s: State, cpu: Cpu)
    requires Sink.Stores(op) && op.low != 6 && Separate(k) && Same(k, s, cpu) && Sink.Plain(k, op, pc, s).Some?
    ensures Alike(k, op, pc, s, cpu)
  {
    hide Sh4.Exec, Separate, Holds, Sink.Confined, Sink.Write, Sh4.Store, Sink.Plain;
    Sh4.Dispatch2(op, cpu);
    Sink.PlainStores(k, op, pc, s);
    StoreAlike(k, s, cpu, s.r[op.n], s.r[op.m], if op.low == 0 then 1 else if op.low == 1 then 2 else 4);
  }

  lemma StoreAlike(k: Case, s: State, cpu: Cpu, at: Word, value: Word, width: int)
    requires width in {1, 2, 4} && Separate(k) && Same(k, s, cpu) && Sink.Write(k, s, at, value, width).Some?
    ensures Sh4.StoreFrom(cpu, at, value, width).Running?
    ensures Same(k, Sink.Write(k, s, at, value, width).value, Sh4.StoreFrom(cpu, at, value, width).cpu)
  {
    hide Sh4.Store, Sink.OneHalfword, Sh4.Key, ByteIn, Sink.Confined, Holds, Sink.Write, Separate;
    Sink.StoreConfined(k, s, at, value, width);
    WriteShape(k, s, at, value, width);
    if width == 2 { WriteHalf(k, s, cpu.mem, at, value); } else { WriteLong(k, s, cpu.mem, at, value); }
  }

  lemma WriteShape(k: Case, s: State, at: int, value: nat, width: int)
    requires width in {1, 2, 4} && Sink.Write(k, s, at, value, width).Some?
    ensures var after := Sink.Write(k, s, at, value, width).value;
      width != 1 && after == s.(memory := after.memory, stores := after.stores, stack := after.stack)
  {
    hide Sink.InWindow;
  }

  lemma Push2(k: Case, op: Opcode, pc: int, s: State, cpu: Cpu)
    requires op.top == 2 && op.low == 6 && !PushesItself(op)
    requires Separate(k) && Same(k, s, cpu) && Sink.Plain(k, op, pc, s).Some?
    ensures Alike(k, op, pc, s, cpu)
  {
    hide Sh4.Exec, Separate, Same, Sink.Confined, Sink.Write, Sh4.StoreFrom, Wrap, Sink.Plain;
    Sh4.Dispatch2(op, cpu);
    Sink.PlainStores(k, op, pc, s);
    SameRegisters(k, s, cpu);
    var s1 := s.(r := s.r[op.n := Minus(s.r[op.n], 4)]);
    var c1 := Sh4.Put(cpu, op.n, Minus(cpu.r[op.n], 4));
    SameMoved(k, s, cpu, s1, c1);
    StoreAlike(k, s1, c1, s1.r[op.n], s1.r[op.m], 4);
  }

  /** Every admitted instruction but a push of its own pointer and a literal load runs alike on the machine. */
  lemma InstructionAlike(k: Case, op: Opcode, pc: int, s: State, cpu: Cpu)
    requires Separate(k) && Same(k, s, cpu) && Sink.Plain(k, op, pc, s).Some? && op.top != 9 && !PushesItself(op)
    ensures Alike(k, op, pc, s, cpu)
  {
    hide Sh4.Exec, Separate, Same, Sink.Plain;
    SameRegisters(k, s, cpu);
    if !Accesses(op) {
      ComputesAlike(k, op, pc, s, cpu);
      ComputedSame(k, op, pc, s, cpu);
    } else if op.top == 6 {
      if op.low in {4, 6} { Pop6(k, op, pc, s, cpu); } else { Load6(k, op, pc, s, cpu); }
    } else if op.top == 8 {
      Load8(k, op, pc, s, cpu);
    } else if op.low == 6 {
      Push2(k, op, pc, s, cpu);
    } else {
      Store2(k, op, pc, s, cpu);
    }
  }

  lemma ComputedSame(k: Case, op: Opcode, pc: int, s: State, cpu: Cpu)
    requires !Accesses(op) && Same(k, s, cpu) && Computes(k, op, pc, s, cpu)
    ensures Alike(k, op, pc, s, cpu)
  {
    hide Sh4.Exec, Holds, Sink.Confined, Sink.Plain;
    Sink.PlainComputes(k, op, pc, s);
    KeptBeside(k, s, Sink.Plain(k, op, pc, s).value, cpu.mem);
  }

  // ---------- one turn ----------

  /** The machine's code is the interpreter's. */
  ghost predicate Linked(k: Case, code: Sh4.Code) {
    forall a: Word :: InCode(k, a) ==> Sh4.CodeByte(code, a) == Some(k.code[a - k.address])
  }

  /** A literal load whose literal is part of the code. */
  predicate LiteralInside(k: Case, op: Opcode, pc: int) { op.top == 9 ==> InCode(k, pc + 5 + 2 * op.Imm8()) }

  lemma FetchSame(k: Case, code: Sh4.Code, a: int)
    requires Separate(k) && Linked(k, code) && Sink.Fetch(k, a).Some?
    ensures 0 <= a && a + 1 < 0x1_0000_0000 && InCode(k, a) && InCode(k, a + 1)
    ensures Sh4.Fetch(code, a) == Sink.Fetch(k, a)
  {
    hide Sh4.CodeByte, OpcodeOf, Sink.InitialMemory;
    assert Owned(k, a) && Owned(k, a + 1);
  }

  /** A halfword of code, as the machine and as the interpreter extend it. */
  lemma HalfOf(first: Byte, second: Byte)
    ensures var h, low: int, high: int := OpcodeOf(first, second), first, second;
      Wrap(Signed16(4096 * h.top + h.Disp12())) == Sink.Extend(low + 0x100 * high, 2)
  {
    hide Wrap, Opcode.Disp12;
    HalfDigits(first, second);
  }

  lemma HalfDigits(first: Byte, second: Byte)
    ensures var h := OpcodeOf(first, second); 4096 * h.top + h.Disp12() == first + 0x100 * second
  {
  }

  lemma CodeRead(k: Case, s: State, a: int)
    requires InCode(k, a) && InCode(k, a + 1) && Sink.Read(k, s, a, 2).Some?
    ensures Sink.Fetch(k, a) == Some(OpcodeOf(k.code[a - k.address], k.code[a + 1 - k.address]))
    ensures var low: int, high: int := k.code[a - k.address], k.code[a + 1 - k.address];
      Sink.Read(k, s, a, 2) == Some(low + 0x100 * high)
  {
    hide OpcodeOf, Sink.Owned;
    var bytes := k.code[a - k.address..a - k.address + 2];
    assert bytes[0] == k.code[a - k.address] && bytes[1] == k.code[a + 1 - k.address];
  }

  lemma LiteralAlike(k: Case, code: Sh4.Code, op: Opcode, pc: int, s: State, cpu: Cpu)
    requires op.top == 9 && Separate(k) && Linked(k, code) && Same(k, s, cpu) && Sink.Plain(k, op, pc, s).Some?
    requires InCode(k, pc) && LiteralInside(k, op, pc)
    ensures Sh4.Plain(code, op, pc, cpu).Running?
    ensures Same(k, Sink.Plain(k, op, pc, s).value, Sh4.Plain(code, op, pc, cpu).cpu)
  {
    hide Sh4.Fetch, Sink.Fetch, Sink.Confined, Separate, Holds, Linked, Wrap, OpcodeOf, Sh4.Plain, Sink.Plain, Signed16,
      Opcode.Disp12, Opcode.Imm8, Sink.Read, Sink.Extend;
    var a := pc + 4 + 2 * op.Imm8();
    LiteralLoads(k, op, pc, s);
    LiteralPlaces(k, op, pc);
    CodeRead(k, s, a);
    FetchSame(k, code, a);
    HalfOf(k.code[a - k.address], k.code[a + 1 - k.address]);
    Sh4.HalfLoad(code, op, pc, cpu, Sink.Fetch(k, a).value);
    KeptBeside(k, s, Sink.Plain(k, op, pc, s).value, cpu.mem);
  }

  lemma LiteralLoads(k: Case, op: Opcode, pc: int, s: State)
    requires op.top == 9 && Sink.Plain(k, op, pc, s).Some?
    ensures Sink.Plain(k, op, pc, s) == Sink.LoadInto(k, s, op.n, pc + 4 + 2 * op.Imm8(), 2)
    ensures Sink.Read(k, s, pc + 4 + 2 * op.Imm8(), 2).Some?
  {
    hide Sink.LoadInto, Sink.Plain;
    LiteralPlain(k, op, pc, s);
    Admitted(k, s, op.n, pc + 4 + 2 * op.Imm8(), 2);
  }

  lemma LiteralPlain(k: Case, op: Opcode, pc: int, s: State)
    requires op.top == 9
    ensures Sink.Plain(k, op, pc, s) == Sink.LoadInto(k, s, op.n, pc + 4 + 2 * op.Imm8(), 2)
  {
    hide Sink.LoadInto, Wrap, And, Or, Signed8, Sink.PopInto, Sink.PushInto, Sink.Write, Opcode.Imm8;
  }

  lemma LiteralPlaces(k: Case, op: Opcode, pc: int)
    requires op.top == 9 && InCode(k, pc) && LiteralInside(k, op, pc)
    ensures InCode(k, pc + 4 + 2 * op.Imm8()) && InCode(k, pc + 4 + 2 * op.Imm8() + 1)
  {
  }

  /** An instruction outside control flow, the literal load included. */
  lemma PlainAlike(k: Case, code: Sh4.Code, op: Opcode, pc: int, s: State, cpu: Cpu)
    requires Separate(k) && Linked(k, code) && Same(k, s, cpu) && Sink.Plain(k, op, pc, s).Some?
    requires InCode(k, pc) && LiteralInside(k, op, pc) && !PushesItself(op)
    ensures !Branches(op) && (op.top != 9 ==> !SlotIllegal(op) && Sh4.Plain(code, op, pc, cpu) == Sh4.Exec(op, cpu))
    ensures Sh4.Plain(code, op, pc, cpu).Running?
    ensures Same(k, Sink.Plain(k, op, pc, s).value, Sh4.Plain(code, op, pc, cpu).cpu)
  {
    hide Sh4.Exec, Separate, Linked, Same, Sink.Plain, Sh4.Plain;
    AdmittedLegal(k, op, pc, s);
    if op.top == 9 {
      LiteralAlike(k, code, op, pc, s, cpu);
    } else {
      NoLiteral(code, op, pc, cpu);
      InstructionAlike(k, op, pc, s, cpu);
    }
  }

  lemma NoLiteral(code: Sh4.Code, op: Opcode, pc: int, cpu: Cpu)
    requires !PcRelative(op)
    ensures Sh4.Plain(code, op, pc, cpu) == Sh4.Exec(op, cpu)
  {
    hide Sh4.Exec;
  }

  lemma AdmittedLegal(k: Case, op: Opcode, pc: int, s: State)
    requires Sink.Plain(k, op, pc, s).Some?
    ensures !Branches(op) && (op.top != 9 ==> !SlotIllegal(op) && !PcRelative(op))
  {
    hide Sink.LoadInto, Sink.PopInto, Sink.PushInto, Sink.Write, Wrap, And, Or, Signed8;
  }

  /** What the interpreter runs as the machine does: no push of its own pointer, every literal inside the code,
      and no literal load in a slot, where the machine raises an exception. */
  predicate Regular(k: Case, pc: int) {
    var op := Sink.Fetch(k, pc);
    op.Some? ==>
      && !PushesItself(op.value) && LiteralInside(k, op.value, pc)
      && (DelayedBranch(op.value) ==>
            var slot := Sink.Fetch(k, pc + 2); slot.Some? ==> slot.value.top != 9 && !PushesItself(slot.value))
  }

  /** Interpreter and machine, at the same place. */
  ghost predicate Abreast(k: Case, s: State, m: Sh4.State) { m.pc == s.pc && Same(k, s, m.cpu) }

  lemma SameCounted(k: Case, s: State, after: State, cpu: Cpu)
    requires Same(k, s, cpu) && after == s.(pc := after.pc, steps := after.steps)
    ensures Same(k, after, cpu)
  {
    hide Sink.Confined, Holds;
    KeptBeside(k, s, after, cpu.mem);
  }

  lemma SlotAlike(k: Case, code: Sh4.Code, pc: int, op: Opcode, s: State, cpu: Cpu)
    requires Separate(k) && Linked(k, code) && Same(k, s, cpu) && Sink.Slot(k, pc, s).Some? && 0 <= pc < 0x1_0000_0000
    requires Regular(k, pc) && Sink.Fetch(k, pc) == Some(op) && DelayedBranch(op)
    ensures Sh4.RunSlot(code, op, pc, cpu).Running?
    ensures Same(k, Sink.Slot(k, pc, s).value, Sh4.RunSlot(code, op, pc, cpu).cpu)
  {
    hide Sh4.Exec, Separate, Linked, Same, Sink.Plain, Sh4.Plain, Sink.Fetch, Sh4.Fetch, DelayedBranch, SlotIllegal;
    FetchSame(k, code, pc + 2);
    var slot := Sink.Fetch(k, pc + 2).value;
    PlainAlike(k, code, slot, pc + 2, s, cpu);
    SameCounted(k, Sink.Plain(k, slot, pc + 2, s).value, Sink.Slot(k, pc, s).value, Sh4.Exec(slot, cpu).cpu);
  }

  /** One turn of the interpreter is one step of the machine. */
  lemma StepAlike(k: Case, code: Sh4.Code, s: State, m: Sh4.State)
    requires Separate(k) && Linked(k, code) && Abreast(k, s, m) && Regular(k, s.pc)
    requires Sink.Step(k, s).Some? && 0 <= Sink.Step(k, s).value.pc < 0x1_0000_0000
    ensures Sh4.Step(code, m).Some? && Abreast(k, Sink.Step(k, s).value, Sh4.Step(code, m).value)
  {
    hide Separate, Linked, Same, Sink.Plain, Sink.Fetch, Sh4.Fetch, Sink.Slot, Sh4.Step, Regular, Signed8;
    var op := Sink.Fetch(k, s.pc).value;
    FetchSame(k, code, s.pc);
    if op == Opcode(0, 0, 0, 11) || op.top == 10 || (ShortBranch(op) && op.n in {13, 15}) {
      JumpStep(k, code, s, m, op);
    } else if ShortBranch(op) {
      ShortStep(k, code, s, m, op);
    } else {
      PlainStep(k, code, s, m, op);
    }
  }

  lemma JumpStep(k: Case, code: Sh4.Code, s: State, m: Sh4.State, op: Opcode)
    requires Separate(k) && Linked(k, code) && Abreast(k, s, m) && Regular(k, s.pc) && Sink.Fetch(k, s.pc) == Some(op)
    requires op == Opcode(0, 0, 0, 11) || op.top == 10 || (op.top == 8 && op.n in {13, 15})
    requires Sh4.Fetch(code, s.pc) == Some(op)
    requires Sink.Step(k, s).Some? && 0 <= Sink.Step(k, s).value.pc < 0x1_0000_0000
    ensures Sh4.Step(code, m).Some? && Abreast(k, Sink.Step(k, s).value, Sh4.Step(code, m).value)
  {
    hide Separate, Linked, Same, Sink.Plain, Sh4.Plain, Sink.Fetch, Sh4.Fetch, Sink.Slot, Sh4.RunSlot, Regular,
      Sink.Step, Sh4.Step, Signed8;
    var counted, after := s.(steps := s.steps + 1), Sink.Step(k, s).value;
    SameCounted(k, s, counted, m.cpu);
    JumpPlace(k, s, m.cpu, op);
    JumpTaken(code, m, op);
    SlotAlike(k, code, s.pc, op, counted, m.cpu);
    SameCounted(k, Sink.Slot(k, s.pc, counted).value, after, Sh4.RunSlot(code, op, s.pc, m.cpu).cpu);
  }

  /** Where the interpreter goes from a delayed branch is the machine's target. */
  lemma JumpPlace(k: Case, s: State, cpu: Cpu, op: Opcode)
    requires Same(k, s, cpu) && Sink.Fetch(k, s.pc) == Some(op) && 0 <= s.pc < 0x1_0000_0000
    requires op == Opcode(0, 0, 0, 11) || op.top == 10 || (op.top == 8 && op.n in {13, 15})
    requires Sink.Step(k, s).Some? && 0 <= Sink.Step(k, s).value.pc < 0x1_0000_0000
    ensures Branches(op) && DelayedBranch(op) && Sh4.Target(op, s.pc, cpu) == Some(Sink.Step(k, s).value.pc)
    ensures Sink.Slot(k, s.pc, s.(steps := s.steps + 1)).Some?
    ensures var slot, after := Sink.Slot(k, s.pc, s.(steps := s.steps + 1)).value, Sink.Step(k, s).value;
      after == slot.(pc := after.pc)
  {
    hide Same, Sink.Fetch, Sink.Slot, Signed8, Wrap;
    SameRegisters(k, s, cpu);
    WrapIsMod(Sink.Step(k, s).value.pc);
  }

  lemma JumpTaken(code: Sh4.Code, m: Sh4.State, op: Opcode)
    requires Sh4.Fetch(code, m.pc) == Some(op) && Branches(op)
    requires op == Opcode(0, 0, 0, 11) || op.top == 10 || (op.top == 8 && op.n in {13, 15})
    ensures var target := Sh4.Target(op, m.pc, m.cpu);
      target.Some? && Sh4.Step(code, m) == Sh4.Arrive(target.value, Sh4.RunSlot(code, op, m.pc, m.cpu))
  {
    hide Sh4.Fetch, Sh4.RunSlot, Wrap, Signed8, Sh4.Plain;
  }

  lemma ShortStep(k: Case, code: Sh4.Code, s: State, m: Sh4.State, op: Opcode)
    requires Abreast(k, s, m) && Sink.Fetch(k, s.pc) == Some(op) && op.top == 8 && op.n in {9, 11}
    requires Sh4.Fetch(code, s.pc) == Some(op)
    requires Sink.Step(k, s).Some? && 0 <= Sink.Step(k, s).value.pc < 0x1_0000_0000
    ensures Sh4.Step(code, m).Some? && Abreast(k, Sink.Step(k, s).value, Sh4.Step(code, m).value)
  {
    hide Same, Sink.Plain, Sh4.Step, Sink.Fetch, Sh4.Fetch, Sink.Slot, Signed8, Wrap;
    SameRegisters(k, s, m.cpu);
    var after := Sink.Step(k, s).value;
    WrapIsMod(after.pc);
    SameCounted(k, s, after, m.cpu);
    Sh4.StepShort(code, m, op);
  }

  lemma PlainStep(k: Case, code: Sh4.Code, s: State, m: Sh4.State, op: Opcode)
    requires Separate(k) && Linked(k, code) && Abreast(k, s, m) && Regular(k, s.pc) && Sink.Fetch(k, s.pc) == Some(op)
    requires op != Opcode(0, 0, 0, 11) && op.top != 10 && !ShortBranch(op) && Sh4.Fetch(code, s.pc) == Some(op)
    requires InCode(k, s.pc) && Sink.Step(k, s).Some? && 0 <= Sink.Step(k, s).value.pc < 0x1_0000_0000
    ensures Sh4.Step(code, m).Some? && Abreast(k, Sink.Step(k, s).value, Sh4.Step(code, m).value)
  {
    hide Separate, Linked, Same, Sink.Plain, Sh4.Plain, Sink.Fetch, Sh4.Fetch, Sink.Slot, Sh4.Step, Wrap, Regular;
    var counted := s.(steps := s.steps + 1);
    SameCounted(k, s, counted, m.cpu);
    var after := Sink.Step(k, s).value;
    WrapIsMod(after.pc);
    RegularPlain(k, s.pc, op);
    PlainAlike(k, code, op, s.pc, counted, m.cpu);
    Sh4.StepPlain(code, m, op);
    SameCounted(k, Sink.Plain(k, op, s.pc, counted).value, after, Sh4.Plain(code, op, s.pc, m.cpu).cpu);
  }

  lemma RegularPlain(k: Case, pc: int, op: Opcode)
    requires Regular(k, pc) && Sink.Fetch(k, pc) == Some(op)
    ensures !PushesItself(op) && LiteralInside(k, op, pc)
  {
  }

  // ---------- whole runs ----------

  ghost predicate RegularCode(k: Case) {
    forall pc {:trigger Regular(k, pc)} :: (pc - k.address) % 2 == 0 ==> Regular(k, pc)
  }

  predicate InStride(k: Case, s: State) { s.pc == Sink.RETURN || (s.pc - k.address) % 2 == 0 }

  lemma StepStrides(k: Case, s: State)
    requires Sink.Step(k, s).Some? && (s.pc - k.address) % 2 == 0
    ensures InStride(k, Sink.Step(k, s).value)
  {
    hide Sink.Plain, Sink.Fetch, Sink.Slot, Signed8;
  }

  lemma FinishPlace(k: Case, s: State)
    requires Separate(k) && Sink.Finish(k, s).Some?
    ensures 0 <= s.pc < 0x1_0000_0000
    ensures s.pc != Sink.RETURN ==> Sink.Step(k, s).Some? && Sink.Finish(k, Sink.Step(k, s).value) == Sink.Finish(k, s)
  {
    hide Sink.Plain, Sink.Slot, Signed8, Sink.InitialMemory;
    if s.pc != Sink.RETURN {
      assert Sink.Fetch(k, s.pc).Some?;
      assert Owned(k, s.pc);
    }
  }

  /** Whatever the interpreter finishes, the machine finishes, with the same registers and memory. */
  lemma {:induction false} RunAlike(k: Case, code: Sh4.Code, s: State, m: Sh4.State) returns (final: Sh4.State)
    requires Separate(k) && Linked(k, code) && RegularCode(k) && Abreast(k, s, m) && InStride(k, s)
    requires Sink.Finish(k, s).Some?
    ensures Sh4.Reaches(code, m, final) && Abreast(k, Sink.Finish(k, s).value, final) && final.pc == Sink.RETURN
    decreases Sink.STEP_LIMIT - s.steps
  {
    hide Separate, Linked, Same, Sink.Step, Sh4.Step, Sh4.Reaches, Regular;
    FinishPlace(k, s);
    if s.pc == Sink.RETURN {
      final := m;
      Sh4.ReachesSelf(code, m);
    } else {
      var next := Sink.Step(k, s).value;
      FinishPlace(k, next);
      assert Regular(k, s.pc);
      StepAlike(k, code, s, m);
      StepStrides(k, s);
      Sink.StepCounts(k, s);
      var further := Sh4.Step(code, m).value;
      Sh4.ReachesStep(code, m, further);
      final := RunAlike(k, code, next, further);
      Sh4.ReachesCompose(code, m, further, final);
    }
  }

  /** An accepted routine copies on the machine: from any state that agrees with the initial one it comes back to
      its caller with r8-r15 kept, the destination equal to the untouched source and nothing else changed. */
  lemma AcceptedExecutes(k: Case, code: Sh4.Code, m: Sh4.State) returns (final: Sh4.State)
    requires Separate(k) && Linked(k, code) && RegularCode(k) && Sink.Apart(k) && Abreast(k, Sink.Initial(k), m)
    requires Sink.Finish(k, Sink.Initial(k)).Some? && Sink.Accepted(k, Sink.Finish(k, Sink.Initial(k)).value)
    ensures Sh4.Reaches(code, m, final) && final.pc == Sink.RETURN && final.cpu.r[8..] == m.cpu.r[8..]
    ensures forall i :: 0 <= i < k.count ==> ByteMoved(k, m.cpu.mem, final.cpu.mem, i)
    ensures forall a: Word :: InMemory(k, a) && !(k.destination <= a < k.destination + k.count) ==>
      ByteIn(final.cpu.mem, Sh4.Key(a)) == ByteIn(m.cpu.mem, Sh4.Key(a))
  {
    hide Separate, Linked, RegularCode, Sink.Step, Sink.Accepted, Sink.Apart, Sh4.Reaches, Sink.Confined,
      Sink.InitialMemory, ByteIn, Sh4.Key, Sink.Finish;
    var start, end := Sink.Initial(k), Sink.Finish(k, Sink.Initial(k)).value;
    final := RunAlike(k, code, start, m);
    Sink.AcceptedCopies(k, end);
    MemoryPlaces(k);
    forall i | 0 <= i < k.count ensures ByteMoved(k, m.cpu.mem, final.cpu.mem, i) {
      assert Sink.ByteCopied(k, end, i);
      Sink.InitialConfined(k);
      Sink.SourceKept(k, start, i);
    }
  }

  /** The destination's byte is what the source's was. */
  ghost predicate ByteMoved(k: Case, before: Sh4.Memory, after: Sh4.Memory, i: nat) {
    && InMemory(k, k.destination + i) && InMemory(k, k.source + i)
    && ByteIn(after, Sh4.Key(k.destination + i)) == ByteIn(before, Sh4.Key(k.source + i))
  }

  predicate InMemory(k: Case, a: int) { 0 <= a < 0x1_0000_0000 && a in Sink.InitialMemory(k) }

  lemma MemoryPlaces(k: Case)
    requires Separate(k)
    ensures forall a :: a in Sink.InitialMemory(k) ==> InMemory(k, a)
  {
    hide Sink.InitialMemory;
    forall a | a in Sink.InitialMemory(k) ensures InMemory(k, a) { assert Owned(k, a); }
  }

  // ---------- where the interpreter is not the machine ----------

  /** The interpreter runs a literal load in a slot; the machine raises an exception. */
  lemma SlotLiteralFaults(k: Case, code: Sh4.Code, s: State, m: Sh4.State)
    requires Separate(k) && Linked(k, code) && m.pc == s.pc && Sink.Fetch(k, s.pc).Some?
    requires DelayedBranch(Sink.Fetch(k, s.pc).value)
    requires Sink.Fetch(k, s.pc + 2).Some? && Sink.Fetch(k, s.pc + 2).value.top == 9
    ensures Sh4.Step(code, m).None?
  {
    hide Sh4.Exec, Separate, Linked, Sink.Fetch, Sh4.Fetch, Sh4.Plain, DelayedBranch, Sh4.Target;
    FetchSame(k, code, s.pc);
    FetchSame(k, code, s.pc + 2);
    DelayedBranches(Sink.Fetch(k, s.pc).value);
  }

  lemma DelayedBranches(op: Opcode)
    requires DelayedBranch(op)
    ensures Branches(op)
  {
  }

  /** The interpreter pushes the pointer as moved, the machine as it was. */
  lemma SelfPushDiffers(k: Case, op: Opcode, pc: int, s: State, cpu: Cpu)
    requires Separate(k) && PushesItself(op) && Same(k, s, cpu) && Sink.Plain(k, op, pc, s).Some?
    ensures !Alike(k, op, pc, s, cpu)
    ensures var at := Minus(cpu.r[op.n], 4);
      && Sink.Plain(k, op, pc, s).value.stack == s.stack[at := at]
      && Sh4.Exec(op, cpu).Running? && Sh4.Peek(Sh4.Exec(op, cpu).cpu.mem, Sh4.Key(at)) == cpu.r[op.n] != at
  {
    hide Sh4.Exec, Sink.Confined, Sink.Plain, Separate, Wrap, Sh4.Key;
    Sh4.Dispatch2(op, cpu);
    Sink.PlainStores(k, op, pc, s);
    var at := Minus(s.r[op.n], 4);
    OtherValue(cpu.r[op.n]);
    LongKept(cpu.mem, at, cpu.r[op.n], at);
  }

  /** That is the only one: every other admitted instruction but a literal load runs alike. */
  lemma InstructionExactly(k: Case, op: Opcode, pc: int, s: State, cpu: Cpu)
    requires Separate(k) && Same(k, s, cpu) && Sink.Plain(k, op, pc, s).Some? && op.top != 9
    ensures Alike(k, op, pc, s, cpu) <==> !PushesItself(op)
  {
    hide Separate, Same, Sink.Plain, Alike;
    if PushesItself(op) { SelfPushDiffers(k, op, pc, s, cpu); } else { InstructionAlike(k, op, pc, s, cpu); }
  }

  /** The interpreter admits such a push in the first instruction of any case. */
  lemma SelfPushAdmitted(k: Case)
    ensures Sink.Plain(k, Opcode(2, 15, 15, 6), k.address, Sink.Initial(k)).Some?
    ensures PushesItself(Opcode(2, 15, 15, 6))
  {
    hide Sink.InitialMemory;
  }

  lemma OtherValue(a: Word)
    ensures Minus(a, 4) != a
  {
    hide Wrap;
    WrapIsMod(a - 4);
  }
}
