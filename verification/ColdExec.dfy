/** The installer's instruction dispatch against the SH-4 machine: wherever both decide, they leave the same
    registers, SR, PR and MACL, and branch to the same place. */
module ColdExec {
  import opened Words
  import opened Opcodes
  import opened ColdCpu
  import opened ColdWatch
  import opened ScanBlocks
  import Sh4

  type Cpu = Sh4.Cpu

  predicate Alike(c: Core, cpu: Cpu) {
    c.r == cpu.r && c.sr == Sh4.Sr(cpu) && c.pr == cpu.pr && c.macl == cpu.macl
  }

  /** Where both can load, they load the same. */
  ghost predicate LoadsAlike(c: Core, cpu: Cpu) {
    forall a: Word, size: int {:trigger Sh4.Load(cpu.mem, a, size)} :: size in {1, 2, 4} ==>
      Read(c, a, size).Some? && Sh4.Load(cpu.mem, a, size).Some? ==>
        Read(c, a, size).value == Sh4.Load(cpu.mem, a, size).value
  }

  /** If the machine runs the instruction, it leaves this state. */
  predicate Leaves(outcome: Sh4.Outcome, after: Option<Core>) {
    outcome.Running? && after.Some? ==> Alike(after.value, outcome.cpu)
  }

  // ---------- parts ----------

  lemma FlagAlike(c: Core, cpu: Cpu, value: bool)
    requires Alike(c, cpu)
    ensures Alike(Flag(c, value), Sh4.SetT(cpu, value)) && c.sr % 2 == Sh4.TBit(cpu)
  {
  }

  lemma RegisterAlike(c: Core, cpu: Cpu, n: Nibble, value: Word)
    requires Alike(c, cpu)
    ensures Reg(c, n, value).Some? && Alike(Reg(c, n, value).value, Sh4.Put(cpu, n, value))
  {
  }

  /** Addresses count modulo 2^32. */
  lemma ReadWraps(c: Core, a: int, size: int)
    requires size in {1, 2, 4}
    ensures Read(c, a, size) == Read(c, Wrap(a), size)
  {
    hide Wrap, Physical, Gather;
    PhysicalWrap(a);
    WrapIsMod(a);
    WrapIsMod(Wrap(a));
  }

  lemma ReadFits(c: Core, a: int, size: int)
    requires size in {1, 2} && Read(c, a, size).Some?
    ensures Read(c, a, size).value < if size == 1 then 0x100 else 0x1_0000
  {
    hide Physical, Wrap, InRam;
  }

  lemma ExtendAlike(v: Word, size: int)
    requires size in {1, 2, 4} && (size == 1 ==> v < 0x100) && (size == 2 ==> v < 0x1_0000)
    ensures Sh4.Extend(v, size) == if size == 4 then v else Wrap(Signed(v, Bits(size)))
  {
    hide Wrap;
  }

  lemma LoadAlike(c: Core, cpu: Cpu, n: Nibble, a: int, size: int)
    requires size in {1, 2, 4} && Alike(c, cpu) && LoadsAlike(c, cpu)
    ensures Leaves(Sh4.LoadTo(cpu, n, Wrap(a), size), LoadInto(c, n, a, size))
  {
    hide Wrap, Read, Signed, Sh4.Load, Sh4.Extend, Sh4.Sr;
    ReadWraps(c, a, size);
    if Read(c, a, size).Some? && Sh4.Load(cpu.mem, Wrap(a), size).Some? {
      var v := Sh4.Load(cpu.mem, Wrap(a), size).value;
      assert Read(c, a, size).value == v;
      if size < 4 { ReadFits(c, a, size); }
      ExtendAlike(v, size);
      RegisterAlike(c, cpu, n, Sh4.Extend(v, size));
    }
  }

  lemma PopAlike(c: Core, cpu: Cpu, n: Nibble, m: Nibble, size: int)
    requires size in {1, 2, 4} && Alike(c, cpu) && LoadsAlike(c, cpu)
    ensures Leaves(
      Sh4.LoadTo(if n == m then cpu else Sh4.Put(cpu, m, Wrap(cpu.r[m] + size)), n, cpu.r[m], size),
      PopInto(c, n, m, size))
  {
    hide Wrap, Read, Signed, Sh4.Load, Sh4.Extend, Sh4.Sr;
    var c1 := if n == m then c else c.(r := c.r[m := Plus(c.r[m], size)]);
    var cpu1 := if n == m then cpu else Sh4.Put(cpu, m, Wrap(cpu.r[m] + size));
    SameReads(c, c1, cpu, cpu1);
    var a: int := c.r[m];
    assert Wrap(a) == cpu.r[m] by { WrapIsMod(a); }
    LoadAlike(c1, cpu1, n, a, size);
    assert Read(c1, a, size) == Read(c, a, size) by { ReadBeside(c, c1.r, a, size); }
  }

  lemma SameReads(c: Core, c1: Core, cpu: Cpu, cpu1: Cpu)
    requires Alike(c, cpu) && LoadsAlike(c, cpu) && c1 == c.(r := c1.r) && cpu1 == cpu.(r := cpu1.r) && c1.r == cpu1.r
    ensures Alike(c1, cpu1) && LoadsAlike(c1, cpu1)
  {
    hide Read, Sh4.Load;
    forall a: Word, size: int {:trigger Sh4.Load(cpu1.mem, a, size)} | size in {1, 2, 4}
      ensures Read(c1, a, size) == Read(c, a, size)
    {
      ReadBeside(c, c1.r, a, size);
    }
  }

  lemma ReadBeside(c: Core, r: Registers, a: int, size: int)
    requires size in {1, 2, 4}
    ensures Read(c.(r := r), a, size) == Read(c, a, size)
  {
  }

  lemma WriteAlike(env: Profile, c: Core, cpu: Cpu, byAllocator: bool, at: int, to: Word, value: nat, stored: Word,
    size: int)
    requires size in {1, 2, 4} && Alike(c, cpu)
    ensures Leaves(Sh4.StoreFrom(cpu, to, stored, size), Write(env, c, byAllocator, at, value, size))
  {
    hide Wrap, Physical, Read, InRam, Sh4.Store, Scatter;
  }

  lemma PushAlike(env: Profile, c: Core, cpu: Cpu, byAllocator: bool, n: Nibble, value: nat, stored: Word)
    requires Alike(c, cpu)
    ensures Leaves(Sh4.PushTo(cpu, n, stored, 4), PushFrom(env, c, byAllocator, n, value))
  {
    hide Wrap, Write, Sh4.StoreFrom;
    var at := Minus(c.r[n], 4);
    WriteAlike(env, c.(r := c.r[n := at]), Sh4.Put(cpu, n, at), byAllocator, at, at, value, stored, 4);
  }

  // ---------- by leading digit ----------

  /** LDC to SR that selects the other register bank: the dispatch does not exchange r0-r7. */
  predicate SwitchesBank(op: Opcode, cpu: Cpu) {
    op.top == 4 && op.Imm8() == 0x0e && Sh4.BankSelected(cpu.r[op.n] / 2) != Sh4.BankSelected(cpu.upper)
  }

  lemma Alike0(env: Profile, op: Opcode, pc: int, c: Core, byAllocator: bool, cpu: Cpu)
    requires op.top == 0 && Alike(c, cpu) && LoadsAlike(c, cpu)
    ensures Leaves(Sh4.Exec(op, cpu), Effect(env, op, pc, c, byAllocator))
  {
    hide Sh4.Exec, Sh4.Exec0, Effect, LoadsAlike, Leaves;
    Sh4.Dispatch0(op, cpu);
    if op.low in {5, 13, 14} { Memory0(env, op, pc, c, byAllocator, cpu); }
    else if op.low in {7, 9, 10} { Move0(env, op, pc, c, byAllocator, cpu); }
    else { Control0(env, op, pc, c, byAllocator, cpu); }
  }

  lemma Memory0(env: Profile, op: Opcode, pc: int, c: Core, byAllocator: bool, cpu: Cpu)
    requires op.top == 0 && op.low in {5, 13, 14} && Alike(c, cpu) && LoadsAlike(c, cpu)
    ensures Leaves(Sh4.Exec0(op, cpu), Effect(env, op, pc, c, byAllocator))
  {
    hide Wrap, Write, Read, LoadInto, Sh4.LoadTo, Sh4.StoreFrom, LoadsAlike, Leaves, Sh4.Accumulate, Effect;
    var z: int, a: int, b: int := cpu.r[0], cpu.r[op.n], cpu.r[op.m];
    Indexed(env, op, pc, c, byAllocator);
    if op.low == 5 {
      WriteAlike(env, c, cpu, byAllocator, Plus(z, a), Plus(z, a), c.r[op.m], cpu.r[op.m], 2);
    } else {
      WrapTwice(z + b);
      LoadAlike(c, cpu, op.n, Plus(z, b), if op.low == 14 then 4 else 2);
    }
  }

  lemma Indexed(env: Profile, op: Opcode, pc: int, c: Core, byAllocator: bool)
    requires op.top == 0
    ensures var effect := Effect(env, op, pc, c, byAllocator);
      && (op.low == 5 ==> effect == Write(env, c, byAllocator, Plus(c.r[0], c.r[op.n]), c.r[op.m], 2))
      && (op.low == 13 ==> effect == LoadInto(c, op.n, Plus(c.r[0], c.r[op.m]), 2))
      && (op.low == 14 ==> effect == LoadInto(c, op.n, Plus(c.r[0], c.r[op.m]), 4))
  {
    hide Wrap, Write, Read, LoadInto;
  }

  lemma Move0(env: Profile, op: Opcode, pc: int, c: Core, byAllocator: bool, cpu: Cpu)
    requires op.top == 0 && op.low in {7, 9, 10} && Alike(c, cpu)
    ensures Leaves(Sh4.Exec0(op, cpu), Effect(env, op, pc, c, byAllocator))
  {
    hide Wrap, Write, Read, LoadInto, Sh4.LoadTo, Sh4.StoreFrom, Sh4.Accumulate, Sh4.WithSrBit, Sh4.Put, Reg, Purge;
    RegisterAlike(c, cpu, op.n, Sh4.TBit(cpu));
    RegisterAlike(c, cpu, op.n, cpu.macl);
    FlagAlike(c, cpu, false);
  }

  lemma Control0(env: Profile, op: Opcode, pc: int, c: Core, byAllocator: bool, cpu: Cpu)
    requires op.top == 0 && op.low !in {5, 7, 9, 10, 13, 14} && Alike(c, cpu)
    ensures Leaves(Sh4.Exec0(op, cpu), Effect(env, op, pc, c, byAllocator))
  {
    hide Wrap, Write, Read, LoadInto, Sh4.LoadTo, Sh4.StoreFrom, Sh4.Accumulate, Sh4.WithSrBit, Sh4.Put, Reg, RawRead,
      Flag, Sh4.SetT, Alike, Purge;
    if op.low == 2 { RegisterAlike(c, cpu, op.n, Sh4.Sr(cpu)); StatusAlike(c, cpu); }
    else if op.low == 3 { PurgeAlike(env, c, cpu, c.r[op.n], cpu.purged + [cpu.r[op.n]]); }
    else if op.low == 8 {
      FlagAlike(c, cpu, false);
      FlagAlike(c, cpu, true);
    }
  }

  lemma StatusAlike(c: Core, cpu: Cpu)
    requires Alike(c, cpu)
    ensures c.sr == Sh4.Sr(cpu)
  {
  }

  lemma PurgeAlike(env: Profile, c: Core, cpu: Cpu, address: nat, purged: seq<Word>)
    requires Alike(c, cpu)
    ensures Purge(env, c, address).Some? ==> Alike(Purge(env, c, address).value, cpu.(purged := purged))
  {
    hide RawRead;
  }

  lemma WrapTwice(x: int)
    ensures Wrap(Wrap(x)) == Wrap(x)
  {
    hide Wrap;
    WrapIsMod(x);
    WrapIsMod(Wrap(x));
  }

  lemma Alike2(env: Profile, op: Opcode, pc: int, c: Core, byAllocator: bool, cpu: Cpu)
    requires op.top == 2 && Alike(c, cpu)
    ensures Leaves(Sh4.Exec(op, cpu), Effect(env, op, pc, c, byAllocator))
  {
    hide Sh4.Exec, Wrap, Write, Read, PushFrom, Sh4.PushTo, Sh4.StoreFrom, Sh4.WithSrBit, And, Or, Xor, Reg, Flag,
      Sh4.Put, Sh4.SetT, Alike;
    Sh4.Dispatch2(op, cpu);
    var a, b := cpu.r[op.n], cpu.r[op.m];
    assert c.r == cpu.r by { SameRegisters(c, cpu); }
    if op.low in {0, 1, 2} {
      WriteAlike(env, c, cpu, byAllocator, c.r[op.n], a, c.r[op.m], b, Sh4.Size(op.low));
    } else if op.low == 6 {
      PushAlike(env, c, cpu, byAllocator, op.n, if op.n == op.m then Minus(a, 4) else b, b);
    } else if op.low == 8 {
      FlagAlike(c, cpu, AndWord(a, b) == 0);
    } else if op.low in {9, 10, 11} {
      RegisterAlike(c, cpu, op.n,
        if op.low == 9 then AndWord(a, b) else if op.low == 10 then XorWord(a, b) else OrWord(a, b));
    }
  }

  lemma SameRegisters(c: Core, cpu: Cpu)
    requires Alike(c, cpu)
    ensures c.r == cpu.r && c.sr % 2 == Sh4.TBit(cpu)
  {
  }

  lemma Alike3(env: Profile, op: Opcode, pc: int, c: Core, byAllocator: bool, cpu: Cpu)
    requires op.top == 3 && Alike(c, cpu)
    ensures Leaves(Sh4.Exec(op, cpu), Effect(env, op, pc, c, byAllocator))
  {
    hide Sh4.Exec, Wrap, Sh4.Divide1, Reg, Flag, Sh4.Put, Sh4.SetT, Alike, Signed;
    Sh4.Dispatch3(op, cpu);
    var a, b, t := cpu.r[op.n], cpu.r[op.m], Sh4.TBit(cpu);
    SameRegisters(c, cpu);
    SignedAlike(a);
    SignedAlike(b);
    if op.low in {0, 2, 3, 6, 7} {
      FlagAlike(c, cpu, if op.low == 0 then a == b else if op.low == 2 then a >= b else if op.low == 6 then a > b
        else if op.low == 3 then Signed32(a) >= Signed32(b) else Signed32(a) > Signed32(b));
    } else if op.low in {8, 12} {
      RegisterAlike(c, cpu, op.n, if op.low == 8 then Wrap(a - b) else Wrap(a + b));
    } else if op.low in {10, 14} {
      FlaggedAlike(c, cpu, op.n, if op.low == 10 then Wrap(a - b - t) else Wrap(a + b + t),
        if op.low == 10 then a - b - t < 0 else a + b + t >= 0x1_0000_0000);
    }
  }

  /** A register write and a flag. */
  lemma FlaggedAlike(c: Core, cpu: Cpu, n: Nibble, value: Word, flag: bool)
    requires Alike(c, cpu)
    ensures Alike(Flag(c.(r := c.r[n := value]), flag), Sh4.SetT(Sh4.Put(cpu, n, value), flag))
    ensures Alike(Flag(c, flag).(r := c.r[n := value]), Sh4.SetT(Sh4.Put(cpu, n, value), flag))
  {
  }

  lemma SignedAlike(a: Word)
    ensures Signed(a, 32) == Signed32(a) && (a / 0x8000_0000 % 2 == 1 <==> a >= 0x8000_0000)
  {
  }

  lemma Alike4(env: Profile, op: Opcode, pc: int, c: Core, byAllocator: bool, cpu: Cpu)
    requires op.top == 4 && Alike(c, cpu) && LoadsAlike(c, cpu) && !SwitchesBank(op, cpu)
    ensures Leaves(Sh4.Exec(op, cpu), Effect(env, op, pc, c, byAllocator))
  {
    hide Sh4.Exec, Sh4.Exec4, Effect, LoadsAlike;
    Sh4.Dispatch4(op, cpu);
    if op.low in {12, 13} { Dynamic4(env, op, pc, c, byAllocator, cpu); }
    else if op.low in {2, 6, 14} { System4(env, op, pc, c, byAllocator, cpu); }
    else { Shift4(env, op, pc, c, byAllocator, cpu); }
  }

  lemma Shift4(env: Profile, op: Opcode, pc: int, c: Core, byAllocator: bool, cpu: Cpu)
    requires op.top == 4 && op.low !in {2, 6, 12, 13, 14} && Alike(c, cpu)
    ensures Leaves(Sh4.Exec4(op, cpu), Effect(env, op, pc, c, byAllocator))
  {
    hide Wrap, PushFrom, Read, Sh4.PushTo, Sh4.SetRegister, Sh4.SetControl, Sh4.Accumulate, Sh4.StoreFrom, Sh4.Load,
      Sh4.ShiftDynamic, ShiftBy, Sh4.PushedRegister, Sh4.PushedControl, Signed, Reg, Flag, Sh4.Put, Sh4.SetT, Alike;
    var a: int := cpu.r[op.n];
    SameRegisters(c, cpu);
    SignedAlike(a);
    OneLess(a);
    if op.low in {0, 1} && op.m in {0, 1} {
      if op.low == 0 && op.m == 0 { FlaggedAlike(c, cpu, op.n, Wrap(2 * a), a >= 0x8000_0000); }
      else if op.low == 0 { FlaggedAlike(c, cpu, op.n, Wrap(a - 1), a == 1); }
      else if op.m == 0 { FlaggedAlike(c, cpu, op.n, a / 2, a % 2 == 1); }
      else { FlagAlike(c, cpu, Signed32(a) >= 0); }
    } else if op.low == 5 {
      FlagAlike(c, cpu, Signed32(a) > 0);
    } else if op.low == 8 && op.m < 3 {
      RegisterAlike(c, cpu, op.n, if op.m == 0 then Wrap(4 * a) else if op.m == 1 then Wrap(0x100 * a)
        else Wrap(0x1_0000 * a));
    } else if op.low == 9 && op.m < 3 {
      RegisterAlike(c, cpu, op.n, if op.m == 0 then a / 4 else if op.m == 1 then a / 0x100 else a / 0x1_0000);
    }
  }

  lemma OneLess(a: Word)
    ensures Wrap(a - 1) == 0 <==> a == 1
  {
    hide Wrap;
    WrapIsMod(a - 1);
  }

  lemma Dynamic4(env: Profile, op: Opcode, pc: int, c: Core, byAllocator: bool, cpu: Cpu)
    requires op.top == 4 && op.low in {12, 13} && Alike(c, cpu)
    ensures Leaves(Sh4.Exec4(op, cpu), Effect(env, op, pc, c, byAllocator))
  {
    hide Wrap, PushFrom, Read, Sh4.PushTo, Sh4.SetRegister, Sh4.SetControl, Sh4.Accumulate, Sh4.StoreFrom, Sh4.Load,
      Sh4.ShiftDynamic, ShiftBy, Sh4.PushedRegister, Sh4.PushedControl, Signed;
    ShiftAlike(cpu.r[op.m], cpu.r[op.n], op.low == 12);
    RegisterAlike(c, cpu, op.n, Sh4.ShiftDynamic(cpu.r[op.m], cpu.r[op.n], op.low == 12));
  }

  lemma ShiftAlike(count: Word, a: Word, arithmetic: bool)
    ensures ShiftBy(count, a, arithmetic) == Sh4.ShiftDynamic(count, a, arithmetic)
  {
    hide Wrap, Pow2;
    SignedAlike(a);
    SignedAlike(count);
    WholeShift(a);
    if count % 32 > 0 { WrapQuotient(a, Pow2(32 - count % 32)); }
  }

  /** A shift by all 32 bits leaves the sign. */
  lemma WholeShift(a: Word)
    ensures Wrap(Signed(a, 32) / 0x1_0000_0000) == if a >= 0x8000_0000 then 0xffff_ffff else 0
  {
  }

  lemma WrapQuotient(a: Word, unit: nat)
    requires unit > 0
    ensures Wrap(a / unit) == a / unit
  {
    hide Wrap;
    assert 0 <= a / unit <= a;
    WrapIsMod(a / unit);
  }

  lemma System4(env: Profile, op: Opcode, pc: int, c: Core, byAllocator: bool, cpu: Cpu)
    requires op.top == 4 && op.low in {2, 6, 14} && Alike(c, cpu) && LoadsAlike(c, cpu) && !SwitchesBank(op, cpu)
    ensures Leaves(Sh4.Exec4(op, cpu), Effect(env, op, pc, c, byAllocator))
  {
    hide Wrap, PushFrom, Read, Sh4.PushTo, Sh4.SetRegister, Sh4.SetControl, Sh4.Accumulate, Sh4.StoreFrom, Sh4.Load,
      Sh4.ShiftDynamic, ShiftBy, Sh4.BankSelected, Sh4.PushedRegister, Leaves, LoadsAlike;
    if op.low == 2 && op.m == 2 {
      PushAlike(env, c, cpu, byAllocator, op.n, c.pr, cpu.pr);
      PushesPr(cpu);
    } else if op.low == 6 && op.m == 2 {
      PopsPr(c, cpu, op.n);
    } else if op.low == 14 && op.m == 0 {
      SetsSr(c, cpu, cpu.r[op.n]);
    } else {
      NoSystem(env, op, pc, c, byAllocator);
      NothingLeft(Sh4.Exec4(op, cpu));
    }
  }

  lemma NoSystem(env: Profile, op: Opcode, pc: int, c: Core, byAllocator: bool)
    requires op.top == 4 && op.low in {2, 6, 14} && op.m != (if op.low == 14 then 0 else 2)
    ensures Effect(env, op, pc, c, byAllocator).None?
  {
  }

  lemma NothingLeft(outcome: Sh4.Outcome)
    ensures Leaves(outcome, None)
  {
  }

  lemma PopsPr(c: Core, cpu: Cpu, n: Nibble)
    requires Alike(c, cpu) && LoadsAlike(c, cpu)
    ensures Leaves(
      match Sh4.Load(cpu.mem, cpu.r[n], 4)
      case None => Sh4.Fault
      case Some(v) => Sh4.SetRegister(2, Sh4.Put(cpu, n, Plus(cpu.r[n], 4)), v),
      match Read(c, c.r[n], 4)
      case None => None
      case Some(v) => Some(c.(pr := v, r := c.r[n := Plus(c.r[n], 4)])))
  {
    hide Wrap, Read, Sh4.Load;
  }

  lemma PushesPr(cpu: Cpu)
    ensures Sh4.PushedRegister(2, cpu) == Some(cpu.pr)
  {
  }

  lemma SetsSr(c: Core, cpu: Cpu, v: Word)
    requires Alike(c, cpu) && Sh4.BankSelected(v / 2) == Sh4.BankSelected(cpu.upper)
    ensures Leaves(Sh4.SetControl(0, cpu, v), Some(c.(sr := v)))
  {
    hide Sh4.BankSelected;
  }

  lemma Alike6(env: Profile, op: Opcode, pc: int, c: Core, byAllocator: bool, cpu: Cpu)
    requires op.top == 6 && Alike(c, cpu) && LoadsAlike(c, cpu)
    ensures Leaves(Sh4.Exec(op, cpu), Effect(env, op, pc, c, byAllocator))
  {
    hide Sh4.Exec, Sh4.Exec6, Effect, LoadsAlike, Leaves;
    Sh4.Dispatch6(op, cpu);
    if op.low in {0, 1, 2, 4, 5, 6} { Memory6(env, op, pc, c, byAllocator, cpu); }
    else { Register6(env, op, pc, c, byAllocator, cpu); }
  }

  lemma Memory6(env: Profile, op: Opcode, pc: int, c: Core, byAllocator: bool, cpu: Cpu)
    requires op.top == 6 && op.low in {0, 1, 2, 4, 5, 6} && Alike(c, cpu) && LoadsAlike(c, cpu)
    ensures Leaves(Sh4.Exec6(op, cpu), Effect(env, op, pc, c, byAllocator))
  {
    hide Wrap, Read, LoadInto, PopInto, Sh4.LoadTo, LoadsAlike, Leaves, Alike, Effect;
    Loaded6(env, op, pc, c, byAllocator);
    SameRegisters(c, cpu);
    var b: int := cpu.r[op.m];
    assert Wrap(b) == b by { WrapIsMod(b); }
    if op.low < 3 { LoadAlike(c, cpu, op.n, b, Sh4.Size(op.low)); }
    else { PopAlike(c, cpu, op.n, op.m, Sh4.Size(op.low)); }
  }

  lemma Loaded6(env: Profile, op: Opcode, pc: int, c: Core, byAllocator: bool)
    requires op.top == 6 && op.low in {0, 1, 2, 4, 5, 6}
    ensures Effect(env, op, pc, c, byAllocator) ==
      if op.low < 3 then LoadInto(c, op.n, c.r[op.m], Sh4.Size(op.low))
      else PopInto(c, op.n, op.m, Sh4.Size(op.low))
  {
    hide LoadInto, PopInto;
  }

  lemma Register6(env: Profile, op: Opcode, pc: int, c: Core, byAllocator: bool, cpu: Cpu)
    requires op.top == 6 && op.low !in {0, 1, 2, 4, 5, 6} && Alike(c, cpu)
    ensures Leaves(Sh4.Exec6(op, cpu), Effect(env, op, pc, c, byAllocator))
  {
    hide Wrap, LoadInto, PopInto, Sh4.LoadTo, Alike, Reg, Flag, Sh4.Put, Sh4.SetT, SwapBytes, Sh4.Extend, Signed;
    SameRegisters(c, cpu);
    var b: int, t := cpu.r[op.m], Sh4.TBit(cpu);
    if op.low == 10 {
      FlaggedAlike(c, cpu, op.n, Wrap(0 - b - t), b + t != 0);
      assert 0 - (b + t) == 0 - b - t;
    } else if op.low in {14, 15} {
      ExtendsAlike(b);
      RegisterAlike(c, cpu, op.n, Sh4.Extend(b, if op.low == 14 then 1 else 2));
    } else {
      Rearranged(b);
      RegisterAlike(c, cpu, op.n, if op.low == 3 then b else if op.low == 7 then Wrap(-1 - b) else
        if op.low == 8 then SwapBytes(b) else if op.low == 11 then Wrap(0 - b)
        else if op.low == 12 then b % 0x100 else if op.low == 13 then b % 0x1_0000 else 0);
    }
  }

  lemma ExtendsAlike(b: Word)
    ensures Sh4.Extend(b, 1) == Wrap(Signed(b % 0x100, 8)) && Sh4.Extend(b, 2) == Wrap(Signed(b % 0x1_0000, 16))
  {
    hide Wrap;
  }

  lemma Rearranged(b: Word)
    ensures Wrap(-1 - b) == 0xffff_ffff - b
    ensures SwapBytes(b) == Wrap(b / 0x1_0000 * 0x1_0000 + b % 0x100 * 0x100 + b / 0x100 % 0x100)
    ensures SwapBytes(b) < 0x1_0000_0000
  {
    hide Wrap;
    WrapIsMod(-1 - b);
    Upper(b);
    WrapIsMod(SwapBytes(b));
  }

  lemma Upper(b: Word)
    ensures 0 <= b / 0x1_0000 * 0x1_0000 <= 0xffff_0000
  {
  }

  lemma Alike8(env: Profile, op: Opcode, pc: int, c: Core, byAllocator: bool, cpu: Cpu)
    requires op.top == 8 && Alike(c, cpu) && LoadsAlike(c, cpu)
    ensures Leaves(Sh4.Exec(op, cpu), Effect(env, op, pc, c, byAllocator))
  {
    hide Sh4.Exec, Wrap, Read, Write, LoadInto, Sh4.LoadTo, Sh4.StoreFrom, LoadsAlike, Alike, Flag, Sh4.SetT, Signed8;
    Sh4.Dispatch8(op, cpu);
    SameRegisters(c, cpu);
    var b: int := cpu.r[op.m];
    if op.n == 0 { WriteAlike(env, c, cpu, byAllocator, b + op.low, Wrap(b + op.low), c.r[0], cpu.r[0], 1); }
    else if op.n == 1 {
      WriteAlike(env, c, cpu, byAllocator, b + 2 * op.low, Wrap(b + 2 * op.low), c.r[0], cpu.r[0], 2);
    } else if op.n == 4 { LoadAlike(c, cpu, 0, b + op.low, 1); }
    else if op.n == 5 { LoadAlike(c, cpu, 0, b + 2 * op.low, 2); }
    else if op.n == 8 { FlagAlike(c, cpu, cpu.r[0] == Wrap(Signed8(op.Imm8()))); }
  }

  lemma AlikeC(env: Profile, op: Opcode, pc: int, c: Core, byAllocator: bool, cpu: Cpu)
    requires op.top == 12 && Alike(c, cpu)
    ensures Leaves(Sh4.Exec(op, cpu), Effect(env, op, pc, c, byAllocator))
  {
    hide Sh4.Exec, Wrap, Sh4.Load, Sh4.LoadTo, Sh4.StoreFrom, Alike, Flag, Sh4.SetT, Reg, Sh4.Put, And, Or, Xor,
      Literal;
    Sh4.DispatchC(op, cpu);
    SameRegisters(c, cpu);
    var z, i := cpu.r[0], op.Imm8();
    if op.n == 8 { FlagAlike(c, cpu, AndWord(z, i) == 0); }
    else if op.n in {9, 10, 11} {
      RegisterAlike(c, cpu, 0,
        if op.n == 9 then AndWord(z, i) else if op.n == 10 then XorWord(z, i) else OrWord(z, i));
    }
  }

  lemma AlikeOther(env: Profile, op: Opcode, pc: int, c: Core, byAllocator: bool, cpu: Cpu)
    requires op.top in {1, 5, 7, 14} && Alike(c, cpu) && LoadsAlike(c, cpu)
    ensures Leaves(Sh4.Exec(op, cpu), Effect(env, op, pc, c, byAllocator))
  {
    hide Wrap, Read, Write, LoadInto, Sh4.LoadTo, Sh4.StoreFrom, LoadsAlike, Alike, Reg, Sh4.Put, Signed8, Sh4.Exec,
      Effect;
    SameRegisters(c, cpu);
    OtherEffect(env, op, pc, c, byAllocator);
    var a: int, b: int := cpu.r[op.n], cpu.r[op.m];
    if op.top == 1 {
      Sh4.Dispatch1(op, cpu);
      WriteAlike(env, c, cpu, byAllocator, a + 4 * op.low, Wrap(a + 4 * op.low), c.r[op.m], cpu.r[op.m], 4);
    } else if op.top == 5 {
      Sh4.Dispatch5(op, cpu);
      LoadAlike(c, cpu, op.n, b + 4 * op.low, 4);
    } else if op.top == 7 {
      Sh4.Dispatch7(op, cpu);
      RegisterAlike(c, cpu, op.n, Wrap(a + Signed8(op.Imm8())));
    } else {
      Sh4.DispatchE(op, cpu);
      RegisterAlike(c, cpu, op.n, Wrap(Signed8(op.Imm8())));
    }
  }

  lemma OtherEffect(env: Profile, op: Opcode, pc: int, c: Core, byAllocator: bool)
    requires op.top in {1, 5, 7, 14}
    ensures var a: int, b: int := c.r[op.n], c.r[op.m];
      Effect(env, op, pc, c, byAllocator) ==
        if op.top == 1 then Write(env, c, byAllocator, a + 4 * op.low, c.r[op.m], 4)
        else if op.top == 5 then LoadInto(c, op.n, b + 4 * op.low, 4)
        else if op.top == 7 then Reg(c, op.n, Wrap(a + Signed8(op.Imm8())))
        else Reg(c, op.n, Wrap(Signed8(op.Imm8())))
  {
    hide Wrap, Write, LoadInto, Reg, Signed8;
  }

  lemma NoExec(op: Opcode, cpu: Cpu)
    requires op.top in {9, 10, 11, 13, 15}
    ensures Sh4.Exec(op, cpu) == Sh4.Fault
  {
  }

  /** Wherever dispatch and machine both decide, they leave the same registers, SR, PR and MACL, unless LDC to SR
      switches the bank. */
  lemma EffectIsExec(env: Profile, op: Opcode, pc: int, c: Core, byAllocator: bool, cpu: Cpu)
    requires Alike(c, cpu) && LoadsAlike(c, cpu) && !SwitchesBank(op, cpu)
    ensures Leaves(Sh4.Exec(op, cpu), Effect(env, op, pc, c, byAllocator))
  {
    hide Sh4.Exec, Effect, Alike, LoadsAlike, SwitchesBank;
    match op.top
    case 0 => Alike0(env, op, pc, c, byAllocator, cpu);
    case 2 => Alike2(env, op, pc, c, byAllocator, cpu);
    case 3 => Alike3(env, op, pc, c, byAllocator, cpu);
    case 4 => Alike4(env, op, pc, c, byAllocator, cpu);
    case 6 => Alike6(env, op, pc, c, byAllocator, cpu);
    case 8 => Alike8(env, op, pc, c, byAllocator, cpu);
    case 12 => AlikeC(env, op, pc, c, byAllocator, cpu);
    case _ =>
      if op.top in {1, 5, 7, 14} { AlikeOther(env, op, pc, c, byAllocator, cpu); } else { NoExec(op, cpu); }
  }

  // ---------- where pc matters ----------

  /** Code reads as data. */
  ghost predicate ReadsCode(c: Core, code: Sh4.Code) {
    forall a: int {:trigger Sh4.Fetch(code, a)} :: Sh4.Fetch(code, a).Some? && Read(c, a, 2).Some? ==>
      var h := Sh4.Fetch(code, a).value; Read(c, a, 2).value == 0x1000 * h.top + h.Disp12()
  }

  ghost predicate ReadsWords(c: Core, code: Sh4.Code) {
    forall a: int {:trigger Sh4.FetchLong(code, a)} :: Sh4.FetchLong(code, a).Some? && Read(c, a, 4).Some? ==>
      Read(c, a, 4).value == Sh4.FetchLong(code, a).value
  }

  /** The pc-relative loads and MOVA. */
  lemma LiteralAlike(env: Profile, op: Opcode, pc: nat, c: Core, byAllocator: bool, code: Sh4.Code, cpu: Cpu)
    requires PcRelative(op) && Alike(c, cpu) && ReadsCode(c, code) && ReadsWords(c, code)
    requires Literal(pc, op) < 0x1_0000_0000
    ensures Leaves(Sh4.Plain(code, op, pc, cpu), Effect(env, op, pc, c, byAllocator))
  {
    hide Wrap, Read, Sh4.Fetch, Sh4.FetchLong, Alike, Sh4.Put, Signed, Signed16, Effect, Sh4.Plain, Leaves, Literal;
    LiteralPositive(op, pc);
    LiteralEffect(env, op, pc, c, byAllocator);
    LiteralPlain(code, op, pc, cpu);
    if op.top == 13 { LongAlike(c, code, Literal(pc, op), op.n, cpu); }
    else if op.top == 9 { HalfAlike(c, code, pc + 4 + 2 * op.Imm8(), op.n, cpu); }
    else { MovaAlike(c, Literal(pc, op), cpu); }
  }

  lemma LiteralPositive(op: Opcode, pc: nat)
    ensures Literal(pc, op) >= 0
  {
  }

  lemma LiteralEffect(env: Profile, op: Opcode, pc: nat, c: Core, byAllocator: bool)
    requires PcRelative(op)
    ensures Effect(env, op, pc, c, byAllocator) ==
      if op.top == 13 then LoadInto(c, op.n, Literal(pc, op), 4)
      else if op.top == 9 then LoadInto(c, op.n, pc + 4 + 2 * op.Imm8(), 2) else Reg(c, 0, Literal(pc, op))
  {
    hide LoadInto, Reg, Literal;
  }

  lemma LiteralPlain(code: Sh4.Code, op: Opcode, pc: nat, cpu: Cpu)
    requires PcRelative(op)
    ensures Sh4.Plain(code, op, pc, cpu) ==
      if op.top == 13 then LongLiteral(code, Literal(pc, op), op.n, cpu)
      else if op.top == 9 then HalfLiteral(code, pc + 4 + 2 * op.Imm8(), op.n, cpu)
      else Sh4.Running(Sh4.Put(cpu, 0, Wrap(Literal(pc, op))))
  {
    hide HalfLiteral, Sh4.Plain, Wrap, Sh4.FetchLong, Sh4.Put, LongLiteral;
    if op.top == 9 { HalfPlain(code, op, pc, cpu); } else { LongPlain(code, op, pc, cpu); }
  }

  lemma HalfPlain(code: Sh4.Code, op: Opcode, pc: nat, cpu: Cpu)
    requires op.top == 9
    ensures Sh4.Plain(code, op, pc, cpu) == HalfLiteral(code, pc + 4 + 2 * op.Imm8(), op.n, cpu)
  {
    hide Wrap, Sh4.Fetch, Sh4.FetchLong, Sh4.Exec, Sh4.Put, Signed16, Opcode.Disp12, Opcode.Imm8, Sh4.LiteralAddress,
      Literal, PcRelative;
  }

  lemma LongPlain(code: Sh4.Code, op: Opcode, pc: nat, cpu: Cpu)
    requires PcRelative(op) && op.top != 9
    ensures Sh4.Plain(code, op, pc, cpu) == if op.top == 13 then LongLiteral(code, Literal(pc, op), op.n, cpu)
      else Sh4.Running(Sh4.Put(cpu, 0, Wrap(Literal(pc, op))))
  {
    hide Wrap, Sh4.Fetch, Sh4.FetchLong, Sh4.Exec, Sh4.Put, Signed16, Opcode.Disp12, Opcode.Imm8, Literal,
      Sh4.LiteralAddress;
    SameLiteral(op, pc);
  }

  lemma SameLiteral(op: Opcode, pc: nat)
    ensures Sh4.LiteralAddress(pc, op) == Literal(pc, op)
  {
  }

  function LongLiteral(code: Sh4.Code, a: int, n: Nibble, cpu: Cpu): Sh4.Outcome {
    match Sh4.FetchLong(code, a) case None => Sh4.Fault case Some(v) => Sh4.Running(Sh4.Put(cpu, n, v))
  }

  function HalfLiteral(code: Sh4.Code, a: int, n: Nibble, cpu: Cpu): Sh4.Outcome {
    match Sh4.Fetch(code, a)
    case None => Sh4.Fault
    case Some(h) => Sh4.Running(Sh4.Put(cpu, n, Wrap(Signed16(4096 * h.top + h.Disp12()))))
  }

  lemma LongAlike(c: Core, code: Sh4.Code, a: int, n: Nibble, cpu: Cpu)
    requires Alike(c, cpu) && ReadsWords(c, code)
    ensures Leaves(LongLiteral(code, a, n, cpu), LoadInto(c, n, a, 4))
  {
    hide Read, Sh4.FetchLong, Alike, Sh4.Put, Reg, Wrap, Signed;
    if Sh4.FetchLong(code, a).Some? { RegisterAlike(c, cpu, n, Sh4.FetchLong(code, a).value); }
  }

  lemma HalfAlike(c: Core, code: Sh4.Code, a: int, n: Nibble, cpu: Cpu)
    requires Alike(c, cpu) && ReadsCode(c, code)
    ensures Leaves(HalfLiteral(code, a, n, cpu), LoadInto(c, n, a, 2))
  {
    hide Read, Sh4.Fetch, Alike, Sh4.Put, Reg, Wrap, Signed, Signed16, Opcode.Disp12;
    var fetched := Sh4.Fetch(code, a);
    if fetched.Some? {
      var h := fetched.value;
      HalfSigned(h);
      RegisterAlike(c, cpu, n, Wrap(Signed16(4096 * h.top + h.Disp12())));
    }
  }

  lemma MovaAlike(c: Core, at: nat, cpu: Cpu)
    requires Alike(c, cpu) && at < 0x1_0000_0000
    ensures Leaves(Sh4.Running(Sh4.Put(cpu, 0, Wrap(at))), Reg(c, 0, at))
  {
    hide Alike, Sh4.Put, Reg, Wrap;
    WrapIsMod(at);
    RegisterAlike(c, cpu, 0, at);
  }

  lemma HalfSigned(h: Opcode)
    ensures 0 <= 0x1000 * h.top + h.Disp12() < 0x1_0000
    ensures Signed16(0x1000 * h.top + h.Disp12()) == Signed(0x1000 * h.top + h.Disp12(), 16)
  {
  }

  /** The dispatch branches where the machine does. */
  lemma GoesIsTarget(op: Opcode, pc: Word, c: Core, cpu: Cpu)
    requires Alike(c, cpu) && Transfers(op)
    ensures Branches(op) && (HasSlot(op) <==> DelayedBranch(op))
    ensures Sh4.Target(op, pc, cpu) == Some(Goes(op, pc, c))
    ensures pc + 4 < 0x1_0000_0000 ==> Alike(Link(op, pc, c), Sh4.Linked(op, pc, cpu))
  {
    hide Sh4.Target, Goes, Link, Sh4.Linked, Alike;
    TransfersBranch(op);
    SameTarget(op, pc, c, cpu);
    LinksAlike(op, pc, c, cpu);
  }

  lemma TransfersBranch(op: Opcode)
    requires Transfers(op)
    ensures Branches(op) && (HasSlot(op) <==> DelayedBranch(op))
  {
  }

  lemma SameTarget(op: Opcode, pc: Word, c: Core, cpu: Cpu)
    requires Alike(c, cpu) && Transfers(op) && Branches(op)
    ensures Sh4.Target(op, pc, cpu) == Some(Goes(op, pc, c))
  {
    hide Wrap, Signed8, DelayedBranch;
    SameRegisters(c, cpu);
    WrapIsMod(if op.top == 4 then c.r[op.n] else c.pr);
  }

  lemma LinksAlike(op: Opcode, pc: Word, c: Core, cpu: Cpu)
    requires Alike(c, cpu) && Transfers(op)
    ensures pc + 4 < 0x1_0000_0000 ==> Alike(Link(op, pc, c), Sh4.Linked(op, pc, cpu))
  {
    hide Wrap;
    WrapIsMod(pc + 4);
  }

  // ---------- what is dispatched ----------

  /** Loads, stores and the purge: decided by their one access. */
  predicate Accesses(w: nat) {
    || w / 0x1000 in {1, 5, 9, 0xd} || (w / 0x1000 == 0 && (w % 0x10 in {0x5, 0xd, 0xe} || w % 0x100 == 0xa3))
    || (w / 0x1000 == 2 && w % 0x10 in {0, 1, 2, 6}) || (w / 0x1000 == 4 && w % 0x100 in {0x22, 0x26})
    || (w / 0x1000 == 6 && w % 0x10 in {0, 1, 2, 4, 5, 6}) || w / 0x100 in {0x80, 0x81, 0x84, 0x85}
  }

  /** The halfwords that only compute, by mask. */
  predicate Computing(w: nat) {
    || w in {0x0008, 0x0009, 0x0018} || w / 0x1000 in {0x7, 0xe} || w / 0x100 in {0x88, 0xc7, 0xc8, 0xc9, 0xca, 0xcb}
    || (w / 0x1000 == 0 && (w % 0x10 == 7 || w % 0x100 in {0x02, 0x1a, 0x29}))
    || (w / 0x1000 == 2 && 0x8 <= w % 0x10 <= 0xb)
    || (w / 0x1000 == 3 && w % 0x10 in {0x0, 0x2, 0x3, 0x6, 0x7, 0x8, 0xa, 0xc, 0xe})
    || (w / 0x1000 == 4 && (w % 0x10 in {0xc, 0xd}
          || w % 0x100 in {0x00, 0x01, 0x08, 0x09, 0x0e, 0x10, 0x11, 0x15, 0x18, 0x19, 0x28, 0x29}))
    || (w / 0x1000 == 6 && w % 0x10 in {0x3, 0x7, 0x8, 0xa, 0xb, 0xc, 0xd, 0xe, 0xf})
  }

  /** An instruction without an access is dispatched exactly when its halfword is on the list. */
  lemma DispatchedExactly(env: Profile, op: Opcode, pc: nat, c: Core, byAllocator: bool)
    requires !Accesses(Number(op))
    ensures Effect(env, op, pc, c, byAllocator).Some? <==> Computing(Number(op))
  {
    hide Number, Effect;
    NumberFields(op);
    if op.top == 0 { Dispatched0(env, op, pc, c, byAllocator); }
    else if op.top == 2 { Dispatched2(env, op, pc, c, byAllocator); }
    else if op.top == 3 { Dispatched3(env, op, pc, c, byAllocator); }
    else { DispatchedRest(env, op, pc, c, byAllocator); }
  }

  lemma Dispatched0(env: Profile, op: Opcode, pc: nat, c: Core, byAllocator: bool)
    requires !Accesses(Number(op)) && op.top == 0
    ensures Effect(env, op, pc, c, byAllocator).Some? <==> Computing(Number(op))
  {
    hide Number, Wrap, And, Or, Xor, Flag, Signed, Signed8, ShiftBy, SwapBytes, LoadInto, PopInto, PushFrom, Write,
      Read, Purge, Literal;
    NumberFields(op);
  }

  lemma Dispatched2(env: Profile, op: Opcode, pc: nat, c: Core, byAllocator: bool)
    requires !Accesses(Number(op)) && op.top == 2
    ensures Effect(env, op, pc, c, byAllocator).Some? <==> Computing(Number(op))
  {
    hide Number, Wrap, And, Or, Xor, Flag, Signed, Signed8, ShiftBy, SwapBytes, LoadInto, PopInto, PushFrom, Write,
      Read, Purge, Literal;
    NumberFields(op);
  }

  lemma Dispatched3(env: Profile, op: Opcode, pc: nat, c: Core, byAllocator: bool)
    requires !Accesses(Number(op)) && op.top == 3
    ensures Effect(env, op, pc, c, byAllocator).Some? <==> Computing(Number(op))
  {
    hide Number, Wrap, And, Or, Xor, Flag, Signed, Signed8, ShiftBy, SwapBytes, LoadInto, PopInto, PushFrom, Write,
      Read, Purge, Literal;
    NumberFields(op);
  }

  lemma DispatchedRest(env: Profile, op: Opcode, pc: nat, c: Core, byAllocator: bool)
    requires !Accesses(Number(op)) && op.top !in {0, 2, 3}
    ensures Effect(env, op, pc, c, byAllocator).Some? <==> Computing(Number(op))
  {
    hide Number, Wrap, And, Or, Xor, Flag, Signed, Signed8, ShiftBy, SwapBytes, LoadInto, PopInto, PushFrom, Write,
      Read, Purge, Literal;
    NumberFields(op);
  }
}
