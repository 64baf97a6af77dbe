/** `writes_gpr`: the register-write predicate behind the retained-pointer proofs,
    compared with what the machine really does. */
module RegisterWrites {
  import opened Words
  import opened Opcodes
  import opened Sh4

  /** Digit by digit as the audit decides it; unknown encodings count as writes. */
  predicate WritesGpr(op: Opcode, register: Nibble) {
    var n, m, low := op.n, op.m, op.low;
    if op.top in {5, 6, 7, 9, 13, 14} then
      n == register || (op.top == 6 && low in {4, 5, 6} && m == register)
    else if op.top in {1, 10, 11} then false
    else if op.top == 12 then n == 3
    else if op.top == 2 then n == register && low !in {0, 1, 2, 7, 8, 12, 14, 15}
    else if op.top == 3 then n == register && low !in {0, 2, 3, 5, 6, 7, 13}
    else if op.top == 4 then n == register || (low == 15 && m == register)
    else if op.top == 8 then register == 0 && n in {4, 5}
    else if op.top == 0 then
      if op in {NOP, Opcode(0, 0, 0, 8), Opcode(0, 0, 1, 8), Opcode(0, 0, 1, 9), Opcode(0, 0, 2, 8)} then false
      else if low in {4, 5, 6, 7} then false
      else if low == 15 then n == register || m == register
      else if low in {2, 10, 9, 12, 13, 14} then n == register
      else true
    else true
  }

  lemma Writes0(op: Opcode, register: Nibble, cpu: Cpu)
    requires op.top == 0 && !WritesGpr(op, register) && Exec0(op, cpu).Running?
    ensures Exec0(op, cpu).cpu.r[register] == cpu.r[register]
  {
    hide StoreFrom, LoadTo, Accumulate, WithSrBit, Wrap, Put;
    var n, m, low := op.n, op.m, op.low;
    var z: int, a: int, b: int := cpu.r[0], cpu.r[n], cpu.r[m];
    if low == 3 && m == 12 { StoreKeeps(cpu, cpu.r[n], cpu.r[0], 4, register); }
    else if low in {4, 5, 6} { StoreKeeps(cpu, Wrap(z + a), cpu.r[m], Size(low), register); }
    else if low in {12, 13, 14} { LoadKeeps(cpu, n, Wrap(z + b), Size(low), register); }
    else if low == 15 { AccumulateKeeps(cpu, n, m, 4, register); }
    else if low in {2, 9, 10} { SystemReads(op, register, cpu); }
  }

  /** STC, STS and MOVT write only their destination. */
  lemma SystemReads(op: Opcode, register: Nibble, cpu: Cpu)
    requires op.top == 0 && op.low in {2, 9, 10} && !WritesGpr(op, register) && Exec0(op, cpu).Running?
    ensures Exec0(op, cpu).cpu.r[register] == cpu.r[register]
  {
    hide StoreFrom, LoadTo, Accumulate, WithSrBit, Wrap;
  }

  lemma StoreKeeps(cpu: Cpu, a: Word, value: Word, size: int, register: Nibble)
    requires size in {1, 2, 4} && StoreFrom(cpu, a, value, size).Running?
    ensures StoreFrom(cpu, a, value, size).cpu.r[register] == cpu.r[register]
  {
    hide Store;
  }

  lemma LoadKeeps(cpu: Cpu, n: Nibble, a: Word, size: int, register: Nibble)
    requires size in {1, 2, 4} && n != register && LoadTo(cpu, n, a, size).Running?
    ensures LoadTo(cpu, n, a, size).cpu.r[register] == cpu.r[register]
  {
    hide Load, Extend;
  }

  lemma Writes2(op: Opcode, register: Nibble, cpu: Cpu)
    requires op.top == 2 && !WritesGpr(op, register) && Exec2(op, cpu).Running?
    ensures Exec2(op, cpu).cpu.r[register] == cpu.r[register]
  {
    hide Load, Store, OrWord, AndWord, XorWord, WithSrBit, Wrap, Signed16;
  }

  lemma Writes3(op: Opcode, register: Nibble, cpu: Cpu)
    requires op.top == 3 && !WritesGpr(op, register) && Exec3(op, cpu).Running?
    ensures Exec3(op, cpu).cpu.r[register] == cpu.r[register]
  {
    hide WithSrBit, SrBit, Wrap, Signed32;
  }

  /** LDC to SR may exchange r0-r7; r8 and above never move. */
  lemma SetSrKeepsHigh(cpu: Cpu, value: Word, register: Nibble)
    requires register >= 8
    ensures SetSr(cpu, value).r[register] == cpu.r[register]
  {
    hide BankSelected;
  }

  lemma SystemKeepsHigh(m: Nibble, cpu: Cpu, value: Word, register: Nibble)
    requires register >= 8
    ensures SetRegister(m, cpu, value).Running? ==> SetRegister(m, cpu, value).cpu.r[register] == cpu.r[register]
    ensures SetControl(m, cpu, value).Running? ==> SetControl(m, cpu, value).cpu.r[register] == cpu.r[register]
  {
    hide SetSr;
    SetSrKeepsHigh(cpu, value, register);
  }

  lemma PushKeeps(cpu: Cpu, n: Nibble, value: Word, size: int, register: Nibble)
    requires size in {1, 2, 4} && n != register && PushTo(cpu, n, value, size).Running?
    ensures PushTo(cpu, n, value, size).cpu.r[register] == cpu.r[register]
  {
    hide Store, Wrap;
  }

  lemma AccumulateKeeps(cpu: Cpu, n: Nibble, m: Nibble, size: int, register: Nibble)
    requires size in {2, 4} && n != register && m != register && Accumulate(cpu, n, m, size).Running?
    ensures Accumulate(cpu, n, m, size).cpu.r[register] == cpu.r[register]
  {
    hide Load, Wrap, OrWord, SrBit, Extend, Signed32;
  }

  lemma Writes4(op: Opcode, register: Nibble, cpu: Cpu)
    requires op.top == 4 && register >= 8 && !WritesGpr(op, register) && Exec4(op, cpu).Running?
    ensures Exec4(op, cpu).cpu.r[register] == cpu.r[register]
  {
    hide Load, Store, OrWord, Wrap, Signed32, ShiftDynamic, SetRegister, SetControl, PushTo, Accumulate,
      PushedRegister, PushedControl;
    var n, m, low := op.n, op.m, op.low;
    if low == 2 && PushedRegister(m, cpu).Some? { PushKeeps(cpu, n, PushedRegister(m, cpu).value, 4, register); }
    else if low == 3 && PushedControl(m, cpu).Some? { PushKeeps(cpu, n, PushedControl(m, cpu).value, 4, register); }
    else if low in {6, 7} && Load(cpu.mem, cpu.r[n], 4).Some? {
      SystemKeepsHigh(m, Put(cpu, n, Plus(cpu.r[n], 4)), Load(cpu.mem, cpu.r[n], 4).value, register);
    } else if low in {10, 14} { SystemKeepsHigh(m, cpu, cpu.r[n], register); }
    else if low == 15 { AccumulateKeeps(cpu, n, m, 2, register); }
  }

  lemma Writes6(op: Opcode, register: Nibble, cpu: Cpu)
    requires op.top == 6 && !WritesGpr(op, register) && Exec6(op, cpu).Running?
    ensures Exec6(op, cpu).cpu.r[register] == cpu.r[register]
  {
    hide Load, Wrap, Extend;
  }

  lemma Writes8(op: Opcode, register: Nibble, cpu: Cpu)
    requires op.top == 8 && !WritesGpr(op, register) && Exec8(op, cpu).Running?
    ensures Exec8(op, cpu).cpu.r[register] == cpu.r[register]
  {
    hide Load, Store, Wrap, Extend, Signed8;
  }

  lemma WritesC(op: Opcode, register: Nibble, cpu: Cpu)
    requires op.top == 12 && register != 0 && ExecC(op, cpu).Running?
    ensures ExecC(op, cpu).cpu.r[register] == cpu.r[register]
  {
    hide Load, Store, Wrap, Extend, AndWord, OrWord, XorWord;
  }

  /** For r8-r15 a "does not write" answer is true of every integer instruction. */
  lemma NotWrittenIsKept(op: Opcode, register: Nibble, cpu: Cpu)
    requires register >= 8 && !WritesGpr(op, register) && Exec(op, cpu).Running?
    ensures Exec(op, cpu).cpu.r[register] == cpu.r[register]
  {
    hide Exec, WritesGpr, Exec0, Exec2, Exec3, Exec4, Exec6, Exec8, ExecC;
    match op.top
    case 0 => Dispatch0(op, cpu); Writes0(op, register, cpu);
    case 2 => Dispatch2(op, cpu); Writes2(op, register, cpu);
    case 3 => Dispatch3(op, cpu); Writes3(op, register, cpu);
    case 4 => Dispatch4(op, cpu); Writes4(op, register, cpu);
    case 6 => Dispatch6(op, cpu); Writes6(op, register, cpu);
    case 8 => Dispatch8(op, cpu); Writes8(op, register, cpu);
    case 12 => DispatchC(op, cpu); WritesC(op, register, cpu);
    case _ => WritesOther(op, register, cpu);
  }

  lemma WritesOther(op: Opcode, register: Nibble, cpu: Cpu)
    requires op.top !in {0, 2, 3, 4, 6, 8, 12} && !WritesGpr(op, register) && Exec(op, cpu).Running?
    ensures Exec(op, cpu).cpu.r[register] == cpu.r[register]
  {
    hide Exec0, Exec2, Exec3, Exec4, Exec6, Exec8, ExecC, Store, Load, Wrap, Extend;
  }

  /** The predicate is safe to rely on for a register when no instruction it clears can change it. */
  ghost predicate Conservative(register: Nibble) {
    forall op: Opcode, cpu: Cpu :: !WritesGpr(op, register) && Exec(op, cpu).Running? ==>
      Exec(op, cpu).cpu.r[register] == cpu.r[register]
  }

  const ANY: Cpu := Cpu(seq(16, _ => 0), seq(8, _ => 0), 0, 0, false, 0, 0, 0, 0, 0, 0, 0, 0, 0, 0, map[], [])

  /** AND #0,R0 is an immediate operation the predicate clears for every register. */
  lemma R0Counterexample()
    ensures !Conservative(0)
  {
    var cpu := Put(ANY, 0, 1);
    var op := Opcode(12, 9, 0, 0);
    assert Exec(op, cpu) == Running(Put(cpu, 0, 0)) by {
      hide Exec;
      DispatchC(op, cpu);
      assert AndWord(1, 0) == 0 by { AndZero(1); }
    }
    hide Exec;
    assert !WritesGpr(op, 0) && Exec(op, cpu).cpu.r[0] != cpu.r[0];
  }

  lemma BankBits()
    ensures BankSelected(0x3000_0000) && !BankSelected(0)
  {
    ShiftBytes(0x3000_0000, 0x30_0000, 0x3000, 0x30);
    ShiftByte(0x3000_0000); ShiftByte(0x30_0000); ShiftByte(0x3000); ShiftNibble(0x30);
    ShiftCompose(0x3000_0000, 8, 20); ShiftCompose(0x30_0000, 8, 12); ShiftCompose(0x3000, 8, 4);
    ShiftZero(29);
    ShiftZero(28);
  }

  /** LDC R0,SR exchanges the banks, and the predicate names only its operand. */
  lemma BankedCounterexample(register: Nibble)
    requires 1 <= register < 8
    ensures !Conservative(register)
  {
    var cpu := Put(ANY, 0, 0x6000_0000).(bank := ANY.bank[register := 1]);
    var op := Opcode(4, 0, 0, 14);
    BankBits();
    assert Exec(op, cpu) == Running(SetSr(cpu, 0x6000_0000)) by {
      hide Exec, SetSr;
      Dispatch4(op, cpu);
    }
    hide Exec, BankSelected;
    assert SetSr(cpu, 0x6000_0000).r[register] == 1;
    assert !WritesGpr(op, register) && Exec(op, cpu).cpu.r[register] != cpu.r[register];
  }

  /** `writes_gpr` is conservative for exactly the registers that no bank switch can exchange. */
  lemma ConservativeExactly(register: Nibble)
    ensures Conservative(register) <==> register >= 8
  {
    hide Exec, WritesGpr;
    if register >= 8 {
      forall op: Opcode, cpu: Cpu | !WritesGpr(op, register) && Exec(op, cpu).Running?
        ensures Exec(op, cpu).cpu.r[register] == cpu.r[register]
      {
        NotWrittenIsKept(op, register, cpu);
      }
    } else if register == 0 {
      R0Counterexample();
    } else {
      BankedCounterexample(register);
    }
  }
}
