/** The other half of `writes_gpr`: what it reports for r8-r15 some state really changes, but for a listed set. */
module WritesExactly {
  import opened Words
  import opened Opcodes
  import opened Sh4
  import opened RegisterWrites

  /** Some state is changed in this register. */
  ghost predicate Changes(op: Opcode, register: Nibble) {
    exists code: Code, pc: int, cpu: Cpu :: ChangesAt(code, op, pc, cpu, register)
  }

  predicate ChangesAt(code: Code, op: Opcode, pc: int, cpu: Cpu, register: Nibble) {
    Plain(code, op, pc, cpu).Running? && Plain(code, op, pc, cpu).cpu.r[register] != cpu.r[register]
  }

  /** Reported although nothing ever changes: undefined codes, transfers, cache, status and floating-point
      operations, operations on a register by itself that leave it as it is, and ADD #0. */
  predicate Listed(op: Opcode, register: Nibble) {
    var n, m, low := op.n, op.m, op.low;
    if op.top == 0 then
      || low in {0, 1, 3, 11} || (low == 8 && !(n == 0 && m < 3))
      || (n == register
          && ((low == 2 && m in {5, 6, 7}) || (low == 9 && m != 2 && !(n == 0 && m < 2))
              || (low == 10 && (m in {4, 7} || 8 <= m < 15))))
    else if op.top == 12 then n == 3
    else if op.top == 15 then true
    else
      n == register
      && ((op.top == 6 && low == 3 && n == m) || (op.top == 7 && op.Imm8() == 0)
          || (op.top == 2 && (low == 3 || (low in {9, 11} && n == m))) || (op.top == 3 && low in {1, 9})
          || (op.top == 4 && ListedSystem(m, low)))
  }

  /** Shifts and control transfers of group 4 that do not exist, comparisons, and moves out of the register. */
  predicate ListedSystem(m: Nibble, low: Nibble) {
    || (low in {0, 8, 9} && m > 2) || (low == 1 && m !in {0, 2}) || (low == 2 && m !in {0, 1, 2, 3, 5, 6, 15})
    || (low in {3, 7} && m in {5, 6, 7}) || (low in {4, 5} && m !in {0, 2})
    || (low == 6 && m !in {0, 1, 2, 5, 6, 15}) || low in {10, 11, 14}
  }

  function Fill(v: Word): Cpu { ANY.(r := seq(16, _ => v), t := true) }

  ghost predicate Moved(op: Opcode, cpu: Cpu, register: Nibble) {
    Exec(op, cpu).Running? && Exec(op, cpu).cpu.r[register] != cpu.r[register]
  }

  lemma Change0(op: Opcode, register: Nibble)
    requires op.top == 0 && register >= 8 && WritesGpr(op, register) && !Listed(op, register)
    ensures Moved(op, Fill(4), register)
  {
    hide Exec, WithSrBit, Accumulate, LoadTo, StoreFrom;
    Dispatch0(op, Fill(4));
    if op.low == 15 { Multiply0(op.n, op.m, register); }
    else if op.low in {12, 13, 14} { LoadsSum(op.n, op.low); }
  }

  lemma Multiply0(n: Nibble, m: Nibble, register: Nibble)
    requires n == register || m == register
    ensures Accumulate(Fill(4), n, m, 4).Running?
    ensures Accumulate(Fill(4), n, m, 4).cpu.r[register] != 4 == Fill(4).r[register]
  {
    hide SrBit, OrWord, Extend, Signed32;
  }

  lemma LoadsSum(n: Nibble, low: Nibble)
    requires low in {12, 13, 14}
    ensures LoadTo(Fill(4), n, Wrap(8), Size(low)) == Running(Put(Fill(4), n, 0))
  {
  }

  lemma Change2(op: Opcode, register: Nibble) returns (cpu: Cpu)
    requires op.top == 2 && register >= 8 && WritesGpr(op, register) && !Listed(op, register)
    ensures Moved(op, cpu, register)
  {
    hide Exec, WithSrBit;
    if op.low == 9 {
      cpu := Put(Fill(0), op.n, 1);
      assert And(1, 0) == 0 by { AndZero(1); }
    } else if op.low == 11 {
      cpu := Put(Fill(1), op.n, 0);
      assert Or(0, 1) == 1;
    } else if op.low in {10, 13} {
      cpu := Fill(1);
      assert Xor(1, 1) == 0;
    } else {
      cpu := Fill(4);
    }
    Dispatch2(op, cpu);
  }

  lemma Change3(op: Opcode, register: Nibble)
    requires op.top == 3 && register >= 8 && WritesGpr(op, register) && !Listed(op, register)
    ensures Moved(op, Fill(4), register)
  {
    hide Exec, Divide1;
    Dispatch3(op, Fill(4));
    if op.low == 4 { Division(op.n, op.m); }
    assert Wrap(-1) == 0xffff_ffff;
  }

  /** Without Q and M a division step doubles, adds T and subtracts. */
  lemma Division(n: Nibble, m: Nibble)
    ensures Divide1(Fill(4), n, m).Running? && Divide1(Fill(4), n, m).cpu.r[n] == 5
  {
    hide WithSrBit, SrBit;
    NoBit(8);
    NoBit(9);
    assert Fill(4).upper == 0 && Wrap(9) == 9 && Wrap(5) == 5;
  }

  lemma NoBit(k: nat)
    requires k > 0
    ensures !SrBit(0, k)
  {
    ShiftZero(k - 1);
  }

  lemma Change4(op: Opcode, register: Nibble)
    requires op.top == 4 && register >= 8 && WritesGpr(op, register) && !Listed(op, register)
    ensures Moved(op, Fill(4), register)
  {
    hide Exec, Exec4, Fill;
    Dispatch4(op, Fill(4));
    if op.low in {2, 3} { Push4(op); }
    else if op.low in {6, 7} { Pop4(op); }
    else if op.low in {12, 13} { Dynamic4(op); }
    else if op.low == 15 { Multiply4(op, register); }
    else { Shift4(op); }
  }

  lemma Shift4(op: Opcode)
    requires op.low in {0, 1, 4, 5, 8, 9} && !ListedSystem(op.m, op.low)
    ensures Exec4(op, Fill(4)).Running? && Exec4(op, Fill(4)).cpu.r[op.n] != 4 == Fill(4).r[op.n]
  {
    hide PushTo, SetRegister, SetControl, Accumulate, ShiftDynamic, StoreFrom, Load;
  }

  lemma Push4(op: Opcode)
    requires op.low in {2, 3} && !ListedSystem(op.m, op.low)
    ensures Exec4(op, Fill(4)).Running? && Exec4(op, Fill(4)).cpu.r[op.n] != 4 == Fill(4).r[op.n]
  {
    hide SetRegister, SetControl, Accumulate, ShiftDynamic, Store, Load, Wrap;
    var pushed := if op.low == 2 then PushedRegister(op.m, Fill(4)) else PushedControl(op.m, Fill(4));
    assert pushed.Some?;
    Pushed(op.n, pushed.value);
  }

  lemma Pushed(n: Nibble, value: Word)
    ensures PushTo(Fill(4), n, value, 4).Running? && PushTo(Fill(4), n, value, 4).cpu.r[n] == 0
  {
  }

  lemma Pop4(op: Opcode)
    requires op.low in {6, 7} && !ListedSystem(op.m, op.low) && op.n >= 8
    ensures Exec4(op, Fill(4)).Running? && Exec4(op, Fill(4)).cpu.r[op.n] != 4 == Fill(4).r[op.n]
  {
    hide PushTo, SetRegister, SetControl, Accumulate, ShiftDynamic, StoreFrom, PushedRegister, PushedControl;
    var popped := Put(Fill(4), op.n, 8);
    assert Load(Fill(4).mem, 4, 4) == Some(0) && Fill(4).r[op.n] == 4 && Wrap(8) == 8;
    SetsSystem(op.m, popped);
    SystemKeepsHigh(op.m, popped, 0, op.n);
  }

  lemma SetsSystem(m: Nibble, cpu: Cpu)
    ensures m in {0, 1, 2, 5, 6, 15} ==> SetRegister(m, cpu, 0).Running?
    ensures m !in {5, 6, 7} ==> SetControl(m, cpu, 0).Running?
  {
    hide SetSr;
  }

  lemma Dynamic4(op: Opcode)
    requires op.low in {12, 13}
    ensures Exec4(op, Fill(4)).Running? && Exec4(op, Fill(4)).cpu.r[op.n] != 4 == Fill(4).r[op.n]
  {
    hide PushTo, SetRegister, SetControl, Accumulate, StoreFrom, PushedRegister, PushedControl, Load, ShiftDynamic;
    Shifted(op.low == 12);
  }

  lemma Shifted(arithmetic: bool)
    ensures ShiftDynamic(4, 4, arithmetic) == 64
  {
    assert Pow2(4) == 16;
  }

  lemma Multiply4(op: Opcode, register: Nibble)
    requires op.low == 15 && (op.n == register || op.m == register)
    ensures Exec4(op, Fill(4)).Running? && Exec4(op, Fill(4)).cpu.r[register] != 4 == Fill(4).r[register]
  {
    hide PushTo, SetRegister, SetControl, StoreFrom, PushedRegister, PushedControl, ShiftDynamic, SrBit, OrWord, Extend,
      Signed32;
  }

  lemma Change6(op: Opcode, register: Nibble) returns (cpu: Cpu)
    requires op.top == 6 && register >= 8 && WritesGpr(op, register) && !Listed(op, register)
    ensures Moved(op, cpu, register)
  {
    hide Exec, LoadTo;
    cpu := if op.low == 3 then Put(Fill(4), op.n, 5) else Fill(0x1_0004);
    Dispatch6(op, cpu);
    assert Wrap(-0x1_0004) == 0xfffe_fffc && Wrap(-0x1_0005) == 0xfffe_fffb && Wrap(0x1_0004_0001) == 0x4_0001;
    if op.low in {0, 1, 2} {
      LoadsZero(cpu, op.n, op.low);
    } else if op.low in {4, 5, 6} {
      LoadsZero(if op.n == op.m then cpu else Put(cpu, op.m, Wrap(0x1_0004 + Size(op.low))), op.n, op.low);
    }
  }

  lemma LoadsZero(cpu: Cpu, n: Nibble, low: Nibble)
    requires cpu.mem == map[] && low < 7
    ensures LoadTo(cpu, n, 0x1_0004, Size(low)) == Running(Put(cpu, n, 0))
  {
  }

  // ---------- the other leading digits ----------

  lemma ChangeOther(op: Opcode, register: Nibble) returns (cpu: Cpu)
    requires op.top in {5, 7, 14} && register >= 8 && WritesGpr(op, register) && !Listed(op, register)
    ensures Moved(op, cpu, register)
  {
    hide Exec, LoadTo, Wrap, Signed8;
    if op.top == 5 {
      cpu := Fill(4);
      Dispatch5(op, cpu);
      LoadsDisplaced(cpu, op.n, op.low);
    } else if op.top == 7 {
      cpu := Fill(4);
      Dispatch7(op, cpu);
      AddsSomething(op.Imm8());
    } else {
      var value := Wrap(Signed8(op.Imm8()));
      cpu := Fill(if value == 4 then 5 else 4);
      DispatchE(op, cpu);
    }
  }

  lemma LoadsDisplaced(cpu: Cpu, n: Nibble, low: Nibble)
    requires cpu.mem == map[]
    ensures LoadTo(cpu, n, Wrap(4 + 4 * low), 4) == Running(Put(cpu, n, 0))
  {
  }

  lemma AddsSomething(imm: Byte)
    requires imm != 0
    ensures Wrap(4 + Signed8(imm)) != 4
  {
  }

  /** Code that is zero everywhere a literal can be. */
  function ZeroAt(a: int): Byte { 0 }

  function ZeroCode(): Code { map a: int | 0 <= a < 0x2000_0000 :: ZeroAt(a) }

  lemma ZeroByte(a: int)
    ensures CodeByte(ZeroCode(), a) == Some(0)
  {
    hide Physical;
    PhysicalIsMod(a);
  }

  lemma ZeroLiterals(a: int)
    ensures Fetch(ZeroCode(), a) == Some(Opcode(0, 0, 0, 0)) && FetchLong(ZeroCode(), a) == Some(0)
  {
    hide CodeByte, ZeroCode;
    ZeroByte(a);
    ZeroByte(a + 1);
    ZeroByte(a + 2);
    ZeroByte(a + 3);
  }

  lemma ChangeLiteral(op: Opcode, register: Nibble)
    requires op.top in {9, 13} && WritesGpr(op, register)
    ensures ChangesAt(ZeroCode(), op, 0, Fill(4), register)
  {
    hide Plain, ZeroCode, Fill;
    assert op.n == register;
    LiteralZero(op, Fill(4));
    assert Fill(4).r[register] == 4 by { Filled(register); }
  }

  lemma Filled(register: Nibble)
    ensures Fill(4).r[register] == 4
  {
  }

  lemma LiteralZero(op: Opcode, cpu: Cpu)
    requires op.top in {9, 13}
    ensures Plain(ZeroCode(), op, 0, cpu).Running? && Plain(ZeroCode(), op, 0, cpu).cpu.r[op.n] != 4
  {
    hide Fetch, FetchLong, ZeroCode, LiteralAddress, Plain, Put, Wrap, Signed16, Opcode.Disp12;
    if op.top == 9 {
      ZeroLiterals(4 + 2 * op.Imm8());
      var h := Fetch(ZeroCode(), 4 + 2 * op.Imm8()).value;
      HalfLoad(ZeroCode(), op, 0, cpu, h);
      NoDisplacement(h);
      NothingExtended(h.top, h.Disp12());
      PutFrame(cpu, op.n, Wrap(Signed16(4096 * h.top + h.Disp12())));
    } else {
      ZeroLiterals(LiteralAddress(0, op));
      LongLiteral(ZeroCode(), op, 0, cpu);
      PutFrame(cpu, op.n, 0);
    }
  }

  lemma NothingExtended(top: int, displacement: int)
    requires top == 0 && displacement == 0
    ensures Wrap(Signed16(4096 * top + displacement)) == 0
  {
    hide Wrap;
    WrapIsMod(0);
  }

  lemma NoDisplacement(h: Opcode)
    requires h.n == 0 && h.m == 0 && h.low == 0
    ensures h.Disp12() == 0
  {
    assert h.Imm8() == 0;
  }

  lemma LongLiteral(code: Code, op: Opcode, pc: int, cpu: Cpu)
    requires op.top == 13 && FetchLong(code, LiteralAddress(pc, op)) == Some(0)
    ensures Plain(code, op, pc, cpu) == Running(Put(cpu, op.n, 0))
  {
    hide FetchLong, Exec, Put, LiteralAddress;
  }

  lemma ReportedLeads(op: Opcode, register: Nibble)
    requires register >= 8 && WritesGpr(op, register) && !Listed(op, register)
    ensures op.top in {0, 2, 3, 4, 5, 6, 7, 9, 13, 14} && (op.top !in {9, 13} ==> !PcRelative(op))
  {
  }

  lemma MovedChanges(op: Opcode, cpu: Cpu, register: Nibble)
    requires Moved(op, cpu, register) && !PcRelative(op)
    ensures Changes(op, register)
  {
    hide Exec;
    assert ChangesAt(map[], op, 0, cpu, register);
  }

  /** What is reported and not listed, some state changes. */
  lemma ReportedChanges(op: Opcode, register: Nibble)
    requires register >= 8 && WritesGpr(op, register) && !Listed(op, register)
    ensures Changes(op, register)
  {
    hide WritesGpr, Listed, Moved, ChangesAt, PcRelative, ZeroCode, Fill;
    ReportedLeads(op, register);
    if op.top in {9, 13} {
      ChangeLiteral(op, register);
    } else {
      var cpu := Fill(4);
      if op.top == 0 { Change0(op, register); }
      else if op.top == 2 { cpu := Change2(op, register); }
      else if op.top == 3 { Change3(op, register); }
      else if op.top == 4 { Change4(op, register); }
      else if op.top == 6 { cpu := Change6(op, register); }
      else { cpu := ChangeOther(op, register); }
      MovedChanges(op, cpu, register);
    }
  }

  // ---------- listed operations keep the register ----------

  lemma Keep0(op: Opcode, register: Nibble, cpu: Cpu)
    requires op.top == 0 && Listed(op, register) && Exec0(op, cpu).Running?
    ensures Exec0(op, cpu).cpu.r[register] == cpu.r[register]
  {
    hide LoadTo, StoreFrom, Accumulate, WithSrBit, Wrap;
    if op.low == 3 && op.m == 12 { StoreKeeps(cpu, cpu.r[op.n], cpu.r[0], 4, register); }
  }

  lemma Keep2(op: Opcode, register: Nibble, cpu: Cpu)
    requires op.top == 2 && Listed(op, register) && Exec2(op, cpu).Running?
    ensures Exec2(op, cpu).cpu.r[register] == cpu.r[register]
  {
    hide StoreFrom, PushTo, And, Or, Xor, WithSrBit, Wrap;
    Idempotent(cpu.r[op.n]);
  }

  lemma {:induction false} Idempotent(a: nat)
    ensures And(a, a) == a && Or(a, a) == a
  {
    if a > 0 { Idempotent(a / 2); }
  }

  lemma Keep4(op: Opcode, register: Nibble, cpu: Cpu)
    requires op.top == 4 && register >= 8 && Listed(op, register) && Exec4(op, cpu).Running?
    ensures Exec4(op, cpu).cpu.r[register] == cpu.r[register]
  {
    hide Load, Store, OrWord, Wrap, ShiftDynamic, SetRegister, SetControl, PushTo, Accumulate, PushedRegister,
      PushedControl;
    var n, m, low := op.n, op.m, op.low;
    if low == 2 { NothingPushed(m, cpu); }
    else if low == 3 { NothingPushed(m, cpu); }
    else if low in {6, 7} {
      if Load(cpu.mem, cpu.r[n], 4).Some? {
        NothingSet(m, Put(cpu, n, Plus(cpu.r[n], 4)), Load(cpu.mem, cpu.r[n], 4).value);
      }
    } else if low in {10, 14} { SystemKeepsHigh(m, cpu, cpu.r[n], register); }
  }

  lemma NothingPushed(m: Nibble, cpu: Cpu)
    ensures m !in {0, 1, 2, 3, 5, 6, 15} ==> PushedRegister(m, cpu).None?
    ensures m in {5, 6, 7} ==> PushedControl(m, cpu).None?
  {
  }

  lemma NothingSet(m: Nibble, cpu: Cpu, v: Word)
    ensures m !in {0, 1, 2, 5, 6, 15} ==> SetRegister(m, cpu, v) == Fault
    ensures m in {5, 6, 7} ==> SetControl(m, cpu, v) == Fault
  {
    hide SetSr;
  }

  lemma KeepOther(op: Opcode, register: Nibble, cpu: Cpu)
    requires op.top !in {0, 2, 4} && register >= 8 && Listed(op, register) && Exec(op, cpu).Running?
    ensures Exec(op, cpu).cpu.r[register] == cpu.r[register]
  {
    hide Exec, Exec0, Exec2, Exec4, Exec8, ExecC, LoadTo, StoreFrom, Divide1;
    if op.top == 3 { Dispatch3(op, cpu); }
    else if op.top == 6 { Dispatch6(op, cpu); }
    else if op.top == 7 {
      Dispatch7(op, cpu);
      assert Wrap(cpu.r[op.n]) == cpu.r[op.n] by { WrapIsMod(cpu.r[op.n]); }
    } else if op.top == 12 {
      DispatchC(op, cpu);
      WritesC(op, register, cpu);
    } else {
      NoFloat(op, cpu);
    }
  }

  lemma NoFloat(op: Opcode, cpu: Cpu)
    requires op.top == 15
    ensures Exec(op, cpu) == Fault
  {
  }

  lemma ListedKeeps(op: Opcode, register: Nibble)
    requires register >= 8 && Listed(op, register)
    ensures !Changes(op, register) && WritesGpr(op, register)
  {
    hide Exec, Exec0, Exec2, Exec4;
    forall code: Code, pc: int, cpu: Cpu ensures !ChangesAt(code, op, pc, cpu, register) {
      if Exec(op, cpu).Running? {
        if op.top == 0 {
          Dispatch0(op, cpu);
          Keep0(op, register, cpu);
        } else if op.top == 2 {
          Dispatch2(op, cpu);
          Keep2(op, register, cpu);
        } else if op.top == 4 {
          Dispatch4(op, cpu);
          Keep4(op, register, cpu);
        } else {
          KeepOther(op, register, cpu);
        }
      }
    }
  }

  /** What is not reported for r8-r15 never changes, pc-relative loads included. */
  lemma UnreportedKeeps(op: Opcode, register: Nibble)
    requires register >= 8 && !WritesGpr(op, register)
    ensures !Changes(op, register)
  {
    hide Exec;
    forall code: Code, pc: int, cpu: Cpu ensures !ChangesAt(code, op, pc, cpu, register) {
      if Exec(op, cpu).Running? { NotWrittenIsKept(op, register, cpu); }
    }
  }

  /** For r8-r15 the report is exact but for the listed operations, none of which changes the register. */
  lemma ReportedExactly(op: Opcode, register: Nibble)
    requires register >= 8
    ensures Changes(op, register) <==> WritesGpr(op, register) && !Listed(op, register)
    ensures Listed(op, register) ==> WritesGpr(op, register)
  {
    hide Changes, WritesGpr, Listed;
    if !WritesGpr(op, register) { UnreportedKeeps(op, register); }
    else if !Listed(op, register) { ReportedChanges(op, register); }
    if Listed(op, register) { ListedKeeps(op, register); }
  }
}
