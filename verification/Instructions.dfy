/** One equation per instruction that the handoff audits pin. */
module Instructions {
  import opened Words
  import opened Opcodes
  import opened Sh4

  lemma Ocbp(n: Nibble, cpu: Cpu)
    ensures Exec(Opcode(0, n, 10, 3), cpu) ==
            Running(cpu.(purged := cpu.purged + [cpu.r[n]]))
  {
    hide Exec, Put;
    Dispatch0(Opcode(0, n, 10, 3), cpu);
  }

  lemma Nop(cpu: Cpu)
    ensures Exec(Opcode(0, 0, 0, 9), cpu) ==
            Running(cpu)
  {
    hide Exec, Put;
    Dispatch0(Opcode(0, 0, 0, 9), cpu);
  }

  lemma StcSr(n: Nibble, cpu: Cpu)
    ensures Exec(Opcode(0, n, 0, 2), cpu) ==
            Running(Put(cpu, n, Sr(cpu)))
  {
    hide Exec, Put;
    Dispatch0(Opcode(0, n, 0, 2), cpu);
  }

  lemma Clrt(cpu: Cpu)
    ensures Exec(Opcode(0, 0, 0, 8), cpu) ==
            Running(SetT(cpu, false))
  {
    hide Exec, Put;
    Dispatch0(Opcode(0, 0, 0, 8), cpu);
  }

  lemma Clrmac(cpu: Cpu)
    ensures Exec(Opcode(0, 0, 2, 8), cpu) ==
            Running(cpu.(mach := 0, macl := 0))
  {
    hide Exec, Put;
    Dispatch0(Opcode(0, 0, 2, 8), cpu);
  }

  lemma StoreLong(n: Nibble, m: Nibble, cpu: Cpu)
    ensures Exec(Opcode(2, n, m, 2), cpu) ==
            LongStore(cpu, cpu.r[n], cpu.r[m])
  {
    hide Exec, Put;
    Dispatch2(Opcode(2, n, m, 2), cpu);
    LongAccesses(cpu, 0, cpu.r[n], cpu.r[m]);
  }

  lemma PushLong(n: Nibble, m: Nibble, cpu: Cpu)
    ensures Exec(Opcode(2, n, m, 6), cpu) ==
            LongPush(cpu, n, cpu.r[m])
  {
    hide Exec, Put;
    Dispatch2(Opcode(2, n, m, 6), cpu);
    LongPushes(cpu, n, cpu.r[m]);
  }

  lemma OrRegister(n: Nibble, m: Nibble, cpu: Cpu)
    ensures Exec(Opcode(2, n, m, 11), cpu) ==
            Running(Put(cpu, n, OrWord(cpu.r[n], cpu.r[m])))
  {
    hide Exec, Put;
    Dispatch2(Opcode(2, n, m, 11), cpu);
  }

  lemma CmpEq(n: Nibble, m: Nibble, cpu: Cpu)
    ensures Exec(Opcode(3, n, m, 0), cpu) ==
            Running(SetT(cpu, cpu.r[n] == cpu.r[m]))
  {
    hide Exec, Put;
    Dispatch3(Opcode(3, n, m, 0), cpu);
  }

  lemma CmpHs(n: Nibble, m: Nibble, cpu: Cpu)
    ensures Exec(Opcode(3, n, m, 2), cpu) ==
            Running(SetT(cpu, cpu.r[n] >= cpu.r[m]))
  {
    hide Exec, Put;
    Dispatch3(Opcode(3, n, m, 2), cpu);
  }

  lemma Sub(n: Nibble, m: Nibble, cpu: Cpu)
    ensures Exec(Opcode(3, n, m, 8), cpu) ==
            Running(Put(cpu, n, Minus(cpu.r[n], cpu.r[m])))
  {
    hide Exec, Put;
    Dispatch3(Opcode(3, n, m, 8), cpu);
  }

  lemma PushRegister(n: Nibble, m: Nibble, cpu: Cpu)
    ensures Exec(Opcode(4, n, m, 2), cpu) ==
            (match PushedRegister(m, cpu) case None => Fault case Some(v) => LongPush(cpu, n, v))
  {
    hide Exec, Put;
    Dispatch4(Opcode(4, n, m, 2), cpu);
    if PushedRegister(m, cpu).Some? { LongPushes(cpu, n, PushedRegister(m, cpu).value); }
  }

  lemma PushControl(n: Nibble, m: Nibble, cpu: Cpu)
    ensures Exec(Opcode(4, n, m, 3), cpu) ==
            (match PushedControl(m, cpu) case None => Fault case Some(v) => LongPush(cpu, n, v))
  {
    hide Exec, Put;
    Dispatch4(Opcode(4, n, m, 3), cpu);
    if PushedControl(m, cpu).Some? { LongPushes(cpu, n, PushedControl(m, cpu).value); }
  }

  lemma PopRegister(n: Nibble, m: Nibble, cpu: Cpu)
    ensures Exec(Opcode(4, n, m, 6), cpu) ==
            (if cpu.r[n] % 4 != 0 then Fault
             else SetRegister(m, Put(cpu, n, Plus(cpu.r[n], 4)), Peek(cpu.mem, Key(cpu.r[n]))))
  {
    hide Exec, Put;
    Dispatch4(Opcode(4, n, m, 6), cpu);
    LongAccesses(cpu, 0, cpu.r[n], 0);
  }

  lemma PopControl(n: Nibble, m: Nibble, cpu: Cpu)
    ensures Exec(Opcode(4, n, m, 7), cpu) ==
            (if cpu.r[n] % 4 != 0 then Fault
             else SetControl(m, Put(cpu, n, Plus(cpu.r[n], 4)), Peek(cpu.mem, Key(cpu.r[n]))))
  {
    hide Exec, Put;
    Dispatch4(Opcode(4, n, m, 7), cpu);
    LongAccesses(cpu, 0, cpu.r[n], 0);
  }

  lemma Lds(n: Nibble, m: Nibble, cpu: Cpu)
    ensures Exec(Opcode(4, n, m, 10), cpu) ==
            SetRegister(m, cpu, cpu.r[n])
  {
    hide Exec, Put;
    Dispatch4(Opcode(4, n, m, 10), cpu);
  }

  lemma Ldc(n: Nibble, m: Nibble, cpu: Cpu)
    ensures Exec(Opcode(4, n, m, 14), cpu) ==
            SetControl(m, cpu, cpu.r[n])
  {
    hide Exec, Put;
    Dispatch4(Opcode(4, n, m, 14), cpu);
  }

  lemma LoadLong(n: Nibble, m: Nibble, cpu: Cpu)
    ensures Exec(Opcode(6, n, m, 2), cpu) ==
            LongLoad(cpu, n, cpu.r[m])
  {
    hide Exec, Put;
    Dispatch6(Opcode(6, n, m, 2), cpu);
    LongAccesses(cpu, n, cpu.r[m], 0);
  }

  lemma Mov(n: Nibble, m: Nibble, cpu: Cpu)
    ensures Exec(Opcode(6, n, m, 3), cpu) ==
            Running(Put(cpu, n, cpu.r[m]))
  {
    hide Exec, Put;
    Dispatch6(Opcode(6, n, m, 3), cpu);
  }

  lemma PopLong(n: Nibble, m: Nibble, cpu: Cpu)
    ensures Exec(Opcode(6, n, m, 6), cpu) ==
            LongLoad(if n == m then cpu else Put(cpu, m, Plus(cpu.r[m], 4)), n, cpu.r[m])
  {
    hide Exec, Put;
    Dispatch6(Opcode(6, n, m, 6), cpu);
    LongAccesses(if n == m then cpu else Put(cpu, m, Plus(cpu.r[m], 4)), n, cpu.r[m], 0);
  }

  lemma CmpEqImmediate(high: Nibble, low: Nibble, cpu: Cpu)
    ensures Exec(Opcode(8, 8, high, low), cpu) ==
            Running(SetT(cpu, cpu.r[0] == Wrap(Signed8(16 * high + low))))
  {
    hide Exec, Put;
    Dispatch8(Opcode(8, 8, high, low), cpu);
  }

  lemma TstImmediate(high: Nibble, low: Nibble, cpu: Cpu)
    ensures Exec(Opcode(12, 8, high, low), cpu) ==
            Running(SetT(cpu, AndWord(cpu.r[0], 16 * high + low) == 0))
  {
    hide Exec, Put;
    DispatchC(Opcode(12, 8, high, low), cpu);
  }

  lemma OrImmediate(high: Nibble, low: Nibble, cpu: Cpu)
    ensures Exec(Opcode(12, 11, high, low), cpu) ==
            Running(Put(cpu, 0, OrWord(cpu.r[0], 16 * high + low)))
  {
    hide Exec, Put;
    DispatchC(Opcode(12, 11, high, low), cpu);
  }

  lemma LoadDisplaced(n: Nibble, m: Nibble, low: Nibble, cpu: Cpu)
    ensures Exec(Opcode(5, n, m, low), cpu) == LongLoad(cpu, n, Plus(cpu.r[m], 4 * low))
  {
    hide Exec, LoadTo, LongLoad;
    Dispatch5(Opcode(5, n, m, low), cpu);
    LongAccesses(cpu, n, Plus(cpu.r[m], 4 * low), 0);
  }

  lemma AddImmediate(n: Nibble, high: Nibble, low: Nibble, cpu: Cpu)
    ensures Exec(Opcode(7, n, high, low), cpu) == Running(Put(cpu, n, Plus(cpu.r[n], Signed8(16 * high + low))))
  {
    hide Exec, Put;
    Dispatch7(Opcode(7, n, high, low), cpu);
  }

  lemma MovImmediate(n: Nibble, high: Nibble, low: Nibble, cpu: Cpu)
    ensures Exec(Opcode(14, n, high, low), cpu) == Running(Put(cpu, n, Wrap(Signed8(16 * high + low))))
  {
    hide Exec, Put;
    DispatchE(Opcode(14, n, high, low), cpu);
  }
}
