/** The SH-4 integer machine that the linked-code audits reason about.

    An opcode is kept as its four hexadecimal digits, so `Opcode(0x2, 0xf, 0x0, 0x6)`
    is the halfword 2f06.  Code bytes are fixed and indexed by physical address;
    data memory is a separate map of aligned words.  One step executes one
    instruction, or one delayed branch together with its slot. */
module Sh4 {
  import opened Words
  import opened Opcodes

  type Regs = s: seq<Word> | |s| == 16 witness seq(16, _ => 0)
  type Bank = s: seq<Word> | |s| == 8 witness seq(8, _ => 0)
  type Upper = x: int | 0 <= x < 0x8000_0000
  type Code = map<int, Byte>
  type Memory = map<int, Word>

  datatype Cpu = Cpu(
    r: Regs, bank: Bank, pr: Word, upper: Upper, t: bool, gbr: Word, vbr: Word,
    ssr: Word, spc: Word, sgr: Word, dbr: Word, mach: Word, macl: Word,
    fpul: Word, fpscr: Word, mem: Memory, purged: seq<Word>)

  datatype Outcome = Running(cpu: Cpu) | Fault

  datatype State = State(pc: Word, cpu: Cpu)

  // ---------- status register ----------

  /** SR as a word: its upper 31 bits, then T. */
  function Sr(cpu: Cpu): Word { 2 * cpu.upper + TBit(cpu) }

  function TBit(cpu: Cpu): int { if cpu.t then 1 else 0 }

  function SetT(cpu: Cpu, flag: bool): Cpu { cpu.(t := flag) }

  /** Bit k of SR, for every k but T's own 0. */
  predicate SrBit(upper: Upper, k: nat)
    requires k > 0
  {
    Shift(upper, k - 1) % 2 == 1
  }

  function WithSrBit(upper: Upper, k: nat, flag: bool): Upper
    requires k > 0
  {
    if SrBit(upper, k) == flag then upper
    else Wrap(2 * (if flag then upper + Pow2(k - 1) else upper - Pow2(k - 1))) / 2
  }

  /** MD and RB together select register bank 1 for r0-r7. */
  predicate BankSelected(upper: Upper) { SrBit(upper, 30) && SrBit(upper, 29) }

  /** LDC to SR also exchanges r0-r7 when it changes the selected bank. */
  function SetSr(cpu: Cpu, value: Word): Cpu {
    var next := cpu.(upper := value / 2, t := value % 2 == 1);
    if BankSelected(value / 2) == BankSelected(cpu.upper) then next
    else next.(r := cpu.bank + cpu.r[8..], bank := cpu.r[..8])
  }

  // ---------- memory ----------

  /** P0-P3 addresses alias one physical space; P4 control registers do not. */
  function Key(a: Word): int {
    if a < 0xE000_0000 then Physical(a) else a
  }

  function Peek(mem: Memory, key: int): Word {
    if key in mem then mem[key] else 0
  }

  function Load(mem: Memory, a: Word, size: int): Option<Word>
    requires size in {1, 2, 4}
  {
    if a % size != 0 then None
    else if size == 4 then Some(Peek(mem, Key(a)))
    else
      var whole := Peek(mem, Key(a) - Key(a) % 4);
      var lane := Key(a) % 4;
      if size == 2 then Some((if lane == 0 then whole else whole / 0x1_0000) % 0x1_0000)
      else Some((if lane == 0 then whole else if lane == 1 then whole / 0x100
                 else if lane == 2 then whole / 0x1_0000 else whole / 0x100_0000) % 0x100)
  }

  function Store(mem: Memory, a: Word, value: Word, size: int): Option<Memory>
    requires size in {1, 2, 4}
  {
    if a % size != 0 then None
    else if size == 4 then Some(mem[Key(a) := value])
    else
      var at := Key(a) - Key(a) % 4;
      var lane := Key(a) % 4;
      var whole := Peek(mem, at);
      var unit := if lane == 0 then 1 else if lane == 1 then 0x100
                  else if lane == 2 then 0x1_0000 else 0x100_0000;
      var span := if size == 2 then 0x1_0000 else 0x100;
      var kept := whole - (whole / unit % span) * unit;
      Some(mem[at := Wrap(kept + (value % span) * unit)])
  }

  function Extend(value: Word, size: int): Word
    requires size in {1, 2, 4}
  {
    if size == 1 then Wrap(Signed8(value % 0x100))
    else if size == 2 then Wrap(Signed16(value % 0x1_0000))
    else value
  }

  function Put(cpu: Cpu, n: Nibble, value: Word): Cpu {
    cpu.(r := cpu.r[n := value])
  }

  /** All that a proof needs of a register write once `Put` itself is hidden. */
  lemma PutFrame(cpu: Cpu, n: Nibble, value: Word)
    ensures Put(cpu, n, value) == cpu.(r := Put(cpu, n, value).r)
    ensures forall m: Nibble {:trigger Put(cpu, n, value).r[m]} ::
      Put(cpu, n, value).r[m] == if m == n then value else cpu.r[m]
  {
  }

  function LoadTo(cpu: Cpu, n: Nibble, a: Word, size: int): Outcome
    requires size in {1, 2, 4}
  {
    match Load(cpu.mem, a, size)
    case None => Fault
    case Some(v) => Running(Put(cpu, n, Extend(v, size)))
  }

  function StoreFrom(cpu: Cpu, a: Word, value: Word, size: int): Outcome
    requires size in {1, 2, 4}
  {
    match Store(cpu.mem, a, value, size)
    case None => Fault
    case Some(m) => Running(cpu.(mem := m))
  }

  /** `op.l register,@-Rn` */
  function PushTo(cpu: Cpu, n: Nibble, value: Word, size: int): Outcome
    requires size in {1, 2, 4}
  {
    var a := Wrap(cpu.r[n] - size);
    StoreFrom(Put(cpu, n, a), a, value, size)
  }

  // The three 32-bit accesses, apart from the narrow ones.

  function LongStore(cpu: Cpu, a: Word, value: Word): Outcome {
    if a % 4 != 0 then Fault else Running(cpu.(mem := cpu.mem[Key(a) := value]))
  }

  function LongLoad(cpu: Cpu, n: Nibble, a: Word): Outcome {
    if a % 4 != 0 then Fault else Running(Put(cpu, n, Peek(cpu.mem, Key(a))))
  }

  function LongPush(cpu: Cpu, n: Nibble, value: Word): Outcome {
    LongStore(Put(cpu, n, Minus(cpu.r[n], 4)), Minus(cpu.r[n], 4), value)
  }

  lemma LongAccesses(cpu: Cpu, n: Nibble, a: Word, value: Word)
    ensures StoreFrom(cpu, a, value, 4) == LongStore(cpu, a, value)
    ensures LoadTo(cpu, n, a, 4) == LongLoad(cpu, n, a)
    ensures Load(cpu.mem, a, 4) == (if a % 4 != 0 then None else Some(Peek(cpu.mem, Key(a))))
  {
    hide Key, Put;
  }

  lemma LongPushes(cpu: Cpu, n: Nibble, value: Word)
    ensures PushTo(cpu, n, value, 4) == LongPush(cpu, n, value)
  {
    hide Put, LongStore, StoreFrom;
    LongAccesses(Put(cpu, n, Minus(cpu.r[n], 4)), n, Minus(cpu.r[n], 4), value);
  }

  function Size(low: Nibble): int
    ensures Size(low) in {1, 2, 4}
  {
    if low % 4 == 0 then 1 else if low % 4 == 1 then 2 else 4
  }

  // ---------- instructions outside control flow, by leading digit ----------

  function Exec0(op: Opcode, cpu: Cpu): Outcome {
    var n, m, low := op.n, op.m, op.low;
    var z: int, a: int, b: int := cpu.r[0], cpu.r[n], cpu.r[m];
    if low == 2 then
      if m == 0 then Running(Put(cpu, n, Sr(cpu)))
      else if m == 1 then Running(Put(cpu, n, cpu.gbr))
      else if m == 2 then Running(Put(cpu, n, cpu.vbr))
      else if m == 3 then Running(Put(cpu, n, cpu.ssr))
      else if m == 4 then Running(Put(cpu, n, cpu.spc))
      else if m >= 8 then Running(Put(cpu, n, cpu.bank[m - 8]))
      else Fault
    else if low == 3 then
      if m in {8, 9, 11} then Running(cpu)                          // PREF, OCBI, OCBWB
      else if m == 10 then Running(cpu.(purged := cpu.purged + [cpu.r[n]])) // OCBP
      else if m == 12 then StoreFrom(cpu, cpu.r[n], cpu.r[0], 4)    // MOVCA.L
      else Fault
    else if low in {4, 5, 6} then
      StoreFrom(cpu, Wrap(z + a), cpu.r[m], Size(low))
    else if low == 7 then Running(cpu.(macl := Wrap(a * b)))
    else if low == 8 then
      if n != 0 then Fault
      else if m == 0 then Running(SetT(cpu, false))
      else if m == 1 then Running(SetT(cpu, true))
      else if m == 2 then Running(cpu.(mach := 0, macl := 0))
      else if m == 3 then Running(cpu)                              // LDTLB
      else if m == 4 then Running(cpu.(upper := WithSrBit(cpu.upper, 1, false)))
      else if m == 5 then Running(cpu.(upper := WithSrBit(cpu.upper, 1, true)))
      else Fault
    else if low == 9 then
      if op == NOP then Running(cpu)
      else if n == 0 && m == 1 then                                 // DIV0U
        Running(SetT(cpu.(upper := WithSrBit(WithSrBit(cpu.upper, 8, false), 9, false)), false))
      else if m == 2 then Running(Put(cpu, n, TBit(cpu)))
      else Fault
    else if low == 10 then
      if m == 0 then Running(Put(cpu, n, cpu.mach))
      else if m == 1 then Running(Put(cpu, n, cpu.macl))
      else if m == 2 then Running(Put(cpu, n, cpu.pr))
      else if m == 3 then Running(Put(cpu, n, cpu.sgr))
      else if m == 5 then Running(Put(cpu, n, cpu.fpul))
      else if m == 6 then Running(Put(cpu, n, cpu.fpscr))
      else if m == 15 then Running(Put(cpu, n, cpu.dbr))
      else Fault
    else if low in {12, 13, 14} then
      LoadTo(cpu, n, Wrap(z + b), Size(low))
    else if low == 15 then Accumulate(cpu, n, m, 4)
    else Fault
  }

  /** MAC.L and MAC.W: both operands post-increment, then a 64-bit accumulate.
      With S set, MAC.L saturates to 48 bits and MAC.W to 32. */
  function Accumulate(cpu: Cpu, n: Nibble, m: Nibble, size: int): Outcome
    requires size in {2, 4}
  {
    var first := Load(cpu.mem, cpu.r[n], size);
    var stepped := Put(cpu, n, Wrap(cpu.r[n] + size));
    var second := Load(cpu.mem, stepped.r[m], size);
    var after := Put(stepped, m, Wrap(stepped.r[m] + size));
    if first.None? || second.None? then Fault
    else
      var product := Signed32(Extend(first.value, size)) * Signed32(Extend(second.value, size));
      if SrBit(cpu.upper, 1) && size == 2 then
        var sum := Signed32(cpu.macl) + product;
        if sum > 0x7fff_ffff then Running(after.(mach := OrWord(cpu.mach, 1), macl := 0x7fff_ffff))
        else if sum < -0x8000_0000 then Running(after.(mach := OrWord(cpu.mach, 1), macl := 0x8000_0000))
        else Running(after.(macl := Wrap(sum)))
      else
        var sum := Signed32(cpu.mach) * 0x1_0000_0000 + cpu.macl + product;
        var kept := if !SrBit(cpu.upper, 1) then sum
                    else if sum > 0x7fff_ffff_ffff then 0x7fff_ffff_ffff
                    else if sum < -0x8000_0000_0000 then -0x8000_0000_0000 else sum;
        Running(after.(mach := Wrap(kept / 0x1_0000_0000), macl := Wrap(kept)))
  }

  function Exec2(op: Opcode, cpu: Cpu): Outcome {
    var n, m, low := op.n, op.m, op.low;
    var a: int, b: int := cpu.r[n], cpu.r[m];
    if low in {0, 1, 2} then StoreFrom(cpu, a, b, Size(low))
    else if low in {4, 5, 6} then PushTo(cpu, n, b, Size(low))
    else if low == 7 then                                           // DIV0S
      var q, d := a >= 0x8000_0000, b >= 0x8000_0000;
      Running(SetT(cpu.(upper := WithSrBit(WithSrBit(cpu.upper, 8, q), 9, d)), q != d))
    else if low == 8 then Running(SetT(cpu, AndWord(a, b) == 0))
    else if low == 9 then Running(Put(cpu, n, AndWord(a, b)))
    else if low == 10 then Running(Put(cpu, n, XorWord(a, b)))
    else if low == 11 then Running(Put(cpu, n, OrWord(a, b)))
    else if low == 12 then                                          // CMP/STR
      Running(SetT(cpu, a % 0x100 == b % 0x100 || a / 0x100 % 0x100 == b / 0x100 % 0x100 ||
                        a / 0x1_0000 % 0x100 == b / 0x1_0000 % 0x100 || a / 0x100_0000 == b / 0x100_0000))
    else if low == 13 then Running(Put(cpu, n, Wrap(b * 0x1_0000 + a / 0x1_0000)))  // XTRCT
    else if low == 14 then Running(cpu.(macl := Wrap((a % 0x1_0000) * (b % 0x1_0000))))
    else if low == 15 then
      Running(cpu.(macl := Wrap(Signed16(a % 0x1_0000) * Signed16(b % 0x1_0000))))
    else Fault
  }

  function Exec3(op: Opcode, cpu: Cpu): Outcome {
    var n, m, low := op.n, op.m, op.low;
    var a, b, t := cpu.r[n], cpu.r[m], TBit(cpu);
    if low == 0 then Running(SetT(cpu, a == b))
    else if low == 2 then Running(SetT(cpu, a >= b))
    else if low == 3 then Running(SetT(cpu, Signed32(a) >= Signed32(b)))
    else if low == 4 then Divide1(cpu, n, m)
    else if low == 5 then Running(cpu.(mach := Wrap(a * b / 0x1_0000_0000), macl := Wrap(a * b)))
    else if low == 6 then Running(SetT(cpu, a > b))
    else if low == 7 then Running(SetT(cpu, Signed32(a) > Signed32(b)))
    else if low == 8 then Running(Put(cpu, n, Wrap(a - b)))
    else if low == 10 then Running(SetT(Put(cpu, n, Wrap(a - b - t)), a - b - t < 0))
    else if low == 11 then
      var d := Signed32(a) - Signed32(b);
      Running(SetT(Put(cpu, n, Wrap(a - b)), !(-0x8000_0000 <= d < 0x8000_0000)))
    else if low == 12 then Running(Put(cpu, n, Wrap(a + b)))
    else if low == 13 then
      var p := Signed32(a) * Signed32(b);
      Running(cpu.(mach := Wrap(p / 0x1_0000_0000), macl := Wrap(p)))
    else if low == 14 then Running(SetT(Put(cpu, n, Wrap(a + b + t)), a + b + t >= 0x1_0000_0000))
    else if low == 15 then
      var s := Signed32(a) + Signed32(b);
      Running(SetT(Put(cpu, n, Wrap(a + b)), !(-0x8000_0000 <= s < 0x8000_0000)))
    else Fault
  }

  /** One step of the non-restoring division: shift T in, then add or subtract by Q == M. */
  function Divide1(cpu: Cpu, n: Nibble, m: Nibble): Outcome {
    var q0, md := SrBit(cpu.upper, 8), SrBit(cpu.upper, 9);
    var q1 := cpu.r[n] >= 0x8000_0000;
    var shifted := Wrap(2 * cpu.r[n] + TBit(cpu));
    var value := if q0 == md then shifted - cpu.r[m] else shifted + cpu.r[m];
    var carried := value < 0 || value >= 0x1_0000_0000;
    var q := (q1 != carried) != md;
    var after := Put(cpu, n, Wrap(value));
    Running(SetT(after.(upper := WithSrBit(cpu.upper, 8, q)), q == md))
  }

  function Exec4(op: Opcode, cpu: Cpu): Outcome {
    var n, m, low := op.n, op.m, op.low;
    var a, t := cpu.r[n], TBit(cpu);
    if low == 0 then
      if m == 0 || m == 2 then Running(SetT(Put(cpu, n, Wrap(2 * a)), a >= 0x8000_0000))
      else if m == 1 then Running(SetT(Put(cpu, n, Wrap(a - 1)), a == 1))
      else Fault
    else if low == 1 then
      if m == 0 then Running(SetT(Put(cpu, n, a / 2), a % 2 == 1))
      else if m == 1 then Running(SetT(cpu, Signed32(a) >= 0))
      else if m == 2 then Running(SetT(Put(cpu, n, Wrap(Signed32(a) / 2)), a % 2 == 1))
      else Fault
    else if low == 2 then
      match PushedRegister(m, cpu) case None => Fault case Some(v) => PushTo(cpu, n, v, 4)
    else if low == 3 then
      match PushedControl(m, cpu) case None => Fault case Some(v) => PushTo(cpu, n, v, 4)
    else if low == 4 then
      if m == 0 then Running(SetT(Put(cpu, n, Wrap(2 * a + a / 0x8000_0000)), a >= 0x8000_0000))
      else if m == 2 then Running(SetT(Put(cpu, n, Wrap(2 * a + t)), a >= 0x8000_0000))
      else Fault
    else if low == 5 then
      if m == 0 then Running(SetT(Put(cpu, n, Wrap(a / 2 + a % 2 * 0x8000_0000)), a % 2 == 1))
      else if m == 1 then Running(SetT(cpu, Signed32(a) > 0))
      else if m == 2 then Running(SetT(Put(cpu, n, Wrap(a / 2 + t * 0x8000_0000)), a % 2 == 1))
      else Fault
    else if low == 6 || low == 7 then
      (match Load(cpu.mem, a, 4)
       case None => Fault
       case Some(v) =>
         var popped := Put(cpu, n, Wrap(a + 4));
         if low == 6 then SetRegister(m, popped, v) else SetControl(m, popped, v))
    else if low == 8 then
      if m == 0 then Running(Put(cpu, n, Wrap(4 * a)))
      else if m == 1 then Running(Put(cpu, n, Wrap(0x100 * a)))
      else if m == 2 then Running(Put(cpu, n, Wrap(0x1_0000 * a)))
      else Fault
    else if low == 9 then
      if m == 0 then Running(Put(cpu, n, a / 4))
      else if m == 1 then Running(Put(cpu, n, a / 0x100))
      else if m == 2 then Running(Put(cpu, n, a / 0x1_0000))
      else Fault
    else if low == 10 then SetRegister(m, cpu, a)
    else if low == 11 then
      if m == 1 then                                                // TAS.B
        match Load(cpu.mem, a, 1)
        case None => Fault
        case Some(v) => StoreFrom(SetT(cpu, v == 0), a, OrWord(v, 0x80), 1)
      else Fault
    else if low == 12 then Running(Put(cpu, n, ShiftDynamic(cpu.r[m], a, true)))
    else if low == 13 then Running(Put(cpu, n, ShiftDynamic(cpu.r[m], a, false)))
    else if low == 14 then SetControl(m, cpu, a)
    else Accumulate(cpu, n, m, 2)
  }

  /** SHAD and SHLD: a negative count shifts right, arithmetically when asked. */
  function ShiftDynamic(count: Word, a: Word, arithmetic: bool): Word {
    if count < 0x8000_0000 then Wrap(a * Pow2(count % 32))
    else if count % 32 == 0 then (if arithmetic && a >= 0x8000_0000 then 0xffff_ffff else 0)
    else if arithmetic then Wrap(Signed32(a) / Pow2(32 - count % 32))
    else Wrap(a / Pow2(32 - count % 32))
  }

  /** STS.L sources, by the third digit. */
  function PushedRegister(m: Nibble, cpu: Cpu): Option<Word> {
    if m == 0 then Some(cpu.mach) else if m == 1 then Some(cpu.macl)
    else if m == 2 then Some(cpu.pr) else if m == 3 then Some(cpu.sgr)
    else if m == 5 then Some(cpu.fpul) else if m == 6 then Some(cpu.fpscr)
    else if m == 15 then Some(cpu.dbr) else None
  }

  /** STC.L sources, by the third digit. */
  function PushedControl(m: Nibble, cpu: Cpu): Option<Word> {
    if m == 0 then Some(Sr(cpu)) else if m == 1 then Some(cpu.gbr)
    else if m == 2 then Some(cpu.vbr) else if m == 3 then Some(cpu.ssr)
    else if m == 4 then Some(cpu.spc)
    else if m >= 8 then Some(cpu.bank[m - 8]) else None
  }

  /** LDS targets, by the third digit. */
  function SetRegister(m: Nibble, cpu: Cpu, v: Word): Outcome {
    if m == 0 then Running(cpu.(mach := v)) else if m == 1 then Running(cpu.(macl := v))
    else if m == 2 then Running(cpu.(pr := v))
    else if m == 5 then Running(cpu.(fpul := v)) else if m == 6 then Running(cpu.(fpscr := v))
    else if m == 15 then Running(cpu.(dbr := v)) else Fault
  }

  /** LDC targets, by the third digit. */
  function SetControl(m: Nibble, cpu: Cpu, v: Word): Outcome {
    if m == 0 then Running(SetSr(cpu, v)) else if m == 1 then Running(cpu.(gbr := v))
    else if m == 2 then Running(cpu.(vbr := v)) else if m == 3 then Running(cpu.(ssr := v))
    else if m == 4 then Running(cpu.(spc := v))
    else if m >= 8 then Running(cpu.(bank := cpu.bank[m - 8 := v])) else Fault
  }

  function Exec6(op: Opcode, cpu: Cpu): Outcome {
    var n, m, low := op.n, op.m, op.low;
    var b, t := cpu.r[m], TBit(cpu);
    if low in {0, 1, 2} then LoadTo(cpu, n, b, Size(low))
    else if low == 3 then Running(Put(cpu, n, b))
    else if low in {4, 5, 6} then
      LoadTo(if n == m then cpu else Put(cpu, m, Wrap(b + Size(low))), n, b, Size(low))
    else if low == 7 then Running(Put(cpu, n, 0xffff_ffff - b))
    else if low == 8 then Running(Put(cpu, n, Wrap(b / 0x1_0000 * 0x1_0000 + b % 0x100 * 0x100 + b / 0x100 % 0x100)))
    else if low == 9 then Running(Put(cpu, n, Wrap(b * 0x1_0000 + b / 0x1_0000)))
    else if low == 10 then Running(SetT(Put(cpu, n, Wrap(0 - b - t)), b + t != 0))
    else if low == 11 then Running(Put(cpu, n, Wrap(0 - b)))
    else if low == 12 then Running(Put(cpu, n, b % 0x100))
    else if low == 13 then Running(Put(cpu, n, b % 0x1_0000))
    else if low == 14 then Running(Put(cpu, n, Extend(b, 1)))
    else Running(Put(cpu, n, Extend(b, 2)))
  }

  function Exec8(op: Opcode, cpu: Cpu): Outcome {
    if op.n == 0 then StoreFrom(cpu, Wrap(cpu.r[op.m] + op.low), cpu.r[0], 1)
    else if op.n == 1 then StoreFrom(cpu, Wrap(cpu.r[op.m] + 2 * op.low), cpu.r[0], 2)
    else if op.n == 4 then LoadTo(cpu, 0, Wrap(cpu.r[op.m] + op.low), 1)
    else if op.n == 5 then LoadTo(cpu, 0, Wrap(cpu.r[op.m] + 2 * op.low), 2)
    else if op.n == 8 then Running(SetT(cpu, cpu.r[0] == Wrap(Signed8(op.Imm8()))))
    else Fault
  }

  function ExecC(op: Opcode, cpu: Cpu): Outcome {
    var i, z, n := op.Imm8(), cpu.r[0], op.n;
    if n in {0, 1, 2} then StoreFrom(cpu, Wrap(cpu.gbr + i * Size(n)), z, Size(n))
    else if n in {4, 5, 6} then LoadTo(cpu, 0, Wrap(cpu.gbr + i * Size(n)), Size(n))
    else if n == 8 then Running(SetT(cpu, AndWord(z, i) == 0))
    else if n == 9 then Running(Put(cpu, 0, AndWord(z, i)))
    else if n == 10 then Running(Put(cpu, 0, XorWord(z, i)))
    else if n == 11 then Running(Put(cpu, 0, OrWord(z, i)))
    else if n >= 12 then
      var a := Wrap(cpu.gbr + z);
      match Load(cpu.mem, a, 1)
      case None => Fault
      case Some(v) =>
        if n == 12 then Running(SetT(cpu, AndWord(v, i) == 0))
        else StoreFrom(cpu, a, if n == 13 then AndWord(v, i) else if n == 14 then XorWord(v, i) else OrWord(v, i), 1)
    else Fault
  }

  /** Every integer instruction that neither branches nor reads relative to pc. */
  function Exec(op: Opcode, cpu: Cpu): Outcome {
    match op.top
    case 0 => Exec0(op, cpu)
    case 1 => StoreFrom(cpu, Wrap(cpu.r[op.n] + 4 * op.low), cpu.r[op.m], 4)
    case 2 => Exec2(op, cpu)
    case 3 => Exec3(op, cpu)
    case 4 => Exec4(op, cpu)
    case 5 => LoadTo(cpu, op.n, Wrap(cpu.r[op.m] + 4 * op.low), 4)
    case 6 => Exec6(op, cpu)
    case 7 => Running(Put(cpu, op.n, Wrap(cpu.r[op.n] + Signed8(op.Imm8()))))
    case 8 => Exec8(op, cpu)
    case 12 => ExecC(op, cpu)
    case 14 => Running(Put(cpu, op.n, Wrap(Signed8(op.Imm8()))))
    case _ => Fault
  }

  // Dispatch on the leading digit, stated apart so that a proof about one
  // instruction need not consider the others.

  lemma Dispatch0(op: Opcode, cpu: Cpu)
    requires op.top == 0
    ensures Exec(op, cpu) == Exec0(op, cpu)
  {
    hide Exec0, Exec2, Exec3, Exec4, Exec6, Exec8, ExecC, StoreFrom, LoadTo;
  }

  lemma Dispatch2(op: Opcode, cpu: Cpu)
    requires op.top == 2
    ensures Exec(op, cpu) == Exec2(op, cpu)
  {
    hide Exec0, Exec2, Exec3, Exec4, Exec6, Exec8, ExecC, StoreFrom, LoadTo;
  }

  lemma Dispatch3(op: Opcode, cpu: Cpu)
    requires op.top == 3
    ensures Exec(op, cpu) == Exec3(op, cpu)
  {
    hide Exec0, Exec2, Exec3, Exec4, Exec6, Exec8, ExecC, StoreFrom, LoadTo;
  }

  lemma Dispatch4(op: Opcode, cpu: Cpu)
    requires op.top == 4
    ensures Exec(op, cpu) == Exec4(op, cpu)
  {
    hide Exec0, Exec2, Exec3, Exec4, Exec6, Exec8, ExecC, StoreFrom, LoadTo;
  }

  lemma Dispatch6(op: Opcode, cpu: Cpu)
    requires op.top == 6
    ensures Exec(op, cpu) == Exec6(op, cpu)
  {
    hide Exec0, Exec2, Exec3, Exec4, Exec6, Exec8, ExecC, StoreFrom, LoadTo;
  }

  lemma Dispatch8(op: Opcode, cpu: Cpu)
    requires op.top == 8
    ensures Exec(op, cpu) == Exec8(op, cpu)
  {
    hide Exec0, Exec2, Exec3, Exec4, Exec6, Exec8, ExecC, StoreFrom, LoadTo;
  }

  lemma DispatchC(op: Opcode, cpu: Cpu)
    requires op.top == 12
    ensures Exec(op, cpu) == ExecC(op, cpu)
  {
    hide Exec0, Exec2, Exec3, Exec4, Exec6, Exec8, ExecC, StoreFrom, LoadTo;
  }

  lemma Dispatch1(op: Opcode, cpu: Cpu)
    requires op.top == 1
    ensures Exec(op, cpu) == StoreFrom(cpu, Wrap(cpu.r[op.n] + 4 * op.low), cpu.r[op.m], 4)
  {
    hide Exec0, Exec2, Exec3, Exec4, Exec6, Exec8, ExecC, StoreFrom, LoadTo;
  }

  lemma Dispatch5(op: Opcode, cpu: Cpu)
    requires op.top == 5
    ensures Exec(op, cpu) == LoadTo(cpu, op.n, Wrap(cpu.r[op.m] + 4 * op.low), 4)
  {
    hide Exec0, Exec2, Exec3, Exec4, Exec6, Exec8, ExecC, StoreFrom, LoadTo;
  }

  lemma Dispatch7(op: Opcode, cpu: Cpu)
    requires op.top == 7
    ensures Exec(op, cpu) == Running(Put(cpu, op.n, Wrap(cpu.r[op.n] + Signed8(op.Imm8()))))
  {
    hide Exec0, Exec2, Exec3, Exec4, Exec6, Exec8, ExecC, StoreFrom, LoadTo;
  }

  lemma DispatchE(op: Opcode, cpu: Cpu)
    requires op.top == 14
    ensures Exec(op, cpu) == Running(Put(cpu, op.n, Wrap(Signed8(op.Imm8()))))
  {
    hide Exec0, Exec2, Exec3, Exec4, Exec6, Exec8, ExecC, StoreFrom, LoadTo;
  }

  // ---------- code ----------

  function CodeByte(code: Code, a: int): Option<Byte> {
    if Physical(a) in code then Some(code[Physical(a)]) else None
  }

  function Fetch(code: Code, a: int): Option<Opcode> {
    var first, second := CodeByte(code, a), CodeByte(code, a + 1);
    if first.Some? && second.Some? then Some(OpcodeOf(first.value, second.value)) else None
  }

  function LongOf(b0: Byte, b1: Byte, b2: Byte, b3: Byte): Word {
    b0 + 0x100 * b1 + 0x1_0000 * b2 + 0x100_0000 * b3
  }

  function FetchLong(code: Code, a: int): Option<Word> {
    var b0, b1, b2, b3 := CodeByte(code, a), CodeByte(code, a + 1), CodeByte(code, a + 2), CodeByte(code, a + 3);
    if b0.Some? && b1.Some? && b2.Some? && b3.Some?
    then Some(LongOf(b0.value, b1.value, b2.value, b3.value)) else None
  }

  function LiteralAddress(pc: int, op: Opcode): int {
    (pc + 4) / 4 * 4 + 4 * op.Imm8()
  }

  /** Instructions outside control flow, including the three pc-relative ones. */
  function Plain(code: Code, op: Opcode, pc: int, cpu: Cpu): Outcome {
    if op.top == 9 then
      match Fetch(code, pc + 4 + 2 * op.Imm8())
      case None => Fault
      case Some(h) => Running(Put(cpu, op.n, Wrap(Signed16(4096 * h.top + h.Disp12()))))
    else if op.top == 13 then
      match FetchLong(code, LiteralAddress(pc, op))
      case None => Fault
      case Some(v) => Running(Put(cpu, op.n, v))
    else if PcRelative(op) then Running(Put(cpu, 0, Wrap(LiteralAddress(pc, op))))
    else Exec(op, cpu)
  }

  lemma HalfLoad(code: Code, op: Opcode, pc: int, cpu: Cpu, h: Opcode)
    requires op.top == 9 && Fetch(code, pc + 4 + 2 * op.Imm8()) == Some(h)
    ensures Plain(code, op, pc, cpu) == Running(Put(cpu, op.n, Wrap(Signed16(4096 * h.top + h.Disp12()))))
  {
    hide Fetch, FetchLong, LiteralAddress, Exec, Put, Wrap, Signed16, Opcode.Disp12, Opcode.Imm8;
  }

  // ---------- control flow ----------

  /** Where a branch goes; condition and target are both sampled before its slot. */
  function Target(op: Opcode, pc: Word, cpu: Cpu): Option<Word>
    requires Branches(op)
  {
    var next := pc + 4;
    if op.top == 10 || op.top == 11 then Some(Wrap(next + 2 * op.SignedDisp12()))
    else if op.top == 4 then Some(cpu.r[op.n])
    else if ShortBranch(op) then
      var taken := cpu.t == (op.n in {9, 13});
      Some(Wrap(if taken then next + 2 * Signed8(op.Imm8()) else if op.n in {13, 15} then next else pc + 2))
    else if op == Opcode(0, 0, 0, 11) then Some(cpu.pr)
    else if op.Imm8() in {0x03, 0x23} then Some(Wrap(next + cpu.r[op.n]))
    else None                                                        // RTE
  }

  function Linked(op: Opcode, pc: Word, cpu: Cpu): Cpu {
    if Calls(op) then cpu.(pr := Plus(pc, 4)) else cpu
  }

  /** The delay slot of a branch, or nothing for BT and BF. */
  function RunSlot(code: Code, op: Opcode, pc: Word, cpu: Cpu): Outcome
    requires Branches(op)
  {
    if !DelayedBranch(op) then Running(cpu)
    else match Fetch(code, pc + 2)
      case None => Fault
      case Some(slot) => if SlotIllegal(slot) then Fault else Exec(slot, cpu)
  }

  function Arrive(pc: Word, outcome: Outcome): Option<State> {
    match outcome
    case Fault => None
    case Running(cpu) => Some(State(pc, cpu))
  }

  function Step(code: Code, s: State): Option<State> {
    match Fetch(code, s.pc)
    case None => None
    case Some(op) =>
      if !Branches(op) then Arrive(Plus(s.pc, 2), Plain(code, op, s.pc, s.cpu))
      else
        var target := Target(op, s.pc, s.cpu);
        if target.None? then None
        else Arrive(target.value, RunSlot(code, op, s.pc, Linked(op, s.pc, s.cpu)))
  }

  function Steps(code: Code, s: State, count: nat): Option<State>
    decreases count
  {
    if count == 0 then Some(s)
    else match Step(code, s)
      case None => None
      case Some(next) => Steps(code, next, count - 1)
  }

  ghost predicate Reaches(code: Code, before: State, after: State) {
    exists count: nat :: Steps(code, before, count) == Some(after)
  }

  lemma {:induction false} StepsCompose(code: Code, s: State, first: nat, second: nat)
    requires Steps(code, s, first).Some?
    ensures Steps(code, s, first + second) == Steps(code, Steps(code, s, first).value, second)
    decreases first
  {
    hide Step;
    if first > 0 {
      StepsCompose(code, Step(code, s).value, first - 1, second);
    }
  }

  lemma ReachesCompose(code: Code, a: State, b: State, c: State)
    requires Reaches(code, a, b) && Reaches(code, b, c)
    ensures Reaches(code, a, c)
  {
    hide Step;
    var first: nat :| Steps(code, a, first) == Some(b);
    var second: nat :| Steps(code, b, second) == Some(c);
    StepsCompose(code, a, first, second);
    assert Steps(code, a, first + second) == Some(c);
  }

  lemma ReachesStep(code: Code, a: State, b: State)
    requires Step(code, a) == Some(b)
    ensures Reaches(code, a, b)
  {
    hide Step;
    assert Steps(code, b, 0) == Some(b);
    assert Steps(code, a, 1) == Some(b);
  }

  lemma ReachesSelf(code: Code, a: State)
    ensures Reaches(code, a, a)
  {
    assert Steps(code, a, 0) == Some(a);
  }

  lemma StepPlain(code: Code, s: State, op: Opcode)
    requires Fetch(code, s.pc) == Some(op) && !Branches(op)
    ensures Step(code, s) == Arrive(Plus(s.pc, 2), Plain(code, op, s.pc, s.cpu))
  {
    hide Branches, Plain, Fetch;
  }

  /** BT and BF: no slot, the flag decides. */
  lemma StepShort(code: Code, s: State, op: Opcode)
    requires Fetch(code, s.pc) == Some(op) && op.top == 8 && op.n in {9, 11}
    ensures Step(code, s) == Some(s.(pc :=
      if s.cpu.t == (op.n == 9) then Plus(s.pc, 4 + 2 * Signed8(op.Imm8())) else Plus(s.pc, 2)))
  {
    hide Plain, Fetch, Exec;
  }

  /** JMP and JSR: the register is read first, then the slot runs. */
  lemma StepJump(code: Code, s: State, op: Opcode, slot: Opcode)
    requires Fetch(code, s.pc) == Some(op) && op.top == 4 && op.Imm8() in {0x0b, 0x2b}
    requires Fetch(code, s.pc + 2) == Some(slot) && !SlotIllegal(slot)
    ensures Step(code, s) == Arrive(s.cpu.r[op.n],
      Exec(slot, if op.Imm8() == 0x0b then s.cpu.(pr := Plus(s.pc, 4)) else s.cpu))
  {
    hide Plain, Fetch, Exec, SlotIllegal;
  }
}
