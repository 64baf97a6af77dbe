/** What the sink interpreter admits, exactly, and routines it accepts and refuses. */
module SinkAdmits {
  import opened Words
  import opened Opcodes
  import opened Sink

  /** The admitted halfwords without an access, by their masks. */
  predicate Computing(w: nat) {
    || w == 0x0009 || w / 0x1000 in {0x7, 0xe} || (w / 0x1000 == 0 && w % 0x10 == 7)
    || (w / 0x1000 == 0 && w % 0x100 == 0x1a) || (w / 0x1000 == 4 && w % 0x100 in {0x01, 0x10, 0x18})
    || (w / 0x1000 == 2 && w % 0x10 in {0x8, 0x9, 0xb}) || (w / 0x1000 == 3 && w % 0x10 in {0x8, 0xc})
    || (w / 0x1000 == 6 && w % 0x10 in {0x3, 0xc, 0xd}) || w / 0x100 in {0xc8, 0xc9}
  }

  /** The one access of an instruction: its width and address, and whether it stores. */
  datatype Access = Load(at: int, width: int) | Store(at: int, width: int) | Neither

  /** By mask again. */
  function AccessOf(w: nat, pc: int, s: State): Access
    requires w < 0x1_0000
  {
    var n: int, m: int := s.r[w / 0x100 % 0x10], s.r[w / 0x10 % 0x10];
    var low := w % 0x10;
    if w / 0x1000 == 9 then Load(pc + 4 + 2 * (w % 0x100), 2)
    else if w / 0x1000 == 6 && low in {0, 4} then Load(m, 1)
    else if w / 0x1000 == 6 && low == 1 then Load(m, 2)
    else if w / 0x1000 == 6 && low in {2, 6} then Load(m, 4)
    else if w / 0x100 == 0x84 then Load(m + low, 1)
    else if w / 0x1000 == 2 && low == 0 then Store(n, 1)
    else if w / 0x1000 == 2 && low == 1 then Store(n, 2)
    else if w / 0x1000 == 2 && low == 2 then Store(n, 4)
    else if w / 0x1000 == 2 && low == 6 then Store((n - 4) % 0x1_0000_0000, 4)
    else Neither
  }

  /** Every byte the access needs is there: a stack word already written, code, source or window. */
  ghost predicate Readable(k: Case, s: State, at: int, width: int)
    requires width in {1, 2, 4}
  {
    at % width == 0
    && ((width == 4 && at in s.stack)
        || (k.address <= at && at + width <= k.address + |k.code|)
        || forall a :: at <= a < at + width ==> a in s.memory)
  }

  /** One of the two stack words, or a halfword of the window. */
  predicate Storable(k: Case, at: int, width: int) {
    || (width == 4 && at in {STACK_TOP - 8, STACK_TOP - 4})
    || (width == 2 && at % 2 == 0 && k.count > 0 && InWindow(k, at) && InWindow(k, at + 1))
  }

  ghost predicate Allowed(k: Case, s: State, access: Access) {
    match access
    case Neither => false
    case Load(at, width) => width in {1, 2, 4} && Readable(k, s, at, width)
    case Store(at, width) => Storable(k, at, width)
  }

  lemma ReadExactly(k: Case, s: State, at: int, width: int)
    requires width in {1, 2, 4}
    ensures Read(k, s, at, width).Some? <==> Readable(k, s, at, width)
  {
    assert Readable(k, s, at, width) ==> at % width == 0;
  }

  lemma WriteExactly(k: Case, s: State, at: int, value: nat, width: int)
    requires width in {1, 2, 4} && Confined(k, s)
    ensures Write(k, s, at, value, width).Some? <==> Storable(k, at, width)
  {
    if width == 2 && at % 2 == 0 {
      WindowOwned(k, at);
    }
  }

  lemma WindowOwned(k: Case, at: int)
    requires at % 2 == 0
    ensures k.count > 0 && InWindow(k, at) ==> InWindow(k, at + 1)
    ensures k.count > 0 && InWindow(k, at) ==> at in InitialMemory(k) && at + 1 in InitialMemory(k)
    ensures k.count == 0 ==> at !in InitialMemory(k)
  {
  }

  /** An instruction is admitted exactly when its halfword is on the list, or its one access is allowed. */
  lemma AdmittedExactly(k: Case, op: Opcode, pc: int, s: State)
    requires Confined(k, s) && forall i: Nibble {:trigger s.r[i]} :: s.r[i] < 0x1_0000_0000
    ensures Plain(k, op, pc, s).Some? <==>
      (Computing(Number(op)) || Allowed(k, s, AccessOf(Number(op), pc, s)))
  {
    hide Confined, Readable, Storable, Read, Write, Number, Wrap, And, Or, Extend, Signed8;
    NumberFields(op);
    if op.top == 2 && op.low in {0, 1, 2, 6} {
      StoreAdmitted(k, op, pc, s);
    } else if op.top == 9 {
      ReadExactly(k, s, pc + 4 + 2 * op.Imm8(), 2);
    } else if op.top == 6 && op.low in {0, 1, 2, 4, 6} {
      ReadExactly(k, s, s.r[op.m], if op.low in {0, 4} then 1 else if op.low == 1 then 2 else 4);
    } else if op.top == 8 && op.n == 4 {
      ReadExactly(k, s, s.r[op.m] + op.low, 1);
    }
  }

  lemma StoreAdmitted(k: Case, op: Opcode, pc: int, s: State)
    requires op.top == 2 && op.low in {0, 1, 2, 6} && Confined(k, s) && s.r[op.n] < 0x1_0000_0000
    ensures Plain(k, op, pc, s).Some? <==> Allowed(k, s, AccessOf(Number(op), pc, s))
  {
    hide Confined, Storable, Write, Number, Plain, Wrap;
    NumberFields(op);
    PlainStores(k, op, pc, s);
    var n: int := s.r[op.n];
    WrapIsMod(n - 4);
    var base := if op.low == 6 then s.(r := s.r[op.n := Minus(s.r[op.n], 4)]) else s;
    ComputesConfined(k, s, base);
    WriteExactly(k, base, base.r[op.n], base.r[op.m], if op.low == 0 then 1 else if op.low == 1 then 2 else 4);
  }

  // ---------- the verdict ----------

  /** The final checks hold exactly when the copy promise does. */
  lemma AcceptedExactly(k: Case, s: State)
    requires Apart(k) && Confined(k, s)
    ensures Accepted(k, s) <==> Copied(k, s)
  {
    hide InitialMemory, Expected, Confined, InitialRegisters, InWindow;
    if Accepted(k, s) { AcceptedCopies(k, s); }
    if Copied(k, s) {
      forall at | k.destination <= at < k.destination + k.count
        ensures at in s.memory && s.memory[at] == Expected(at - k.destination)
      {
        assert ByteCopied(k, s, at - k.destination);
      }
      if k.count > 0 { EdgesFilled(k, s); }
    }
  }

  lemma EdgesFilled(k: Case, s: State)
    requires k.count > 0 && OthersIntact(k, s)
    ensures k.destination % 2 == 1 ==> k.destination - 1 in s.memory && s.memory[k.destination - 1] == FILL
    ensures (k.destination + k.count) % 2 == 1 ==>
      k.destination + k.count in s.memory && s.memory[k.destination + k.count] == FILL
  {
    hide InitialMemory;
    if k.destination % 2 == 1 { EdgeFilled(k, k.destination - 1); }
    if (k.destination + k.count) % 2 == 1 { EdgeFilled(k, k.destination + k.count); }
  }

  // ---------- the step limit ----------

  /** BRA to itself, with NOP in its slot. */
  const SPIN: seq<Byte> := [0xfe, 0xaf, 0x09, 0x00]

  lemma SpinTurn(k: Case, s: State)
    requires k.code == SPIN && s.pc == k.address
    ensures Step(k, s) == if s.steps < 10000 then Some(s.(steps := s.steps + 2)) else None
  {
  }

  /** A routine that never returns gets exactly five thousand turns of two instructions. */
  lemma {:induction false} SpinsExactly(k: Case, s: State, turns: nat)
    requires k.code == SPIN && s.pc == k.address && s.steps % 2 == 0 && s.steps <= 10000
    ensures StepN(k, s, turns).Some? <==> s.steps + 2 * turns <= 10000
    decreases turns
  {
    hide Step;
    SpinTurn(k, s);
    if turns > 0 && s.steps < 10000 { SpinsExactly(k, s.(steps := s.steps + 2), turns - 1); }
  }

  // ---------- a routine that is accepted ----------

  /** Two bytes from @R5+, joined in R1, stored with one halfword to @R4. */
  const PAIR: seq<Byte> :=
    [0x54, 0x61, 0x50, 0x62, 0x1c, 0x61, 0x2c, 0x62, 0x18, 0x42, 0x2b, 0x21, 0x11, 0x24, 0x0b, 0x00, 0x09, 0x00]

  const PAIR_OPS: seq<Opcode> :=
    [Opcode(6, 1, 5, 4), Opcode(6, 2, 5, 0), Opcode(6, 1, 1, 12), Opcode(6, 2, 2, 12), Opcode(4, 2, 1, 8),
     Opcode(2, 1, 2, 11), Opcode(2, 4, 1, 1), Opcode(0, 0, 0, 11), NOP]

  /** Any case of two bytes to an even destination, with code and data apart. */
  ghost predicate PairCase(k: Case) {
    && k.code == PAIR && k.count == 2 && k.destination % 2 == 0 && Apart(k) && k.source + 2 < 0x1_0000_0000
    && (k.source + 2 <= k.address || k.address + 18 <= k.source)
    && !(k.address <= RETURN < k.address + 18)
  }

  lemma PairFetched(k: Case, i: nat)
    requires k.code == PAIR && i < 9
    ensures Fetch(k, k.address + 2 * i) == Some(PAIR_OPS[i])
  {
  }

  lemma PairTurn(k: Case, s: State, i: nat)
    requires PairCase(k) && i < 7 && s.pc == k.address + 2 * i && s.steps == i
    ensures Step(k, s) == At(Plain(k, PAIR_OPS[i], s.pc, s.(steps := i + 1)), s.pc + 2)
  {
    hide Plain, Fetch, Slot;
    PairFetched(k, i);
  }

  /** Registers R1, R2 and R5 after i instructions. */
  function PairState(k: Case, i: nat, r1: nat, r2: nat, r5: nat): State {
    Initial(k).(r := InitialRegisters(k)[1 := r1][2 := r2][5 := r5], pc := k.address + 2 * i, steps := i)
  }

  lemma PairRead(k: Case, s: State, i: nat)
    requires PairCase(k) && i < 2 && s.memory == InitialMemory(k)
    ensures Read(k, s, k.source + i, 1) == Some(if i == 0 then 7 else 116)
  {
    hide InitialMemory;
    InitialConfined(k);
    SourceKept(k, Initial(k), i);
  }

  lemma PairFirst(k: Case)
    requires PairCase(k)
    ensures Step(k, Initial(k)) == Some(PairState(k, 1, 7, Seed(2), k.source + 1))
    ensures Step(k, PairState(k, 1, 7, Seed(2), k.source + 1)) == Some(PairState(k, 2, 7, 116, k.source + 1))
  {
    hide Step, Read, InitialMemory, Wrap, PairCase;
    var s0, s1 := Initial(k), PairState(k, 1, 7, Seed(2), k.source + 1);
    PairTurn(k, s0, 0);
    PairTurn(k, s1, 1);
    PairRead(k, s0.(steps := 1), 0);
    PairRead(k, s1.(steps := 2), 1);
    Small(k);
    assert InitialRegisters(k)[5 := k.source + 1][1 := 7] == s1.r;
    assert s1.r[2 := 116] == PairState(k, 2, 7, 116, k.source + 1).r;
  }

  lemma Small(k: Case)
    requires PairCase(k)
    ensures Wrap(7) == 7 && Wrap(116) == 116 && Wrap(k.source + 1) == k.source + 1 && Wrap(0x7400) == 0x7400
    ensures k.address + 18 >= 18 && k.code == PAIR && k.count == 2 && k.destination % 2 == 0 && Apart(k)
  {
  }

  lemma PairMiddle(k: Case)
    requires PairCase(k)
    ensures Step(k, PairState(k, 2, 7, 116, k.source + 1)) == Some(PairState(k, 3, 7, 116, k.source + 1))
    ensures Step(k, PairState(k, 3, 7, 116, k.source + 1)) == Some(PairState(k, 4, 7, 116, k.source + 1))
    ensures Step(k, PairState(k, 4, 7, 116, k.source + 1)) == Some(PairState(k, 5, 7, 0x7400, k.source + 1))
    ensures Step(k, PairState(k, 5, 7, 0x7400, k.source + 1)) == Some(PairState(k, 6, 0x7407, 0x7400, k.source + 1))
  {
    hide Step, InitialMemory, Wrap, PairCase, Or;
    Small(k);
    PairTurn(k, PairState(k, 2, 7, 116, k.source + 1), 2);
    PairTurn(k, PairState(k, 3, 7, 116, k.source + 1), 3);
    PairTurn(k, PairState(k, 4, 7, 116, k.source + 1), 4);
    PairTurn(k, PairState(k, 5, 7, 0x7400, k.source + 1), 5);
    PairOr();
    var r := PairState(k, 2, 7, 116, k.source + 1).r;
    assert r[1 := 7] == r && r[2 := 116] == r;
    assert r[2 := 0x7400] == PairState(k, 5, 7, 0x7400, k.source + 1).r;
    assert PairState(k, 5, 7, 0x7400, k.source + 1).r[1 := 0x7407]
      == PairState(k, 6, 0x7407, 0x7400, k.source + 1).r;
  }

  lemma PairOr()
    ensures Or(7, 0x7400) == 0x7407
  {
    assert Or(0, 0x0e80) == 0x0e80 by {
      OrCommutes(0, 0x0e80);
      OrZero(0x0e80);
    }
    assert Or(1, 0x1d00) == 0x1d01;
    assert Or(3, 0x3a00) == 0x3a03;
  }

  function PairEnd(k: Case): State {
    PairState(k, 9, 0x7407, 0x7400, k.source + 1).(pc := RETURN, stores := [k.destination],
      memory := InitialMemory(k)[k.destination := 0x07][k.destination + 1 := 0x74])
  }

  lemma PairLast(k: Case)
    requires PairCase(k)
    ensures var stored := PairEnd(k).(pc := k.address + 14, steps := 7);
      && Step(k, PairState(k, 6, 0x7407, 0x7400, k.source + 1)) == Some(stored) && Step(k, stored) == Some(PairEnd(k))
  {
    hide Step, InitialMemory, Wrap, PairCase, InWindow;
    Small(k);
    var s := PairState(k, 6, 0x7407, 0x7400, k.source + 1);
    PairTurn(k, s, 6);
    PairWindow(k);
    assert s.r[4] == k.destination && s.r[1] == 0x7407;
    assert Plain(k, PAIR_OPS[6], s.pc, s.(steps := 7)) == Write(k, s.(steps := 7), k.destination, 0x7407, 2);
    assert [] + [k.destination] == [k.destination] && 0x7407 / 256 % 256 == 0x74;
    PairReturn(k, PairEnd(k).(pc := k.address + 14, steps := 7));
  }

  lemma PairWindow(k: Case)
    requires k.count == 2 && k.destination % 2 == 0
    ensures InWindow(k, k.destination) && Owned(InitialMemory(k), k.destination, 2)
  {
  }

  lemma PairReturn(k: Case, s: State)
    requires PairCase(k) && s.pc == k.address + 14 && s.steps == 7
    ensures Step(k, s) == Some(s.(pc := RETURN, steps := 9))
  {
    hide Fetch;
    PairFetched(k, 7);
    PairFetched(k, 8);
  }

  /** Whatever the addresses, the routine is accepted after nine instructions, with its one store. */
  lemma PairAccepted(k: Case)
    requires PairCase(k)
    ensures Finish(k, Initial(k)) == Some(PairEnd(k)) && Accepted(k, PairEnd(k))
  {
    hide Step, InitialMemory, PairCase;
    Small(k);
    PairFirst(k);
    PairMiddle(k);
    PairLast(k);
    PairPlaces(k);
    var stored := PairEnd(k).(pc := k.address + 14, steps := 7);
    Further(k, stored);
    Further(k, PairState(k, 6, 0x7407, 0x7400, k.source + 1));
    Further(k, PairState(k, 5, 7, 0x7400, k.source + 1));
    Further(k, PairState(k, 4, 7, 116, k.source + 1));
    Further(k, PairState(k, 3, 7, 116, k.source + 1));
    Further(k, PairState(k, 2, 7, 116, k.source + 1));
    Further(k, PairState(k, 1, 7, Seed(2), k.source + 1));
    Further(k, Initial(k));
    assert Finish(k, PairEnd(k)) == Some(PairEnd(k));
    assert PairEnd(k).r[8..] == InitialRegisters(k)[8..];
  }

  lemma PairPlaces(k: Case)
    requires PairCase(k)
    ensures RETURN !in {k.address, k.address + 2, k.address + 4, k.address + 6, k.address + 8, k.address + 10,
      k.address + 12, k.address + 14}
  {
  }

  lemma Further(k: Case, s: State)
    requires s.pc != RETURN && Step(k, s).Some?
    ensures Finish(k, s) == Finish(k, Step(k, s).value)
  {
    hide Step;
    StepCounts(k, s);
  }
}
