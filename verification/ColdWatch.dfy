/** The watched cold installer: what every run of `run_cold` keeps about the one reserve
    word it publishes, the cache line that carries it, and the lease word. */
module ColdWatch {
  import opened Words
  import opened Opcodes
  import opened ColdCpu
  import opened ScanBlocks

  // ---------- bytes ----------

  /** A word is the sum of its four bytes. */
  lemma FourBytes(value: nat)
    requires value < 0x1_0000_0000
    ensures value == value % 0x100 + 0x100 * (value / 0x100 % 0x100) + 0x1_0000 * (value / 0x1_0000 % 0x100)
                     + 0x100_0000 * (value / 0x100_0000 % 0x100)
  {
    assert value / 0x1_0000 == value / 0x100 / 0x100;
    assert value / 0x100_0000 == value / 0x1_0000 / 0x100;
  }

  lemma BytesPlaced(mem: Ram, at: int, b0: Byte, b1: Byte, b2: Byte, b3: Byte)
    ensures var m := mem[at := b0][at + 1 := b1][at + 2 := b2][at + 3 := b3];
      ByteAt(m, at) == b0 && ByteAt(m, at + 1) == b1 && ByteAt(m, at + 2) == b2 && ByteAt(m, at + 3) == b3
  {
  }

  lemma ScatterGather(mem: Ram, at: int, value: nat)
    requires value < 0x1_0000_0000
    ensures Gather(Scatter(mem, at, value, 4), at, 4) == value
  {
    hide ByteAt;
    FourBytes(value);
    BytesPlaced(mem, at, value % 0x100, value / 0x100 % 0x100, value / 0x1_0000 % 0x100, value / 0x100_0000 % 0x100);
  }

  /** Bytes outside a store keep their word. */
  lemma ScatterElsewhere(mem: Ram, at: int, value: nat, count: int, word: int)
    requires count in {1, 2, 4} && (at + count <= word || word + 4 <= at)
    ensures Gather(Scatter(mem, at, value, count), word, 4) == Gather(mem, word, 4)
  {
    hide ByteAt;
    var b0, b1, b2, b3 := value % 0x100, value / 0x100 % 0x100, value / 0x1_0000 % 0x100, value / 0x100_0000 % 0x100;
    ByteElsewhere(mem, at, b0, b1, b2, b3, word);
    ByteElsewhere(mem, at, b0, b1, b2, b3, word + 1);
    ByteElsewhere(mem, at, b0, b1, b2, b3, word + 2);
    ByteElsewhere(mem, at, b0, b1, b2, b3, word + 3);
  }

  lemma ByteElsewhere(mem: Ram, at: int, b0: Byte, b1: Byte, b2: Byte, b3: Byte, k: int)
    ensures k != at ==> ByteAt(mem[at := b0], k) == ByteAt(mem, k)
    ensures !(at <= k < at + 2) ==> ByteAt(mem[at := b0][at + 1 := b1], k) == ByteAt(mem, k)
    ensures !(at <= k < at + 4) ==> ByteAt(mem[at := b0][at + 1 := b1][at + 2 := b2][at + 3 := b3], k) == ByteAt(mem, k)
  {
  }

  // ---------- layout ----------

  predicate Clear(word: int, low: int, high: int) { word + 4 <= low || high <= word }

  /** A word outside everything stage code and the allocator may store to. */
  predicate WordClear(env: Profile, c: Core, word: int) {
    var header := Physical(env.heapBegin);
    var upper := header + env.leaseBytes + 32;
    var sentinel := Physical(env.sentinel);
    var stack := Physical(c.allocatorStack);
    && Clear(word, Physical(env.stageBegin), Physical(env.stageEnd))
    && Clear(word, header, header + 8) && Clear(word, upper, upper + 8)
    && Clear(word, sentinel, sentinel + 0x34) && Clear(word, stack - 16, stack)
  }

  function LeaseWord(env: Profile): int { Physical(env.control) + 12 }

  /** The reserve word lies in the program image, away from stage, allocator and control words;
      the lease word likewise, and the two do not touch. */
  predicate Layout(env: Profile, c: Core) {
    && WordClear(env, c, LeaseWord(env))
    && (c.slot.Some? ==>
          && WordClear(env, c, Physical(c.slot.value))
          && Clear(Physical(c.slot.value), Physical(env.control) + 8, Physical(env.control) + 16)
          && Wrap(c.slot.value) - Physical(c.slot.value) == 0x8000_0000)
  }

  function WordOf(c: Core, at: int): nat { Gather(c.mem, at, 4) }

  /** What an uncached reader sees in the reserve word. */
  function UncachedView(c: Core): nat
    requires c.slot.Some?
  {
    if c.dirty then c.ram else WordOf(c, Physical(c.slot.value))
  }

  /** The view is what `Read` returns at the word's uncached address. */
  lemma ViewIsRead(c: Core, address: int)
    requires c.slot.Some? && Wrap(address) - Physical(address) == 0xA000_0000
    requires Physical(address) == Physical(c.slot.value) && InRam(address, 4)
    ensures Read(c, address, 4) == Some(UncachedView(c))
  {
    hide Gather, Wrap, Physical;
  }

  // ---------- one store ----------

  /** A watched store either is the one publication, or leaves the reserve word and its record alone. */
  lemma StoreOnReserve(env: Profile, c: Core, byAllocator: bool, address: int, value: nat, count: int)
    requires count in {1, 2, 4} && c.watch && Layout(env, c) && c.slot.Some?
    requires Write(env, c, byAllocator, address, value, count).Some?
    ensures var after := Write(env, c, byAllocator, address, value, count).value;
      var word := Physical(c.slot.value);
      if !byAllocator && IsReserve(env, c, Physical(address), count) then
        && ReserveMay(c, address, value) && after.dirty && after.ram == WordOf(c, word)
        && after.reserveStores == [Store(c.slot.value, c.reserveAfter)]
        && after == c.(mem := after.mem, ram := after.ram, dirty := true, reserveStores := after.reserveStores,
             published := after.published)
        && (c.reserveAfter < 0x1_0000_0000 ==> WordOf(after, word) == c.reserveAfter)
      else
        WordOf(after, word) == WordOf(c, word)
        && after == c.(mem := after.mem, published := after.published)
  {
    hide Gather, Scatter, InRam, Wrap, Physical;
    var p := Physical(address);
    if !byAllocator && IsReserve(env, c, p, count) {
      if c.reserveAfter < 0x1_0000_0000 { ScatterGather(c.mem, p, value); }
    } else {
      ScatterElsewhere(c.mem, p, value, count, Physical(c.slot.value));
    }
  }

  /** After the worker handoff no watched store reaches the lease word. */
  lemma StoreOnLease(env: Profile, c: Core, byAllocator: bool, address: int, value: nat, count: int)
    requires count in {1, 2, 4} && c.watch && Layout(env, c) && c.passiveCalls > 0
    requires Write(env, c, byAllocator, address, value, count).Some?
    ensures var after := Write(env, c, byAllocator, address, value, count).value;
      WordOf(after, LeaseWord(env)) == WordOf(c, LeaseWord(env)) && after.published == c.published
  {
    hide Gather, Scatter, InRam, Wrap, Physical, Read;
    ScatterElsewhere(c.mem, Physical(address), value, count, LeaseWord(env));
  }

  /** Without a reserve slot no store is a publication. */
  lemma StoreWithoutSlot(env: Profile, c: Core, byAllocator: bool, address: int, value: nat, count: int)
    requires count in {1, 2, 4} && c.slot.None? && Write(env, c, byAllocator, address, value, count).Some?
    ensures var after := Write(env, c, byAllocator, address, value, count).value;
      after == c.(mem := after.mem, published := after.published)
  {
    hide Scatter, InRam, Physical, Read;
  }

  // ---------- one instruction ----------

  /** An instruction computes, stores once, or purges once. */
  ghost predicate Computes(c: Core, after: Core) {
    after == c.(r := after.r, sr := after.sr, pr := after.pr, macl := after.macl)
  }

  ghost predicate StoresOnce(env: Profile, c: Core, byAllocator: bool, after: Core) {
    exists r: Registers, address: int, value: nat, count: int ::
      count in {1, 2, 4} && Write(env, c.(r := r), byAllocator, address, value, count) == Some(after)
  }

  ghost predicate PurgesOnce(env: Profile, c: Core, after: Core) {
    exists address: nat :: Purge(env, c, address) == Some(after)
  }

  lemma LoadsCompute(c: Core, n: Nibble, m: Nibble, address: int, count: int)
    requires count in {1, 2, 4}
    ensures LoadInto(c, n, address, count).Some? ==> Computes(c, LoadInto(c, n, address, count).value)
    ensures PopInto(c, n, m, count).Some? ==> Computes(c, PopInto(c, n, m, count).value)
  {
    hide Read, Wrap, Signed, Plus;
  }

  lemma PushStores(env: Profile, c: Core, byAllocator: bool, n: Nibble, value: nat)
    ensures PushFrom(env, c, byAllocator, n, value).Some? ==>
      StoresOnce(env, c, byAllocator, PushFrom(env, c, byAllocator, n, value).value)
  {
    hide Write, Minus;
  }

  lemma WriteStores(env: Profile, c: Core, byAllocator: bool, address: int, value: nat, count: int)
    requires count in {1, 2, 4}
    ensures Write(env, c, byAllocator, address, value, count).Some? ==>
      StoresOnce(env, c, byAllocator, Write(env, c, byAllocator, address, value, count).value)
  {
    hide Write;
    assert c.(r := c.r) == c;
  }

  lemma ColdKinds(env: Profile, op: Opcode, pc: int, c: Core, after: Core)
    requires ColdCase(env, op, pc, c) == Some(Some(after))
    ensures Computes(c, after) || PurgesOnce(env, c, after)
  {
    hide ColdCase, Computes;
    if op.top == 3 || op.top == 4 { ColdArithmetic(env, op, pc, c, after); }
    else if op.top == 0 { ColdControl(env, op, pc, c, after); }
    else { ColdOthers(env, op, pc, c, after); }
  }

  lemma ColdArithmetic(env: Profile, op: Opcode, pc: int, c: Core, after: Core)
    requires ColdCase(env, op, pc, c) == Some(Some(after)) && op.top in {3, 4}
    ensures Computes(c, after)
  {
    hide LoadInto, Purge, Wrap, Signed, SwapBytes, Literal;
  }

  lemma ColdControl(env: Profile, op: Opcode, pc: int, c: Core, after: Core)
    requires ColdCase(env, op, pc, c) == Some(Some(after)) && op.top == 0
    ensures Computes(c, after) || PurgesOnce(env, c, after)
  {
    hide LoadInto, Purge, Wrap, Signed, SwapBytes, Literal;
  }

  lemma ColdOthers(env: Profile, op: Opcode, pc: int, c: Core, after: Core)
    requires ColdCase(env, op, pc, c) == Some(Some(after)) && op.top !in {0, 3, 4}
    ensures Computes(c, after)
  {
    hide LoadInto, Purge, Wrap, Signed, SwapBytes, Literal, Flag;
    if op.top == 8 { LoadsCompute(c, 0, 0, c.r[op.m] + op.low, 1); }
  }

  lemma ReleaseKinds(env: Profile, op: Opcode, c: Core, byAllocator: bool, after: Core)
    requires ReleaseCase(env, op, c, byAllocator) == Some(Some(after))
    ensures Computes(c, after) || StoresOnce(env, c, byAllocator, after)
  {
    hide StoresOnce, Computes, ReleaseCase;
    if op.top in {0, 2, 8} { ReleaseMemory(env, op, c, byAllocator, after); }
    else if op.top == 6 { ReleaseUnary(env, op, c, byAllocator, after); }
    else { ReleaseComputes(env, op, c, byAllocator, after); }
  }

  lemma ReleaseUnary(env: Profile, op: Opcode, c: Core, byAllocator: bool, after: Core)
    requires ReleaseCase(env, op, c, byAllocator) == Some(Some(after)) && op.top == 6
    ensures Computes(c, after)
  {
    hide LoadInto, PopInto, Write, Wrap, Signed, ShiftBy, Xor, And, Or, Plus, Signed8;
    LoadsCompute(c, op.n, op.m, c.r[op.m], if op.low == 5 then 2 else 1);
  }

  lemma ReleaseComputes(env: Profile, op: Opcode, c: Core, byAllocator: bool, after: Core)
    requires ReleaseCase(env, op, c, byAllocator) == Some(Some(after)) && op.top !in {0, 2, 6, 8}
    ensures Computes(c, after)
  {
    hide LoadInto, PopInto, Write, Wrap, Signed, ShiftBy, Xor, And, Or, Plus, Signed8;
  }

  lemma ReleaseMemory(env: Profile, op: Opcode, c: Core, byAllocator: bool, after: Core)
    requires ReleaseCase(env, op, c, byAllocator) == Some(Some(after)) && op.top in {0, 2, 8}
    ensures Computes(c, after) || StoresOnce(env, c, byAllocator, after)
  {
    hide LoadInto, PopInto, Write, StoresOnce, Wrap, Signed, ShiftBy, Xor, And, Or, Plus, Signed8;
    var a: nat, b: nat, z: nat := c.r[op.n], c.r[op.m], c.r[0];
    if op.top == 8 {
      if op.n == 0 { WriteStores(env, c, byAllocator, b + op.low, z, 1); }
      else if op.n == 1 { WriteStores(env, c, byAllocator, b + 2 * op.low, z, 2); }
      else if op.n == 5 { LoadsCompute(c, 0, 0, b + 2 * op.low, 2); }
    } else if op.top == 2 {
      if op.low == 0 { WriteStores(env, c, byAllocator, a, b, 1); }
    } else {
      if op.low == 5 { WriteStores(env, c, byAllocator, Plus(z, a), b, 2); }
      else { LoadsCompute(c, op.n, op.m, Plus(z, b), if op.low == 14 then 4 else 2); }
    }
  }

  /** The stores among the base instructions. */
  predicate BaseStore(op: Opcode) {
    op.top == 1 || (op.top == 2 && op.low in {1, 2, 6}) || (op.top == 4 && op.Imm8() == 0x22)
  }

  lemma BaseStores(env: Profile, op: Opcode, pc: int, c: Core, byAllocator: bool, after: Core)
    requires BaseCase(env, op, pc, c, byAllocator) == Some(after) && BaseStore(op)
    ensures StoresOnce(env, c, byAllocator, after)
  {
    hide LoadInto, PopInto, PushFrom, Write, StoresOnce, Wrap, Signed, Xor, And, Or, Plus, Signed8, Read, Literal, Flag;
    var a: nat, b: nat := c.r[op.n], c.r[op.m];
    if op.top == 1 { WriteStores(env, c, byAllocator, a + 4 * op.low, b, 4); }
    else if op.top == 4 { PushStores(env, c, byAllocator, op.n, c.pr); }
    else if op.low == 6 { PushStores(env, c, byAllocator, op.n, if op.n == op.m then Minus(a, 4) else b); }
    else { WriteStores(env, c, byAllocator, a, b, if op.low == 2 then 4 else 2); }
  }

  lemma BaseLoads(env: Profile, op: Opcode, pc: int, c: Core, byAllocator: bool, after: Core)
    requires BaseCase(env, op, pc, c, byAllocator) == Some(after) && op.top in {5, 6, 9, 13}
    ensures Computes(c, after)
  {
    hide LoadInto, PopInto, PushFrom, Write, Wrap, Signed, Xor, And, Or, Plus, Signed8, Read, Literal, Flag;
    var b: nat := c.r[op.m];
    if op.top == 13 { LoadsCompute(c, op.n, op.m, Literal(pc, op), 4); }
    else if op.top == 9 { LoadsCompute(c, op.n, op.m, pc + 4 + 2 * op.Imm8(), 2); }
    else if op.top == 5 { LoadsCompute(c, op.n, op.m, b + 4 * op.low, 4); }
    else { LoadsCompute(c, op.n, op.m, b, if op.low == 1 then 2 else 4); }
  }

  lemma BaseShifts(env: Profile, op: Opcode, pc: int, c: Core, byAllocator: bool, after: Core)
    requires BaseCase(env, op, pc, c, byAllocator) == Some(after) && op.top == 4 && !BaseStore(op)
    ensures Computes(c, after)
  {
    hide LoadInto, PopInto, PushFrom, Write, Wrap, Signed, Xor, And, Or, Plus, Signed8, Read, Literal;
  }

  lemma BaseArithmetic(env: Profile, op: Opcode, pc: int, c: Core, byAllocator: bool, after: Core)
    requires BaseCase(env, op, pc, c, byAllocator) == Some(after) && !BaseStore(op) && op.top !in {4, 5, 6, 9, 13}
    ensures Computes(c, after)
  {
    hide LoadInto, PopInto, PushFrom, Write, Wrap, Signed, Xor, And, Or, Plus, Signed8, Read, Literal;
  }

  lemma BaseKinds(env: Profile, op: Opcode, pc: int, c: Core, byAllocator: bool, after: Core)
    requires BaseCase(env, op, pc, c, byAllocator) == Some(after)
    ensures Computes(c, after) || StoresOnce(env, c, byAllocator, after)
  {
    hide BaseCase, StoresOnce, Computes, BaseStore;
    if BaseStore(op) { BaseStores(env, op, pc, c, byAllocator, after); }
    else if op.top in {5, 6, 9, 13} { BaseLoads(env, op, pc, c, byAllocator, after); }
    else if op.top == 4 { BaseShifts(env, op, pc, c, byAllocator, after); }
    else { BaseArithmetic(env, op, pc, c, byAllocator, after); }
  }

  lemma EffectKinds(env: Profile, op: Opcode, pc: int, c: Core, byAllocator: bool, after: Core)
    requires Effect(env, op, pc, c, byAllocator) == Some(after)
    ensures Computes(c, after) || StoresOnce(env, c, byAllocator, after) || PurgesOnce(env, c, after)
  {
    hide ColdCase, ReleaseCase, BaseCase, Computes, StoresOnce, PurgesOnce;
    if ColdCase(env, op, pc, c).Some? { ColdKinds(env, op, pc, c, after); }
    else if ReleaseCase(env, op, c, byAllocator).Some? { ReleaseKinds(env, op, c, byAllocator, after); }
    else { BaseKinds(env, op, pc, c, byAllocator, after); }
  }

  // ---------- the invariant of every watched run ----------

  /** The reserve word is stored at most once, in its place in the protocol, and holds what was stored. */
  ghost predicate Kept(c: Core) {
    && c.watch && c.reserveAfter < 0x1_0000_0000
    && |c.reserveStores| <= 1
    && (c.dirty ==> c.reserveStores != [])
    && (c.publishCalls == 0 ==> c.slot.None? && c.reserveStores == [])
    && (c.book.budget.Some? || c.publishCalls > 0 ==> c.prepareCalls >= 1)
    && (c.reserveStores != [] ==> c.prepareCalls >= 1 && c.publishCalls >= 1 && c.ownerCalls >= 3)
    && (c.publishCalls == 1 && c.reserveStores != [] ==>
          && c.slot.Some? && c.reserveStores == [Store(c.slot.value, c.reserveAfter)]
          && WordOf(c, Physical(c.slot.value)) == c.reserveAfter)
  }

  /** What one move may do to the reserve word, its uncached view and the lease word. */
  ghost predicate Lawful(env: Profile, c: Core, after: Core) {
    && Kept(after)
    && c.slot == after.slot && c.reserveAfter == after.reserveAfter
    && c.publishCalls == after.publishCalls && c.passiveCalls == after.passiveCalls
    && c.prepareCalls == after.prepareCalls && c.ownerCalls == after.ownerCalls
    && c.allocatorStack == after.allocatorStack
    // Stored: only as the single publication, between the allocator calls and the handoff.
    && (c.slot.Some? && WordOf(after, Physical(c.slot.value)) != WordOf(c, Physical(c.slot.value)) ==>
          after.reserveStores != c.reserveStores)
    && (after.reserveStores != c.reserveStores ==>
          && c.reserveStores == [] && c.prepareCalls == 1 && c.publishCalls == 1 && c.ownerCalls == 3
          && c.passiveCalls == 0 && c.slot.Some? && after.reserveStores == [Store(c.slot.value, c.reserveAfter)])
    // Seen uncached: the old value until the purge, the published value from it on.
    && (c.slot.Some? && UncachedView(after) != UncachedView(c) ==>
          c.dirty && !after.dirty && (c.publishCalls == 1 ==> UncachedView(after) == c.reserveAfter))
    // Frozen: the lease word after the worker was entered.
    && (c.passiveCalls > 0 ==>
          WordOf(after, LeaseWord(env)) == WordOf(c, LeaseWord(env)) && after.published == c.published)
  }

  lemma ComputeLawful(env: Profile, c: Core, after: Core)
    requires Kept(c) && Computes(c, after)
    ensures Lawful(env, c, after)
  {
    hide Gather, Physical;
  }

  lemma StoreLawful(env: Profile, c: Core, byAllocator: bool, address: int, value: nat, count: int)
    requires Kept(c) && Layout(env, c) && count in {1, 2, 4}
    requires Write(env, c, byAllocator, address, value, count).Some?
    ensures Lawful(env, c, Write(env, c, byAllocator, address, value, count).value)
  {
    hide Gather, Physical, Write, Layout, IsReserve;
    if c.slot.Some? { StoreOnReserve(env, c, byAllocator, address, value, count); }
    else { StoreWithoutSlot(env, c, byAllocator, address, value, count); }
    if c.passiveCalls > 0 { StoreOnLease(env, c, byAllocator, address, value, count); }
  }

  lemma PurgeLawful(env: Profile, c: Core, address: nat)
    requires Kept(c) && Purge(env, c, address).Some?
    ensures Lawful(env, c, Purge(env, c, address).value)
    ensures c.dirty && !Purge(env, c, address).value.dirty
  {
    hide Gather, Physical, InRam;
  }

  /** Registers, flags and PR do not matter to any of it. */
  lemma LawfulFrom(env: Profile, c: Core, mid: Core, after: Core)
    requires Computes(c, mid) && Lawful(env, mid, after)
    ensures Lawful(env, c, after)
  {
    hide Gather, Physical, Kept;
  }

  /** Every instruction of every watched run is lawful. */
  lemma EffectLawful(env: Profile, op: Opcode, pc: int, c: Core, byAllocator: bool, after: Core)
    requires Kept(c) && Layout(env, c) && Effect(env, op, pc, c, byAllocator) == Some(after)
    ensures Lawful(env, c, after)
  {
    hide Effect, Write, Purge, Lawful, Gather, Physical;
    EffectKinds(env, op, pc, c, byAllocator, after);
    if Computes(c, after) { ComputeLawful(env, c, after); }
    else if PurgesOnce(env, c, after) {
      var address: nat :| Purge(env, c, address) == Some(after);
      PurgeLawful(env, c, address);
    } else {
      var r: Registers, address: int, value: nat, count: int :|
        count in {1, 2, 4} && Write(env, c.(r := r), byAllocator, address, value, count) == Some(after);
      StoreLawful(env, c.(r := r), byAllocator, address, value, count);
      LawfulFrom(env, c, c.(r := r), after);
    }
  }
}
