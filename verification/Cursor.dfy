/** Linked images, the audit cursor that walks them, and the bridge from
    "the audit accepted these items" to "the machine executes these items". */
module Cursor {
  import opened Words
  import opened Opcodes
  import opened Sh4

  /** One allocated, initialized section at its linked address. */
  datatype Section = Section(address: int, data: seq<Byte>)

  datatype Image = Image(sections: seq<Section>, symbols: map<string, Word>)

  function Owners(sections: seq<Section>, a: int, size: nat): (found: seq<Section>)
    ensures forall s <- found :: s in sections && s.address <= a && a + size <= s.address + |s.data|
  {
    if sections == [] then []
    else
      var s := sections[0];
      (if s.address <= a && a + size <= s.address + |s.data| then [s] else []) + Owners(sections[1..], a, size)
  }

  /** Bytes are readable only when exactly one section holds all of them. */
  function Bytes(image: Image, a: int, size: nat): (bytes: Option<seq<Byte>>)
    ensures bytes.Some? ==> |bytes.value| == size
  {
    var found := Owners(image.sections, a, size);
    if |found| != 1 then None
    else Some(found[0].data[a - found[0].address..a - found[0].address + size])
  }

  function Half(image: Image, a: int): Option<Opcode> {
    match Bytes(image, a, 2)
    case None => None
    case Some(b) => Some(OpcodeOf(b[0], b[1]))
  }

  function Long(image: Image, a: int): Option<Word> {
    match Bytes(image, a, 4)
    case None => None
    case Some(b) => Some(LongOf(b[0], b[1], b[2], b[3]))
  }

  /** What one cursor call demands of one halfword. */
  datatype Item = Op(op: Opcode) | Lit(register: Nibble, value: int)

  predicate ItemAt(image: Image, pc: int, item: Item) {
    match item
    case Op(op) => Half(image, pc) == Some(op)
    case Lit(register, value) =>
      var load := Half(image, pc);
      && load.Some? && load.value.top == 13 && load.value.n == register
      && var word := Long(image, LiteralAddress(pc, load.value));
         word.Some? && word.value == value
  }

  predicate Matches(image: Image, pc: int, items: seq<Item>) {
    forall i {:trigger items[i]} :: 0 <= i < |items| ==> ItemAt(image, pc + 2 * i, items[i])
  }

  lemma MatchesExtends(image: Image, pc: int, items: seq<Item>, i: nat)
    requires i < |items| && Matches(image, pc, items[..i]) && ItemAt(image, pc + 2 * i, items[i])
    ensures Matches(image, pc, items[..i + 1])
  {
    hide ItemAt;
    forall j | 0 <= j < i + 1 ensures ItemAt(image, pc + 2 * j, items[..i + 1][j]) {
      if j < i { assert items[..i][j] == items[j]; }
    }
  }

  datatype Witness = Witness(address: int, size: int)

  function WitnessesOf(image: Image, pc: int, item: Item): seq<Witness>
    requires ItemAt(image, pc, item)
  {
    match item
    case Op(_) => [Witness(pc, 2)]
    case Lit(_, _) => [Witness(pc, 2), Witness(LiteralAddress(pc, Half(image, pc).value), 4)]
  }

  function AllWitnesses(image: Image, pc: int, items: seq<Item>): seq<Witness>
    requires Matches(image, pc, items)
  {
    if items == [] then []
    else
      assert forall i {:trigger items[..|items| - 1][i]} :: 0 <= i < |items| - 1 ==>
        items[..|items| - 1][i] == items[i];
      AllWitnesses(image, pc, items[..|items| - 1])
      + WitnessesOf(image, pc + 2 * (|items| - 1), items[|items| - 1])
  }

  /** The other image has the witnessed bytes. */
  ghost predicate Shares(image: Image, other: Image, w: Witness) {
    w.size >= 0 && Bytes(other, w.address, w.size) == Bytes(image, w.address, w.size)
  }

  /** Witnesses are all a walk relies on: an image that shares their bytes matches too.  They are the halfword of
      every item and the word of every literal, and no more. */
  lemma {:induction false} WitnessesSuffice(image: Image, other: Image, pc: int, items: seq<Item>)
    requires Matches(image, pc, items)
    requires forall w :: w in AllWitnesses(image, pc, items) ==> Shares(image, other, w)
    ensures Matches(other, pc, items)
    ensures |AllWitnesses(image, pc, items)| == |items| + Literals(items)
    decreases |items|
  {
    hide ItemAt, Bytes;
    if items != [] {
      var n := |items| - 1;
      var before, last := items[..n], items[n];
      assert forall i :: 0 <= i < n ==> before[i] == items[i];
      assert ItemAt(image, pc + 2 * n, last);
      var all := AllWitnesses(image, pc, items);
      assert all == AllWitnesses(image, pc, before) + WitnessesOf(image, pc + 2 * n, last);
      WitnessesSuffice(image, other, pc, before);
      ItemSuffices(image, other, pc + 2 * n, last);
      forall i | 0 <= i < |items| ensures ItemAt(other, pc + 2 * i, items[i]) {
        if i < n { assert before[i] == items[i] && ItemAt(other, pc + 2 * i, before[i]); }
      }
    }
  }

  function Literals(items: seq<Item>): nat {
    if items == [] then 0 else Literals(items[..|items| - 1]) + (if items[|items| - 1].Lit? then 1 else 0)
  }

  lemma ItemSuffices(image: Image, other: Image, pc: int, item: Item)
    requires ItemAt(image, pc, item) && forall w :: w in WitnessesOf(image, pc, item) ==> Shares(image, other, w)
    ensures ItemAt(other, pc, item)
    ensures |WitnessesOf(image, pc, item)| == if item.Lit? then 2 else 1
    ensures WitnessesOf(image, pc, item)[0].size == 2 && (item.Lit? ==> WitnessesOf(image, pc, item)[1].size == 4)
  {
    hide Bytes, OpcodeOf, LongOf, LiteralAddress;
    var ws := WitnessesOf(image, pc, item);
    assert Shares(image, other, ws[0]);
    if item.Lit? { assert Shares(image, other, ws[1]); }
  }

  class Walker {
    const image: Image
    var pc: int
    var witnesses: seq<Witness>

    constructor (image: Image, pc: int)
      ensures this.image == image && this.pc == pc && witnesses == []
    {
      this.image, this.pc, this.witnesses := image, pc, [];
    }

    /** Require one opcode or one pc-relative literal load at the cursor. */
    method Expect(item: Item) returns (ok: bool)
      modifies this
      ensures ok == ItemAt(image, old(pc), item)
      ensures ok ==> pc == old(pc) + 2
      ensures ok ==> witnesses == old(witnesses) + WitnessesOf(image, old(pc), item)
    {
      var actual := Half(image, pc);
      match item {
        case Op(op) =>
          ok := actual == Some(op);
          if ok {
            witnesses := witnesses + [Witness(pc, 2)];
          }
        case Lit(register, value) =>
          if actual.None? || actual.value.top != 13 || actual.value.n != register {
            return false;
          }
          var address := LiteralAddress(pc, actual.value);
          var word := Long(image, address);
          ok := word.Some? && word.value == value;
          if ok {
            witnesses := witnesses + [Witness(pc, 2), Witness(address, 4)];
          }
      }
      pc := pc + 2;
    }

    /** Require a whole run of items, refusing at the first that differs. */
    method ExpectAll(items: seq<Item>) returns (ok: bool)
      modifies this
      ensures ok == Matches(image, old(pc), items)
      ensures ok ==> pc == old(pc) + 2 * |items|
      ensures ok ==> witnesses == old(witnesses) + AllWitnesses(image, old(pc), items)
    {
      hide WitnessesOf, ItemAt;
      ghost var start, before := pc, witnesses;
      var i := 0;
      while i < |items|
        invariant 0 <= i <= |items|
        invariant pc == start + 2 * i
        invariant Matches(image, start, items[..i])
        invariant witnesses == before + AllWitnesses(image, start, items[..i])
      {
        ok := Expect(items[i]);
        if !ok {
          return false;
        }
        assert items[..i + 1][..i] == items[..i];
        MatchesExtends(image, start, items, i);
        i := i + 1;
      }
      assert items[..i] == items;
      ok := true;
    }
  }

  // ---------- one section ----------

  function Placed(base: int, bytes: seq<Byte>): Image { Image([Section(base, bytes)], map[]) }

  lemma PlacedHalf(base: int, bytes: seq<Byte>, at: nat)
    requires at + 2 <= |bytes|
    ensures Half(Placed(base, bytes), base + at) == Some(OpcodeOf(bytes[at], bytes[at + 1]))
  {
    hide OpcodeOf;
    var s := Section(base, bytes);
    assert Owners([s], base + at, 2) == [s] + Owners([], base + at, 2);
  }

  lemma PlacedLong(base: int, bytes: seq<Byte>, at: nat)
    requires at + 4 <= |bytes|
    ensures Long(Placed(base, bytes), base + at) == Some(LongOf(bytes[at], bytes[at + 1], bytes[at + 2], bytes[at + 3]))
  {
    hide LongOf;
    var s := Section(base, bytes);
    assert Owners([s], base + at, 4) == [s] + Owners([], base + at, 4);
  }

  // ---------- from accepted items to executed items ----------

  /** The loader placed every section at the physical address of its link. */
  ghost predicate Loaded(image: Image, code: Code) {
    forall s, i :: s in image.sections && 0 <= i < |s.data| ==>
      CodeByte(code, s.address + i) == Some(s.data[i])
  }

  /** P1, P2 and P0 views of one physical address. */
  predicate Alias(a: int, b: int) { Physical(a) == Physical(b) }

  lemma AliasPlus(a: int, b: int, k: int)
    requires Alias(a, b)
    ensures Alias(Plus(a, k), b + k) && Alias(a + k, b + k)
  {
    hide Physical;
    PhysicalShift(a, b, k);
    PhysicalWrap(a + k);
  }

  lemma ByteFetched(image: Image, code: Code, s: Section, i: nat, a: int)
    requires Loaded(image, code) && s in image.sections && i < |s.data| && Alias(a, s.address + i)
    ensures CodeByte(code, a) == Some(s.data[i])
  {
    assert CodeByte(code, s.address + i) == Some(s.data[i]);
  }

  lemma HalfFetched(image: Image, code: Code, at: int, pc: int)
    requires Loaded(image, code) && Half(image, at).Some? && Alias(pc, at)
    ensures Fetch(code, pc) == Half(image, at)
  {
    hide OpcodeOf, Physical;
    AliasPlus(pc, at, 1);
    var s := Owners(image.sections, at, 2)[0];
    ByteFetched(image, code, s, at - s.address, pc);
    ByteFetched(image, code, s, at + 1 - s.address, pc + 1);
  }

  lemma LongFetched(image: Image, code: Code, at: int, a: int)
    requires Loaded(image, code) && Long(image, at).Some? && Alias(a, at)
    ensures FetchLong(code, a) == Long(image, at)
  {
    hide LongOf, Physical;
    AliasPlus(a, at, 1);
    AliasPlus(a, at, 2);
    AliasPlus(a, at, 3);
    var s := Owners(image.sections, at, 4)[0];
    var o := at - s.address;
    ByteFetched(image, code, s, o, a);
    ByteFetched(image, code, s, o + 1, a + 1);
    ByteFetched(image, code, s, o + 2, a + 2);
    ByteFetched(image, code, s, o + 3, a + 3);
  }

  lemma LiteralAlias(pc: int, at: int, op: Opcode)
    requires Alias(pc, at)
    ensures Alias(LiteralAddress(pc, op), LiteralAddress(at, op))
  {
    hide Physical;
    var q := PhysicalWindows(pc, at);
    assert (pc + 4) / 4 == (at + 4) / 4 + 0x800_0000 * q;
    PhysicalPeriod(LiteralAddress(at, op), q);
  }

  /** An item the machine executes without looking at its own address. */
  predicate Straight(item: Item) {
    item.Op? ==> !Branches(item.op) && !PcRelative(item.op)
  }

  function Apply(item: Item, cpu: Cpu): Outcome {
    match item
    case Lit(register, value) => Running(Put(cpu, register, if 0 <= value < 0x1_0000_0000 then value else 0))
    case Op(op) => Exec(op, cpu)
  }

  function ApplyAll(items: seq<Item>, cpu: Cpu): Outcome {
    if items == [] then Running(cpu)
    else match Apply(items[0], cpu)
      case Fault => Fault
      case Running(next) => ApplyAll(items[1..], next)
  }

  lemma ItemExecuted(image: Image, code: Code, at: int, item: Item, s: State)
    requires Loaded(image, code) && ItemAt(image, at, item) && Straight(item) && Alias(s.pc, at)
    ensures Step(code, s) == Arrive(Plus(s.pc, 2), Apply(item, s.cpu))
  {
    hide Step, Exec, Fetch, FetchLong, Half, Long;
    HalfFetched(image, code, at, s.pc);
    StepPlain(code, s, Half(image, at).value);
    if item.Lit? {
      var op := Half(image, at).value;
      LiteralAlias(s.pc, at, op);
      LongFetched(image, code, LiteralAddress(at, op), LiteralAddress(s.pc, op));
    }
  }

  predicate AllStraight(items: seq<Item>) {
    forall i {:trigger items[i]} :: 0 <= i < |items| ==> Straight(items[i])
  }

  /** Accepted straight-line items are exactly what the machine executes, under any alias. */
  lemma {:induction false} AcceptedItemsExecute(image: Image, code: Code, at: int, items: seq<Item>, s: State)
    requires Loaded(image, code) && Matches(image, at, items) && Alias(s.pc, at)
    requires AllStraight(items)
    ensures Steps(code, s, |items|) == Arrive(Plus(s.pc, 2 * |items|), ApplyAll(items, s.cpu))
    decreases |items|
  {
    hide Step, Apply, Loaded, ItemAt, Straight, Alias;
    if items != [] {
      assert Step(code, s) == Arrive(Plus(s.pc, 2), Apply(items[0], s.cpu)) by {
        assert ItemAt(image, at + 2 * 0, items[0]);
        ItemExecuted(image, code, at, items[0], s);
      }
      if Apply(items[0], s.cpu).Running? {
        AliasPlus(s.pc, at, 2);
        WrapPlus(s.pc, 2, 2 * (|items| - 1));
        MatchesPart(image, at, items, 1, |items|);
        AcceptedItemsExecute(image, code, at + 2, items[1..], Step(code, s).value);
      }
    }
  }

  lemma AcceptedItemsReach(image: Image, code: Code, at: int, items: seq<Item>, s: State, after: Cpu)
    requires Loaded(image, code) && Matches(image, at, items) && Alias(s.pc, at)
    requires AllStraight(items)
    requires ApplyAll(items, s.cpu) == Running(after)
    ensures Reaches(code, s, State(Plus(s.pc, 2 * |items|), after))
  {
    hide Step, ApplyAll;
    AcceptedItemsExecute(image, code, at, items, s);
  }

  lemma {:induction false} ApplyAppend(first: seq<Item>, second: seq<Item>, cpu: Cpu)
    ensures ApplyAll(first + second, cpu) ==
            match ApplyAll(first, cpu)
            case Fault => Fault
            case Running(mid) => ApplyAll(second, mid)
    decreases |first|
  {
    hide Apply;
    if first == [] {
      assert first + second == second;
    } else {
      assert (first + second)[1..] == first[1..] + second;
      if Apply(first[0], cpu).Running? {
        ApplyAppend(first[1..], second, Apply(first[0], cpu).cpu);
      }
    }
  }

  /** Unfolds a run one item at a time. */
  lemma ApplyCons(item: Item, rest: seq<Item>, cpu: Cpu)
    ensures ApplyAll([item] + rest, cpu) ==
            match Apply(item, cpu)
            case Fault => Fault
            case Running(next) => ApplyAll(rest, next)
  {
    hide Apply;
    assert ([item] + rest)[1..] == rest;
  }

  /** Adds one item in front of a run whose effect is known. */
  lemma ApplyThen(item: Item, rest: seq<Item>, items: seq<Item>, cpu: Cpu, next: Cpu, after: Cpu)
    requires items == [item] + rest
    requires Apply(item, cpu) == Running(next) && ApplyAll(rest, next) == Running(after)
    ensures ApplyAll(items, cpu) == Running(after)
  {
    hide Apply;
    ApplyCons(item, rest, cpu);
  }

  lemma ApplyOne(item: Item, cpu: Cpu, after: Cpu)
    requires Apply(item, cpu) == Running(after)
    ensures ApplyAll([item], cpu) == Running(after)
  {
    hide Apply;
    ApplyCons(item, [], cpu);
    assert [item] + [] == [item];
  }

  lemma ApplyTwo(a: Item, b: Item, cpu: Cpu, c1: Cpu, c2: Cpu)
    requires Apply(a, cpu) == Running(c1) && Apply(b, c1) == Running(c2)
    ensures ApplyAll([a, b], cpu) == Running(c2)
  {
    hide Apply;
    ApplyOne(b, c1, c2);
    ApplyThen(a, [b], [a, b], cpu, c1, c2);
  }

  lemma ApplyThree(a: Item, b: Item, c: Item, cpu: Cpu, c1: Cpu, c2: Cpu, c3: Cpu)
    requires Apply(a, cpu) == Running(c1) && Apply(b, c1) == Running(c2) && Apply(c, c2) == Running(c3)
    ensures ApplyAll([a, b, c], cpu) == Running(c3)
  {
    hide Apply;
    ApplyTwo(b, c, c1, c2, c3);
    ApplyThen(a, [b, c], [a, b, c], cpu, c1, c3);
  }

  lemma ApplyFour(a: Item, b: Item, c: Item, d: Item, cpu: Cpu, c1: Cpu, c2: Cpu, c3: Cpu, c4: Cpu)
    requires Apply(a, cpu) == Running(c1) && Apply(b, c1) == Running(c2)
    requires Apply(c, c2) == Running(c3) && Apply(d, c3) == Running(c4)
    ensures ApplyAll([a, b, c, d], cpu) == Running(c4)
  {
    hide Apply;
    ApplyThree(b, c, d, c1, c2, c3, c4);
    ApplyThen(a, [b, c, d], [a, b, c, d], cpu, c1, c4);
  }

  lemma MatchesPart(image: Image, pc: int, items: seq<Item>, from: nat, to: nat)
    requires Matches(image, pc, items) && from <= to <= |items|
    ensures Matches(image, pc + 2 * from, items[from..to])
  {
    hide ItemAt;
    forall i | 0 <= i < to - from ensures ItemAt(image, pc + 2 * from + 2 * i, items[from..to][i]) {
      assert items[from..to][i] == items[from + i];
    }
  }

  lemma MatchesJoin(image: Image, pc: int, items: seq<Item>, at: nat)
    requires at <= |items|
    ensures Matches(image, pc, items) <==>
      Matches(image, pc, items[..at]) && Matches(image, pc + 2 * at, items[at..])
  {
    hide ItemAt;
    if Matches(image, pc, items) {
      MatchesPart(image, pc, items, 0, at);
      MatchesPart(image, pc, items, at, |items|);
      assert items[0..at] == items[..at] && items[at..|items|] == items[at..];
    }
    if Matches(image, pc, items[..at]) && Matches(image, pc + 2 * at, items[at..]) {
      forall i | 0 <= i < |items| ensures ItemAt(image, pc + 2 * i, items[i]) {
        if i < at { assert items[..at][i] == items[i]; }
        else {
          assert items[at..][i - at] == items[i];
          assert pc + 2 * at + 2 * (i - at) == pc + 2 * i;
        }
      }
    }
  }

  /** Runs one straight part of a longer accepted sequence. */
  lemma PartReached(image: Image, code: Code, base: int, items: seq<Item>, from: nat, part: seq<Item>,
                    s: State, after: Cpu) returns (next: State)
    requires Loaded(image, code) && Matches(image, base, items)
    requires from + |part| <= |items| && items[from..from + |part|] == part && AllStraight(part)
    requires Alias(s.pc, base + 2 * from) && ApplyAll(part, s.cpu) == Running(after)
    ensures next.cpu == after && Reaches(code, s, next) && Alias(next.pc, base + 2 * (from + |part|))
  {
    hide Step, ApplyAll, Loaded, Matches, Reaches, Alias, AllStraight;
    MatchesPart(image, base, items, from, from + |part|);
    AcceptedItemsReach(image, code, base + 2 * from, part, s, after);
    AliasPlus(s.pc, base + 2 * from, 2 * |part|);
    next := State(Plus(s.pc, 2 * |part|), after);
  }

  /** Runs one accepted JMP or JSR with its slot. */
  lemma JumpReached(image: Image, code: Code, base: int, items: seq<Item>, from: nat,
                    op: Opcode, slot: Opcode, s: State, after: Cpu) returns (next: State)
    requires Loaded(image, code) && Matches(image, base, items) && from + 2 <= |items|
    requires items[from] == Op(op) && items[from + 1] == Op(slot)
    requires op.top == 4 && op.Imm8() in {0x0b, 0x2b} && !SlotIllegal(slot) && Alias(s.pc, base + 2 * from)
    requires Exec(slot, if op.Imm8() == 0x0b then s.cpu.(pr := Plus(s.pc, 4)) else s.cpu) == Running(after)
    ensures next == State(s.cpu.r[op.n], after) && Reaches(code, s, next)
  {
    hide Step, Exec, Loaded, Reaches, Alias, SlotIllegal, Plus, Half;
    assert ItemAt(image, base + 2 * from, items[from]);
    assert ItemAt(image, base + 2 * (from + 1), items[from + 1]);
    HalfFetched(image, code, base + 2 * from, s.pc);
    AliasPlus(s.pc, base + 2 * from, 2);
    HalfFetched(image, code, base + 2 * (from + 1), s.pc + 2);
    StepJump(code, s, op, slot);
    next := State(s.cpu.r[op.n], after);
    ReachesStep(code, s, next);
  }
}
