/** Accepted trampolines and owners for which the handoff does not do what it promises: each condition
    of the entry theorems is needed. */
module EntryFailure {
  import opened Words
  import opened Opcodes
  import opened Sh4
  import opened Cursor
  import opened LittleEndian
  import opened EntryFrame
  import opened EntryResume
  import opened EntryCopy
  import RegisterWrites

  // ---------- an assembler ----------

  /** The displacement of the load at item i to its own pool word. */
  function Displacement(i: nat, pool: nat): int { (pool + 4 * i - (2 * i + 4) / 4 * 4) / 4 }

  /** Every item can be encoded: literals are words and their pool words are in reach. */
  predicate Encodable(items: seq<Item>, pool: nat) {
    && pool % 4 == 0 && 2 * |items| + 4 <= pool && pool + 4 * |items| <= 1024
    && forall i {:trigger items[i]} :: 0 <= i < |items| && items[i].Lit? ==> 0 <= items[i].value < 0x1_0000_0000
  }

  function OpcodeFor(items: seq<Item>, pool: nat, i: nat): Opcode
    requires Encodable(items, pool) && i < |items|
  {
    match items[i]
    case Op(op) => op
    case Lit(register, _) => Opcode(13, register, Displacement(i, pool) / 16, Displacement(i, pool) % 16)
  }

  function ByteFor(items: seq<Item>, pool: nat, j: nat): Byte
    requires Encodable(items, pool) && j < pool + 4 * |items|
  {
    if j < 2 * |items| then
      var op := OpcodeFor(items, pool, j / 2);
      if j % 2 == 0 then 16 * op.m + op.low else 16 * op.top + op.n
    else if j < pool then 0
    else
      var item := items[(j - pool) / 4];
      if item.Lit? then ByteOf(item.value, (j - pool) % 4) else 0
  }

  /** Code, zeros up to the pool, then one pool word for each item. */
  function Assembled(items: seq<Item>, pool: nat): (bytes: seq<Byte>)
    requires Encodable(items, pool)
    ensures |bytes| == pool + 4 * |items| && forall j :: 0 <= j < |bytes| ==> bytes[j] == ByteFor(items, pool, j)
  {
    seq<Byte>(pool + 4 * |items|, j requires 0 <= j < pool + 4 * |items| => ByteFor(items, pool, j))
  }

  lemma OpcodeRoundTrip(op: Opcode)
    ensures OpcodeOf(16 * op.m + op.low, 16 * op.top + op.n) == op
  {
  }

  /** Assembled items match where they are placed. */
  lemma AssembledMatches(base: int, items: seq<Item>, pool: nat)
    requires base % 4 == 0 && Encodable(items, pool)
    ensures Matches(Placed(base, Assembled(items, pool)), base, items)
  {
    hide ItemAt, Encodable, Assembled, Placed;
    forall i | 0 <= i < |items| ensures ItemAt(Placed(base, Assembled(items, pool)), base + 2 * i, items[i]) {
      AssembledItem(base, items, pool, i);
    }
  }

  lemma AssembledItem(base: int, items: seq<Item>, pool: nat, i: nat)
    requires base % 4 == 0 && Encodable(items, pool) && i < |items|
    ensures ItemAt(Placed(base, Assembled(items, pool)), base + 2 * i, items[i])
  {
    hide Half, Long, OpcodeOf, LongOf, LiteralAddress, Placed, Assembled, OpcodeFor;
    AssembledHalf(base, items, pool, i);
    if items[i].Lit? {
      PlacedLong(base, Assembled(items, pool), pool + 4 * i);
      PoolWord(items, pool, i);
      LoadEncoded(items, pool, i);
      LiteralInPool(base, i, pool, OpcodeFor(items, pool, i));
    } else {
      PlainEncoded(items, pool, i);
    }
  }

  lemma PlainEncoded(items: seq<Item>, pool: nat, i: nat)
    requires Encodable(items, pool) && i < |items| && items[i].Op?
    ensures OpcodeFor(items, pool, i) == items[i].op
  {
  }

  lemma LoadEncoded(items: seq<Item>, pool: nat, i: nat)
    requires Encodable(items, pool) && i < |items| && items[i].Lit?
    ensures var op := OpcodeFor(items, pool, i);
      && op.top == 13 && op.n == items[i].register
      && op.m == Displacement(i, pool) / 16 && op.low == Displacement(i, pool) % 16
  {
  }

  lemma AssembledHalf(base: int, items: seq<Item>, pool: nat, i: nat)
    requires Encodable(items, pool) && i < |items|
    ensures Half(Placed(base, Assembled(items, pool)), base + 2 * i) == Some(OpcodeFor(items, pool, i))
  {
    hide OpcodeOf, OpcodeFor, Encodable, Half, Placed, Assembled, ByteFor;
    var bytes, op := Assembled(items, pool), OpcodeFor(items, pool, i);
    RoomForCode(items, pool);
    PlacedHalf(base, bytes, 2 * i);
    OpcodeRoundTrip(op);
    OpcodeBytes(items, pool, i);
  }

  lemma RoomForCode(items: seq<Item>, pool: nat)
    requires Encodable(items, pool)
    ensures 2 * |items| <= pool
  {
  }

  lemma OpcodeBytes(items: seq<Item>, pool: nat, i: nat)
    requires Encodable(items, pool) && i < |items|
    ensures var op := OpcodeFor(items, pool, i);
      ByteFor(items, pool, 2 * i) == 16 * op.m + op.low && ByteFor(items, pool, 2 * i + 1) == 16 * op.top + op.n
  {
    hide OpcodeFor;
    assert 2 * i / 2 == i && (2 * i + 1) / 2 == i;
  }

  lemma PoolByte(items: seq<Item>, pool: nat, i: nat, k: nat)
    requires Encodable(items, pool) && i < |items| && items[i].Lit? && k < 4
    ensures |Assembled(items, pool)| > pool + 4 * i + k
    ensures Assembled(items, pool)[pool + 4 * i + k] == ByteOf(items[i].value, k)
  {
    hide ByteOf;
    assert (pool + 4 * i + k - pool) / 4 == i;
  }

  lemma PoolWord(items: seq<Item>, pool: nat, i: nat)
    requires Encodable(items, pool) && i < |items| && items[i].Lit?
    ensures var bytes, at := Assembled(items, pool), pool + 4 * i;
      LongOf(bytes[at], bytes[at + 1], bytes[at + 2], bytes[at + 3]) == items[i].value
  {
    hide ByteOf, Assembled;
    var bytes, at, v := Assembled(items, pool), pool + 4 * i, items[i].value;
    PoolByte(items, pool, i, 0);
    PoolByte(items, pool, i, 1);
    PoolByte(items, pool, i, 2);
    PoolByte(items, pool, i, 3);
    Digits(v, bytes[at], bytes[at + 1], bytes[at + 2], bytes[at + 3]);
  }

  lemma LiteralInPool(base: int, i: nat, pool: nat, op: Opcode)
    requires base % 4 == 0 && pool % 4 == 0 && 2 * i + 4 <= pool && pool + 4 * i < 1024
    requires op.m == Displacement(i, pool) / 16 && op.low == Displacement(i, pool) % 16
    ensures LiteralAddress(base + 2 * i, op) == base + pool + 4 * i
  {
    assert (base + 2 * i + 4) / 4 * 4 == base + (2 * i + 4) / 4 * 4;
  }

  // ---------- two sections ----------

  predicate Holds(s: Section, a: int, size: nat) { s.address <= a && a + size <= s.address + |s.data| }

  predicate Disjoint(a: Section, b: Section) { a.address + |a.data| <= b.address || b.address + |b.data| <= a.address }

  lemma OwnedAlone(a: Section, b: Section, at: int, size: nat)
    requires Disjoint(a, b) && size > 0 && Holds(a, at, size)
    ensures Owners([a, b], at, size) == Owners([b, a], at, size) == Owners([a], at, size) == [a]
  {
    assert Owners([], at, size) == [];
    assert [a, b][1..] == [b] && [b, a][1..] == [a] && [a][1..] == [] && [b][1..] == [];
  }

  /** What matches in a section alone matches beside another. */
  lemma MatchesBeside(a: Section, b: Section, symbols: map<string, Word>, pc: int, items: seq<Item>)
    requires Disjoint(a, b) && Matches(Placed(a.address, a.data), pc, items)
    ensures Matches(Image([a, b], symbols), pc, items) && Matches(Image([b, a], symbols), pc, items)
  {
    hide ItemAt, Placed;
    forall i | 0 <= i < |items|
      ensures ItemAt(Image([a, b], symbols), pc + 2 * i, items[i])
        && ItemAt(Image([b, a], symbols), pc + 2 * i, items[i])
    {
      assert ItemAt(Placed(a.address, a.data), pc + 2 * i, items[i]);
      ItemBeside(a, b, symbols, pc + 2 * i, items[i]);
    }
  }

  lemma ItemBeside(a: Section, b: Section, symbols: map<string, Word>, pc: int, item: Item)
    requires Disjoint(a, b) && ItemAt(Placed(a.address, a.data), pc, item)
    ensures ItemAt(Image([a, b], symbols), pc, item) && ItemAt(Image([b, a], symbols), pc, item)
  {
    hide Half, Long, Disjoint;
    ReadsBeside(a, b, symbols, pc);
    if item.Lit? { ReadsBeside(a, b, symbols, LiteralAddress(pc, Half(Placed(a.address, a.data), pc).value)); }
  }

  lemma ReadsBeside(a: Section, b: Section, symbols: map<string, Word>, at: int)
    requires Disjoint(a, b)
    ensures var alone := Placed(a.address, a.data);
      && (Half(alone, at).Some? ==>
        Half(Image([a, b], symbols), at) == Half(Image([b, a], symbols), at) == Half(alone, at))
      && (Long(alone, at).Some? ==>
        Long(Image([a, b], symbols), at) == Long(Image([b, a], symbols), at) == Long(alone, at))
  {
    hide OpcodeOf, LongOf, Bytes, Disjoint;
    BytesBeside(a, b, symbols, at, 2);
    BytesBeside(a, b, symbols, at, 4);
  }

  lemma BytesBeside(a: Section, b: Section, symbols: map<string, Word>, at: int, size: nat)
    requires Disjoint(a, b) && size > 0
    ensures var alone := Placed(a.address, a.data);
      Bytes(alone, at, size).Some? ==>
        Bytes(Image([a, b], symbols), at, size) == Bytes(Image([b, a], symbols), at, size) == Bytes(alone, at, size)
  {
    hide Owners, Disjoint;
    assert a == Section(a.address, a.data);
    if Bytes(Placed(a.address, a.data), at, size).Some? {
      HeldAlone(a, at, size);
      OwnedAlone(a, b, at, size);
    }
  }

  lemma HeldAlone(a: Section, at: int, size: nat)
    requires Bytes(Placed(a.address, a.data), at, size).Some?
    ensures Holds(a, at, size)
  {
    assert a == Section(a.address, a.data) && [a][1..] == [];
    assert Owners([], at, size) == [];
  }

  // ---------- templates with one literal ----------

  const START: Word := 0x8ce1_0000
  const ODD: Word := 0x8ce1_0002
  const RESUME: Word := 0x8ce2_0000
  const RELAY: Word := 0x8ce3_0000
  const COPY: Word := 0x8c01_0000
  const FAR: nat := 224
  const NEAR: nat := 54

  /** A trampoline linked at `base` whose literal stands `spot` bytes behind it. */
  predicate Shape(base: Word, spot: nat) { (base == START && spot == FAR) || (base == ODD && spot == NEAR) }

  function TemplateOp(base: Word, spot: nat, i: nat): Opcode
    requires Shape(base, spot) && i < 27
  {
    var displacement := if base == START then 43 else 1;
    if i == 24 then Opcode(13, 0, displacement / 16, displacement % 16) else SavedOp(i)
  }

  function TemplateByte(base: Word, spot: nat, j: nat): Byte
    requires Shape(base, spot)
  {
    if j < 54 then
      var op := TemplateOp(base, spot, j / 2);
      if j % 2 == 0 then 16 * op.m + op.low else 16 * op.top + op.n
    else if spot <= j < spot + 4 then ByteOf(RESUME + UNCACHED, j - spot)
    else 0
  }

  function TemplateBytes(base: Word, spot: nat): (b: seq<Byte>)
    requires Shape(base, spot)
    ensures |b| == 236 && forall j :: 0 <= j < 236 ==> b[j] == TemplateByte(base, spot, j)
  {
    seq<Byte>(236, j requires 0 <= j < 236 => TemplateByte(base, spot, j))
  }

  lemma TemplateHalf(base: Word, spot: nat, i: nat)
    requires Shape(base, spot) && i < 27
    ensures Half(Placed(base, TemplateBytes(base, spot)), base + 2 * i) == Some(TemplateOp(base, spot, i))
  {
    hide OpcodeOf, TemplateOp, Half, Placed;
    var bytes, op := TemplateBytes(base, spot), TemplateOp(base, spot, i);
    PlacedHalf(base, bytes, 2 * i);
    OpcodeRoundTrip(op);
    assert 2 * i / 2 == i && (2 * i + 1) / 2 == i;
    assert bytes[2 * i] == TemplateByte(base, spot, 2 * i) && bytes[2 * i + 1] == TemplateByte(base, spot, 2 * i + 1);
  }

  lemma TemplateWord(base: Word, spot: nat)
    requires Shape(base, spot)
    ensures Long(Placed(base, TemplateBytes(base, spot)), base + spot) == Some(RESUME + UNCACHED)
    ensures LiteralAddress(base + LOAD, TemplateOp(base, spot, 24)) == base + spot
  {
    hide ByteOf, LongOf, Placed, SavedOp;
    var b, v := TemplateBytes(base, spot), RESUME + UNCACHED;
    PlacedLong(base, b, spot);
    assert b[spot] == TemplateByte(base, spot, spot) && b[spot + 1] == TemplateByte(base, spot, spot + 1);
    assert b[spot + 2] == TemplateByte(base, spot, spot + 2) && b[spot + 3] == TemplateByte(base, spot, spot + 3);
    Digits(v, b[spot], b[spot + 1], b[spot + 2], b[spot + 3]);
    LongDigits(b[spot], b[spot + 1], b[spot + 2], b[spot + 3]);
  }

  lemma LongDigits(b0: Byte, b1: Byte, b2: Byte, b3: Byte)
    ensures LongOf(b0, b1, b2, b3) == b0 + 0x100 * (b1 + 0x100 * (b2 + 0x100 * b3))
  {
  }

  lemma TemplateMatches(base: Word, spot: nat)
    requires Shape(base, spot)
    ensures Matches(Placed(base, TemplateBytes(base, spot)), base, Trampoline(RESUME))
  {
    hide Half, Long, Placed, TemplateBytes, Trampoline, LiteralAddress, Shape;
    var image, items := Placed(base, TemplateBytes(base, spot)), Trampoline(RESUME);
    TrampolineItems(RESUME, 0);
    TemplateWord(base, spot);
    forall i | 0 <= i < |items| ensures ItemAt(image, base + 2 * i, items[i]) {
      TemplateHalf(base, spot, i);
    }
  }

  lemma ResumeEncodable()
    ensures Encodable(Resume(RELAY), 136) && |Resume(RELAY)| == 66
  {
  }

  function ResumeBytes(): (b: seq<Byte>)
    ensures |b| == 400
  {
    ResumeEncodable();
    Assembled(Resume(RELAY), 136)
  }

  /** Images the audit accepts. */
  function SampleImage(base: Word, spot: nat): Image
    requires Shape(base, spot)
  {
    Image([Section(base, TemplateBytes(base, spot)), Section(RESUME, ResumeBytes())],
      map["__disc_vmu_trampoline_start" := base, "__disc_vmu_trampoline_end" := base + 128,
          "__disc_vmu_trampoline_code_end" := base + 58, "_kui_disc_vmu_game_resume" := RESUME,
          "_kui_disc_vmu_stage_relay" := RELAY])
  }

  lemma SampleSymbols(base: Word, spot: nat)
    requires Shape(base, spot)
    ensures var y := SampleImage(base, spot).symbols;
      && "__disc_vmu_trampoline_start" in y && y["__disc_vmu_trampoline_start"] == base
      && "__disc_vmu_trampoline_end" in y && y["__disc_vmu_trampoline_end"] == base + 128
      && "__disc_vmu_trampoline_code_end" in y && y["__disc_vmu_trampoline_code_end"] == base + 58
      && "_kui_disc_vmu_game_resume" in y && y["_kui_disc_vmu_game_resume"] == RESUME
      && "_kui_disc_vmu_stage_relay" in y && y["_kui_disc_vmu_stage_relay"] == RELAY
  {
  }

  lemma SampleAccepted(base: Word, spot: nat)
    requires Shape(base, spot)
    ensures EntryAccepted(SampleImage(base, spot))
  {
    hide Matches, Trampoline, ResumeHead, ResumeTail, Bytes, Assembled, Owners, SampleImage, TemplateBytes;
    SampleSymbols(base, spot);
    SampleMatches(base, spot);
    SamplePadding(base, spot);
    TrampolineItems(RESUME, 0);
  }

  lemma SampleMatches(base: Word, spot: nat)
    requires Shape(base, spot)
    ensures Matches(SampleImage(base, spot), base, Trampoline(RESUME))
    ensures Matches(SampleImage(base, spot), RESUME, Resume(RELAY))
  {
    hide Matches, Trampoline, Resume, Assembled, Encodable, TemplateBytes;
    ResumeEncodable();
    var a, b := Section(base, TemplateBytes(base, spot)), Section(RESUME, ResumeBytes());
    TemplateMatches(base, spot);
    AssembledMatches(RESUME, Resume(RELAY), 136);
    MatchesBeside(a, b, SampleImage(base, spot).symbols, base, Trampoline(RESUME));
    MatchesBeside(b, a, SampleImage(base, spot).symbols, RESUME, Resume(RELAY));
  }

  lemma SamplePadding(base: Word, spot: nat)
    requires Shape(base, spot)
    ensures var padding := Bytes(SampleImage(base, spot), base + 58, 70); padding.Some? && AllZero(padding.value)
  {
    hide Resume, Encodable, Owners, TemplateBytes, ResumeBytes;
    var a, b := Section(base, TemplateBytes(base, spot)), Section(RESUME, ResumeBytes());
    OwnedAlone(a, b, base + 58, 70);
    forall j | 58 <= j < 128 ensures a.data[j] == 0 { assert a.data[j] == TemplateByte(base, spot, j); }
  }

  lemma SampleLoad(base: Word, spot: nat)
    requires Shape(base, spot)
    ensures EntryAccepted(SampleImage(base, spot)) && LoadOf(SampleImage(base, spot)) == TemplateOp(base, spot, 24)
  {
    hide Matches, EntryAccepted, Half, TemplateBytes, ResumeBytes, TemplateOp, Placed;
    SampleAccepted(base, spot);
    SampleSymbols(base, spot);
    var a, b := Section(base, TemplateBytes(base, spot)), Section(RESUME, ResumeBytes());
    TemplateHalf(base, spot, 24);
    ReadsBeside(a, b, SampleImage(base, spot).symbols, base + LOAD);
    LoadNamed(SampleImage(base, spot));
  }

  // ---------- memories that hold them ----------

  /** All of main RAM: the image, the copy of its first 128 bytes, and any word behind the copy. */
  function SampleByte(base: Word, spot: nat, word: Word, p: int): Byte
    requires Shape(base, spot)
  {
    var start := base - 0x8000_0000;
    if start <= p < start + 236 then TemplateBytes(base, spot)[p - start]
    else if 0x0ce2_0000 <= p < 0x0ce2_0000 + 400 then ResumeBytes()[p - 0x0ce2_0000]
    else if 0x0c01_0000 <= p < 0x0c01_0000 + TEMPLATE then TemplateBytes(base, spot)[p - 0x0c01_0000]
    else if 0x0c01_0000 + FAR <= p < 0x0c01_0000 + FAR + 4 then ByteOf(word, p - 0x0c01_0000 - FAR)
    else 0
  }

  function SampleCode(base: Word, spot: nat, word: Word): Code
    requires Shape(base, spot)
  {
    map p: int | 0x0c00_0000 <= p < 0x0d00_0000 :: SampleByte(base, spot, word, p)
  }

  lemma SampleFetched(base: Word, spot: nat, word: Word, a: int)
    requires Shape(base, spot) && 0x8c00_0000 <= a < 0x8d00_0000
    ensures CodeByte(SampleCode(base, spot, word), a) == Some(SampleByte(base, spot, word, a - 0x8000_0000))
  {
    hide Physical, SampleByte;
    PhysicalIsMod(a);
    assert a % 0x2000_0000 == a - 0x8000_0000;
  }

  lemma SampleLoaded(base: Word, spot: nat, word: Word)
    requires Shape(base, spot)
    ensures var code := SampleCode(base, spot, word);
      Loaded(SampleImage(base, spot), code) && Copied(code, base, COPY) && Populated(code, COPY, REACH)
  {
    hide CodeByte, SampleCode, ByteOf, TemplateBytes, ResumeBytes;
    var code := SampleCode(base, spot, word);
    forall s, i | s in SampleImage(base, spot).sections && 0 <= i < |s.data|
      ensures CodeByte(code, s.address + i) == Some(s.data[i])
    {
      SampleFetched(base, spot, word, s.address + i);
    }
    forall i | 0 <= i < TEMPLATE ensures SameByte(code, base, COPY, i) {
      SampleFetched(base, spot, word, base + i);
      SampleFetched(base, spot, word, COPY + i);
    }
    forall i | 0 <= i < REACH ensures Present(code, COPY, i) { SampleFetched(base, spot, word, COPY + i); }
  }

  lemma SampleWord(base: Word, spot: nat, word: Word, offset: nat, b0: Byte, b1: Byte, b2: Byte, b3: Byte)
    requires Shape(base, spot) && offset + 4 < 0x1000
    requires var p := 0x0c01_0000 + offset;
      && SampleByte(base, spot, word, p) == b0 && SampleByte(base, spot, word, p + 1) == b1
      && SampleByte(base, spot, word, p + 2) == b2 && SampleByte(base, spot, word, p + 3) == b3
    ensures FetchLong(SampleCode(base, spot, word), COPY + offset) == Some(LongOf(b0, b1, b2, b3))
  {
    hide CodeByte, SampleCode, SampleByte, LongOf;
    SampleFetched(base, spot, word, COPY + offset);
    SampleFetched(base, spot, word, COPY + offset + 1);
    SampleFetched(base, spot, word, COPY + offset + 2);
    SampleFetched(base, spot, word, COPY + offset + 3);
  }

  /** The audit accepts this image, but its copied trampoline jumps to whatever word the owner happens
      to keep behind its own entry. */
  lemma FarTemplateJumpsAnywhere(word: Word, owner: State) returns (next: State)
    requires Alias(owner.pc, COPY) && owner.cpu.r[15] % 4 == 0
    ensures EntryAccepted(SampleImage(START, FAR)) && !Relocatable(SampleImage(START, FAR), COPY)
    ensures var code := SampleCode(START, FAR, word);
      && Loaded(SampleImage(START, FAR), code) && Copied(code, START, COPY)
      && Reaches(code, owner, next) && next.pc == word
  {
    hide Loaded, Copied, Populated, EntryAccepted, Reaches, SampleCode, SampleImage, Alias, FetchLong, ByteOf, LongOf,
      LoadOf, SavedOp, TemplateBytes;
    SampleLoad(START, FAR);
    SampleSymbols(START, FAR);
    SampleLoaded(START, FAR, word);
    SampleWord(START, FAR, word, FAR, ByteOf(word, 0), ByteOf(word, 1), ByteOf(word, 2), ByteOf(word, 3));
    Digits(word, ByteOf(word, 0), ByteOf(word, 1), ByteOf(word, 2), ByteOf(word, 3));
    LongDigits(ByteOf(word, 0), ByteOf(word, 1), ByteOf(word, 2), ByteOf(word, 3));
    next := CopyJumps(SampleImage(START, FAR), SampleCode(START, FAR, word), COPY, owner);
  }

  /** The audit also accepts a template linked at 2 modulo 4 with its literal right behind the code.  Copied to
      the entry, its load reads two bytes further on, and the trampoline jumps to 0xace2. */
  lemma OddTemplateMisses(owner: State) returns (next: State)
    requires Alias(owner.pc, COPY) && owner.cpu.r[15] % 4 == 0
    ensures EntryAccepted(SampleImage(ODD, NEAR)) && LoadOffset(ODD, LoadOf(SampleImage(ODD, NEAR))) + 4 <= TEMPLATE
    ensures var code := SampleCode(ODD, NEAR, 0);
      && Loaded(SampleImage(ODD, NEAR), code) && Copied(code, ODD, COPY)
      && Reaches(code, owner, next) && next.pc == 0xace2
  {
    hide Loaded, Copied, Populated, EntryAccepted, Reaches, SampleCode, SampleImage, Alias, FetchLong, LoadOf,
      LoadOffset, TemplateOp, SampleByte, LongOf;
    OddOffsets();
    SampleLoad(ODD, NEAR);
    SampleSymbols(ODD, NEAR);
    SampleLoaded(ODD, NEAR, 0);
    OddBytes();
    SampleWord(ODD, NEAR, 0, 56, 0xe2, 0xac, 0, 0);
    next := CopyJumps(SampleImage(ODD, NEAR), SampleCode(ODD, NEAR, 0), COPY, owner);
  }

  lemma OddOffsets()
    ensures LoadOffset(COPY, TemplateOp(ODD, NEAR, 24)) == 56 && LoadOffset(ODD, TemplateOp(ODD, NEAR, 24)) == 54
    ensures LongOf(0xe2, 0xac, 0, 0) == 0xace2
  {
    hide SavedOp;
  }

  lemma OddBytes()
    ensures SampleByte(ODD, NEAR, 0, 0x0c01_0038) == 0xe2 && SampleByte(ODD, NEAR, 0, 0x0c01_0039) == 0xac
    ensures SampleByte(ODD, NEAR, 0, 0x0c01_003a) == 0 && SampleByte(ODD, NEAR, 0, 0x0c01_003b) == 0
  {
    hide TemplateOp, ResumeBytes;
    var b := TemplateBytes(ODD, NEAR);
    assert b[56] == TemplateByte(ODD, NEAR, 56) && b[57] == TemplateByte(ODD, NEAR, 57);
    assert b[58] == TemplateByte(ODD, NEAR, 58) && b[59] == TemplateByte(ODD, NEAR, 59);
    assert ByteOf(0xace2_0000, 2) == ByteOf(0xac_e200, 1) == ByteOf(0xace2, 0) == 0xe2;
    assert ByteOf(0xace2_0000, 3) == ByteOf(0xac_e200, 2) == ByteOf(0xace2, 1) == ByteOf(0xac, 0) == 0xac;
  }

  // ---------- owners that do not come back as they were ----------

  /** An owner whose r0 is saved over the cache control register gets it back with the invalidation bits set,
      whatever the relay does. */
  lemma StackOverCcr(image: Image, code: Code, after: Code, entry: int, owner: State, relay: State -> State)
    returns (call: State, final: State)
    requires Loaded(image, code) && Loaded(image, after) && EntryAccepted(image) && Relocatable(image, entry)
    requires Copied(code, image.symbols["__disc_vmu_trampoline_start"], entry) && Alias(owner.pc, entry)
    requires Relays(owner.cpu, image.symbols["_kui_disc_vmu_stage_relay"], relay)
    requires owner.cpu.r[15] == CCR + 4 && owner.cpu.r[0] == 0
    ensures Reaches(code, owner, call) && Reaches(after, relay(call), final) && final.pc == 0xac01_0000
    ensures final.cpu.r[0] == 0x808 && !OwnerRestored(owner.cpu, relay(call).cpu, final.cpu)
  {
    hide Loaded, Reaches, Alias, EntryAccepted, Copied, Relocatable, RelayReturns, Relays, OverCcr, Harmless,
      OwnerRestored, Returned;
    call, final := OwnerRoundTrip(image, code, after, entry, owner, relay);
    FirstWordOverCcr(owner.cpu, relay(call).cpu);
  }

  lemma FirstWordOverCcr(owner: Cpu, back: Cpu)
    requires owner.r[15] == CCR + 4 && owner.r[0] == 0
    ensures OverCcr(owner, 20) && !Harmless(owner, back, 20) && Returned(owner, back, 20) == 0x808
  {
    hide StackWord, Stored;
    StackWordMoves(CCR + 4, -FRAME_WORDS, 20);
    StackWordMoves(CCR, 0, 1);
    StackWordMoves(CCR + 4, 0, -1);
    assert OverCcr(owner, 20) by { BelowIsCcr(); }
    assert OrWord(0x808, 0) == 0x808 by { OrZero(0x808); }
  }

  lemma BelowIsCcr()
    ensures StackWord(CCR + 4, -1) == CCR
  {
  }

  /** A relay may keep its contract and come back in the other register bank: r1 is then not the
      owner's. */
  lemma OtherBankLoses(image: Image, code: Code, owner: State, call: State) returns (back: State, final: State)
    requires Loaded(image, code) && EntryAccepted(image) && owner.cpu.r[15] % 4 == 0
    requires RelayEntered(owner.cpu, image.symbols["_kui_disc_vmu_stage_relay"], call)
    requires Alias(call.cpu.pr, ReturnPoint(image))
    ensures RelayReturns(owner.cpu, call, back)
    ensures Reaches(code, back, final) && final.pc == 0xac01_0000 && final.cpu.r[1] != owner.cpu.r[1]
  {
    hide Loaded, Reaches, Alias, EntryAccepted, BankSelected, StackWord, Stored, Key, OrWord;
    RegisterWrites.BankBits();
    var other: Word := if owner.cpu.r[1] == 0 then 1 else 0;
    var upper: Upper := if BankSelected(owner.cpu.upper) then 0 else 0x3000_0000;
    back := State(call.cpu.pr, call.cpu.(upper := upper, bank := call.cpu.bank[1 := other]));
    final := EntryRoundTrip(image, code, owner, call, back);
  }
}
