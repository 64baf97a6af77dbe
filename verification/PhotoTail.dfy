/** The two tails of the stage relay, executed: the shortened one makes the same last display-line call
    and restores the same registers; only the pause is gone. */
module PhotoTail {
  import opened Words
  import opened Opcodes
  import opened Sh4
  import opened Cursor
  import opened EntryFrame
  import opened EntryResume
  import opened LittleEndian
  import opened PhotoHold
  import Instructions

  function Restores(): seq<Item> { [Op(Opcode(7, 15, 0, 8)), Op(Opcode(4, 15, 2, 6))] + Pops(6) }

  /** Call the line, load the pause and its argument, restore, jump to the pause. */
  function OldItems(pause: Word): seq<Item> {
    [Op(Opcode(4, 8, 0, 11)), Op(NOP), Lit(1, pause), Op(Opcode(14, 4, 7, 8))] + Restores()
      + [Op(Opcode(4, 1, 2, 11)), Op(Opcode(6, 8, 15, 6))]
  }

  /** Keep the line target, restore, jump to the line. */
  function NewItems(): seq<Item> {
    [Op(Opcode(6, 0, 8, 3))] + Restores() + [Op(Opcode(4, 0, 2, 11)), Op(Opcode(6, 8, 15, 6))]
  }

  // ---------- the bytes are these items ----------

  lemma PlacedWord(base: int, bytes: seq<Byte>, at: nat)
    requires at + 4 <= |bytes|
    ensures Long(Placed(base, bytes), base + at) == Some(WordAt(bytes, at))
  {
    PlacedLong(base, bytes, at);
  }

  lemma EpilogueMatches(base: int, bytes: seq<Byte>, at: nat)
    requires at + 16 <= |bytes| && bytes[at..at + 16] == Epilogue()[..16]
    ensures Matches(Placed(base, bytes), base + at, Restores())
  {
    var image := Placed(base, bytes);
    forall i | 0 <= i < 8 ensures ItemAt(image, base + at + 2 * i, Restores()[i]) {
      PlacedHalf(base, bytes, at + 2 * i);
      assert bytes[at + 2 * i] == bytes[at..at + 16][2 * i] && bytes[at + 2 * i + 1] == bytes[at..at + 16][2 * i + 1];
      EpilogueOps(i);
    }
  }

  lemma EpilogueOps(i: nat)
    requires i < 8
    ensures Restores()[i] == Op(OpcodeOf(Epilogue()[2 * i], Epilogue()[2 * i + 1]))
  {
  }

  lemma Joined(image: Image, at: int, first: seq<Item>, second: seq<Item>)
    requires Matches(image, at, first) && Matches(image, at + 2 * |first|, second)
    ensures Matches(image, at, first + second)
  {
    hide Matches;
    assert (first + second)[..|first|] == first && (first + second)[|first|..] == second;
    MatchesJoin(image, at, first + second, |first|);
  }

  lemma OldMatches(base: int, body: seq<Byte>)
    requires Recognised(body) && base % 4 == 0
    ensures Matches(Placed(base, body), base + TAIL, OldItems(WordAt(body, PAUSE)))
  {
    hide Matches, WordAt, Restores, Recognised;
    var image := Placed(base, body);
    var pause := RecognisedPause(body);
    OldHead(base, body);
    OldLast(base, body);
    OldMiddle(base, body);
    EightRestores();
    var head := [Op(Opcode(4, 8, 0, 11)), Op(NOP), Lit(1, pause), Op(Opcode(14, 4, 7, 8))];
    Joined(image, base + TAIL, head, Restores());
    Joined(image, base + TAIL, head + Restores(), [Op(Opcode(4, 1, 2, 11)), Op(Opcode(6, 8, 15, 6))]);
  }

  lemma EightRestores()
    ensures |Restores()| == 8
  {
  }

  lemma OldMiddle(base: int, body: seq<Byte>)
    requires Recognised(body)
    ensures Matches(Placed(base, body), base + 0x31a, Restores())
  {
    hide Matches, Restores;
    assert body[0x31a..0x32a] == body[0x31a..MASK][..16];
    EpilogueMatches(base, body, 0x31a);
  }

  lemma OldHead(base: int, body: seq<Byte>)
    requires Recognised(body) && base % 4 == 0
    ensures Matches(Placed(base, body), base + TAIL,
      [Op(Opcode(4, 8, 0, 11)), Op(NOP), Lit(1, WordAt(body, PAUSE)), Op(Opcode(14, 4, 7, 8))])
  {
    hide Half, Long, WordAt;
    var tail := body[TAIL..0x31a];
    assert body[0x312] == tail[0] && body[0x313] == tail[1] && body[0x314] == tail[2] && body[0x315] == tail[3];
    assert body[0x316] == tail[4] && body[0x317] == tail[5] && body[0x318] == tail[6] && body[0x319] == tail[7];
    PlacedHalf(base, body, 0x312);
    PlacedHalf(base, body, 0x314);
    PlacedHalf(base, body, 0x316);
    PlacedHalf(base, body, 0x318);
    PlacedWord(base, body, PAUSE);
    assert LiteralAddress(base + 0x316, Opcode(13, 1, 1, 13)) == base + PAUSE;
  }

  lemma OldLast(base: int, body: seq<Byte>)
    requires Recognised(body)
    ensures Matches(Placed(base, body), base + 0x32a, [Op(Opcode(4, 1, 2, 11)), Op(Opcode(6, 8, 15, 6))])
  {
    hide Half;
    var tail := body[0x31a..MASK];
    assert body[0x32a] == tail[16] && body[0x32b] == tail[17] && body[0x32c] == tail[18] && body[0x32d] == tail[19];
    PlacedHalf(base, body, 0x32a);
    PlacedHalf(base, body, 0x32c);
  }

  lemma NewBytes(body: seq<Byte>, r: seq<Byte>)
    requires Removed(body, r)
    ensures r[0x312] == 0x83 && r[0x313] == 0x60 && r[0x314..0x324] == Epilogue()[..16]
    ensures r[0x324] == 0x2b && r[0x325] == 0x40 && r[0x326] == 0xf6 && r[0x327] == 0x68
  {
    hide Spliced;
    forall i | 0x312 <= i < 0x328 ensures r[i] == Spliced(body)[i] { RemovedAt(body, r, i); }
    var tail := body[0x31a..MASK];
    forall i | 0x314 <= i < 0x324 ensures r[i] == tail[i - 0x314] { SplicedAt(body, i); }
    assert r[0x314..0x324] == tail[..16];
    SplicedAt(body, 0x326);
    SplicedAt(body, 0x327);
    assert body[0x32c] == tail[18] && body[0x32d] == tail[19];
  }

  lemma NewMatches(base: int, body: seq<Byte>, r: seq<Byte>)
    requires Removed(body, r)
    ensures Matches(Placed(base, r), base + TAIL, NewItems())
  {
    hide Half, Removed;
    var image := Placed(base, r);
    NewBytes(body, r);
    RemovedSize(body, r);
    PlacedHalf(base, r, 0x312);
    PlacedHalf(base, r, 0x324);
    PlacedHalf(base, r, 0x326);
    EpilogueMatches(base, r, 0x314);
    var first, last := [Op(Opcode(6, 0, 8, 3))], [Op(Opcode(4, 0, 2, 11)), Op(Opcode(6, 8, 15, 6))];
    assert Matches(image, base + 0x324, last);
    Joined(image, base + TAIL, first, Restores());
    Joined(image, base + TAIL, first + Restores(), last);
  }

  // ---------- the bytes executed ----------

  /** The registers a caller gets back: SP past the frame, PR and r8-r14 from it. */
  ghost predicate Restored(mem: Memory, sp: Word, after: Cpu) {
    && after.r[15] == StackWord(sp, 10) && after.pr == Stored(mem, sp, 2) && after.mem == mem
    && forall i: Nibble {:trigger after.r[i]} :: 8 <= i <= 14 ==> after.r[i] == Stored(mem, sp, 17 - i)
  }

  lemma RestoresRun(cpu: Cpu, sp: Word) returns (after: Cpu)
    requires sp % 4 == 0 && cpu.r[15] == sp
    ensures ApplyAll(Restores(), cpu) == Running(after)
    ensures after == cpu.(r := after.r, pr := Stored(cpu.mem, sp, 2)) && after.r[15] == StackWord(sp, 9)
    ensures forall i: Nibble {:trigger after.r[i]} :: i <= 8 ==> after.r[i] == cpu.r[i]
    ensures forall i: Nibble {:trigger after.r[i]} :: 9 <= i <= 14 ==> after.r[i] == Stored(cpu.mem, sp, 17 - i)
  {
    hide Exec, ApplyAll, Put, Popped, StackWord, Stored;
    var base := StackWord(sp, -3);
    StackWordAligned(sp, -3);
    forall k
      ensures StackWord(base, k) == StackWord(sp, k - 3) && Stored(cpu.mem, base, k) == Stored(cpu.mem, sp, k - 3)
    {
      ShiftedWord(cpu.mem, sp, k);
    }
    var c1 := Put(cpu, 15, StackWord(sp, 2));
    PutFrame(cpu, 15, StackWord(sp, 2));
    assert Apply(Op(Opcode(7, 15, 0, 8)), cpu) == Running(c1) by { AddsTwoWords(cpu, sp); }
    var c2 := Put(c1, 15, StackWord(sp, 3)).(pr := Stored(cpu.mem, base, 5));
    PutFrame(c1, 15, StackWord(sp, 3));
    PopsSystem(Opcode(4, 15, 2, 6), base, 5, c1, c2);
    ApplyTwo(Op(Opcode(7, 15, 0, 8)), Op(Opcode(4, 15, 2, 6)), cpu, c1, c2);
    PopsRun(c2, base, 6);
    PoppedFrame(c2, base, 6);
    PoppedLow(c2, base, 6);
    ApplyAppend([Op(Opcode(7, 15, 0, 8)), Op(Opcode(4, 15, 2, 6))], Pops(6), cpu);
    after := Popped(c2, base, 6);
  }

  lemma ShiftedWord(mem: Memory, sp: Word, k: int)
    ensures StackWord(StackWord(sp, -3), k) == StackWord(sp, k - 3)
    ensures Stored(mem, StackWord(sp, -3), k) == Stored(mem, sp, k - 3)
  {
    hide StackWord, Key;
    StackWordMoves(sp, -3, k);
  }

  lemma AddsTwoWords(cpu: Cpu, sp: Word)
    requires cpu.r[15] == sp
    ensures Exec(Opcode(7, 15, 0, 8), cpu) == Running(Put(cpu, 15, StackWord(sp, 2)))
  {
    hide Exec, Put;
    Instructions.AddImmediate(15, 0, 8, cpu);
  }

  /** Pops leave the registers below them alone. */
  lemma {:induction false} PoppedLow(cpu: Cpu, base: Word, count: int)
    requires base % 4 == 0 && 0 <= count <= 14
    ensures forall i: Nibble {:trigger Popped(cpu, base, count).r[i]} :: i < 15 - count ==>
      Popped(cpu, base, count).r[i] == cpu.r[i]
    decreases count
  {
    hide Put, Stored;
    if count > 0 {
      PoppedLow(cpu, base, count - 1);
      var mid := Popped(cpu, base, count - 1);
      PutFrame(mid, 15, StackWord(base, 6 + count));
      PutFrame(Put(mid, 15, StackWord(base, 6 + count)), 15 - count, Stored(cpu.mem, base, 5 + count));
    }
  }

  lemma LastPop(cpu: Cpu, sp: Word) returns (after: Cpu)
    requires sp % 4 == 0 && cpu.r[15] == StackWord(sp, 9)
    ensures Exec(Opcode(6, 8, 15, 6), cpu) == Running(after) && after == cpu.(r := after.r)
    ensures after.r[15] == StackWord(sp, 10) && after.r[8] == Stored(cpu.mem, sp, 9)
    ensures forall i: Nibble {:trigger after.r[i]} :: i != 8 && i != 15 ==> after.r[i] == cpu.r[i]
  {
    hide Exec, Put, StackWord, Key;
    StackWordMoves(sp, 0, 9);
    StackWordAligned(sp, 9);
    Instructions.PopLong(8, 15, cpu);
    var up := Put(cpu, 15, StackWord(sp, 10));
    PutFrame(cpu, 15, StackWord(sp, 10));
    PutFrame(up, 8, Stored(cpu.mem, sp, 9));
    after := Put(up, 8, Stored(cpu.mem, sp, 9));
  }

  lemma Parts(pause: Word)
    ensures |OldItems(pause)| == 14 && |NewItems()| == 11 && |Restores()| == 8 && AllStraight(Restores())
    ensures OldItems(pause)[0] == Op(Opcode(4, 8, 0, 11)) && OldItems(pause)[1] == Op(NOP)
    ensures OldItems(pause)[2..4] == [Lit(1, pause), Op(Opcode(14, 4, 7, 8))] && OldItems(pause)[4..12] == Restores()
    ensures OldItems(pause)[12] == Op(Opcode(4, 1, 2, 11)) && OldItems(pause)[13] == Op(Opcode(6, 8, 15, 6))
    ensures NewItems()[0..1] == [Op(Opcode(6, 0, 8, 3))] && NewItems()[1..9] == Restores()
    ensures NewItems()[9] == Op(Opcode(4, 0, 2, 11)) && NewItems()[10] == Op(Opcode(6, 8, 15, 6))
  {
  }

  /** The old tail calls the line with everything as it stands. */
  lemma OldCallsLine(base: int, body: seq<Byte>, code: Code, s: State) returns (line: State)
    requires Recognised(body) && base % 4 == 0 && Loaded(Placed(base, body), code) && Alias(s.pc, base + TAIL)
    ensures Reaches(code, s, line) && line == State(s.cpu.r[8], s.cpu.(pr := Plus(s.pc, 4)))
    ensures Alias(line.cpu.pr, base + 0x316)
  {
    hide Step, Exec, Loaded, Reaches, Alias, Matches, OldItems, WordAt, Recognised;
    var pause := RecognisedPause(body);
    OldMatches(base, body);
    Parts(pause);
    Instructions.Nop(s.cpu.(pr := Plus(s.pc, 4)));
    line := JumpReached(Placed(base, body), code, base + TAIL, OldItems(pause), 0, Opcode(4, 8, 0, 11), NOP, s,
      s.cpu.(pr := Plus(s.pc, 4)));
    AliasPlus(s.pc, base + TAIL, 4);
  }

  lemma RecognisedPause(body: seq<Byte>) returns (pause: Word)
    requires Recognised(body)
    ensures |body| == BODY_BYTES && pause == WordAt(body, PAUSE)
  {
    pause := WordAt(body, PAUSE);
  }

  /** When the line returns, the old tail restores and enters the pause with 120. */
  lemma OldEntersPause(base: int, body: seq<Byte>, code: Code, back: State, sp: Word) returns (hold: State)
    requires Recognised(body) && base % 4 == 0 && Loaded(Placed(base, body), code) && Alias(back.pc, base + 0x316)
    requires sp % 4 == 0 && back.cpu.r[15] == sp
    ensures Reaches(code, back, hold) && hold.pc == WordAt(body, PAUSE) && hold.cpu.r[4] == 120
    ensures Restored(back.cpu.mem, sp, hold.cpu)
  {
    hide Step, Exec, Loaded, Reaches, Alias, Matches, OldItems, Restores, ApplyAll, Put, WordAt, Recognised, Stored;
    var pause := RecognisedPause(body);
    var image, items := Placed(base, body), OldItems(pause);
    OldMatches(base, body);
    Parts(pause);
    var c1 := Put(back.cpu, 1, pause);
    PutFrame(back.cpu, 1, pause);
    var c2 := Put(c1, 4, 120);
    PutFrame(c1, 4, 120);
    assert Apply(Op(Opcode(14, 4, 7, 8)), c1) == Running(c2) by { Instructions.MovImmediate(4, 7, 8, c1); }
    ApplyTwo(Lit(1, pause), Op(Opcode(14, 4, 7, 8)), back.cpu, c1, c2);
    var armed := PartReached(image, code, base + TAIL, items, 2, [Lit(1, pause), Op(Opcode(14, 4, 7, 8))], back, c2);
    var c3 := RestoresRun(c2, sp);
    var ready := PartReached(image, code, base + TAIL, items, 4, Restores(), armed, c3);
    ReachesCompose(code, back, armed, ready);
    var c4 := LastPop(c3, sp);
    hold := JumpReached(image, code, base + TAIL, items, 12, Opcode(4, 1, 2, 11), Opcode(6, 8, 15, 6), ready, c4);
    ReachesCompose(code, back, ready, hold);
  }

  /** The new tail restores the same frame and enters the line with the same arguments. */
  lemma NewCallsLine(base: int, body: seq<Byte>, r: seq<Byte>, code: Code, s: State, sp: Word) returns (line: State)
    requires Removed(body, r) && Loaded(Placed(base, r), code) && Alias(s.pc, base + TAIL)
    requires sp % 4 == 0 && s.cpu.r[15] == sp
    ensures Reaches(code, s, line) && line.pc == s.cpu.r[8]
    ensures forall i: Nibble {:trigger line.cpu.r[i]} :: 1 <= i <= 7 ==> line.cpu.r[i] == s.cpu.r[i]
    ensures Restored(s.cpu.mem, sp, line.cpu) && line.cpu == s.cpu.(r := line.cpu.r, pr := line.cpu.pr)
  {
    hide Step, Exec, Loaded, Reaches, Alias, Matches, NewItems, Restores, ApplyAll, Put, Removed, Stored;
    var image, items := Placed(base, r), NewItems();
    NewMatches(base, body, r);
    Parts(0);
    var c1 := Put(s.cpu, 0, s.cpu.r[8]);
    PutFrame(s.cpu, 0, s.cpu.r[8]);
    assert Apply(Op(Opcode(6, 0, 8, 3)), s.cpu) == Running(c1) by { Instructions.Mov(0, 8, s.cpu); }
    ApplyOne(Op(Opcode(6, 0, 8, 3)), s.cpu, c1);
    var kept := PartReached(image, code, base + TAIL, items, 0, [Op(Opcode(6, 0, 8, 3))], s, c1);
    var c2 := RestoresRun(c1, sp);
    var ready := PartReached(image, code, base + TAIL, items, 1, Restores(), kept, c2);
    ReachesCompose(code, s, kept, ready);
    var c3 := LastPop(c2, sp);
    line := JumpReached(image, code, base + TAIL, items, 9, Opcode(4, 0, 2, 11), Opcode(6, 8, 15, 6), ready, c3);
    ReachesCompose(code, s, ready, line);
  }

  /** What the C ABI promises of a call: SP and r8-r14 kept, and the caller's frame untouched. */
  ghost predicate Returns(call: State, back: State, sp: Word) {
    && sp % 4 == 0 && back.pc == call.cpu.pr
    && (forall i: Nibble {:trigger back.cpu.r[i]} :: i >= 8 ==> back.cpu.r[i] == call.cpu.r[i])
    && forall k {:trigger Stored(back.cpu.mem, sp, k)} :: 2 <= k <= 9 ==>
      Stored(back.cpu.mem, sp, k) == Stored(call.cpu.mem, sp, k)
  }

  /** Both tails from one state: the same line call, the same SP, PR and r8-r14 given back, and the old
      one alone goes on to hold for 120 frames. */
  lemma TailsAgree(base: int, body: seq<Byte>, r: seq<Byte>, code: Code, newCode: Code, s: State, sp: Word, back: State)
    returns (line: State, hold: State, newLine: State)
    requires Removed(body, r) && base % 4 == 0 && Loaded(Placed(base, body), code) && Loaded(Placed(base, r), newCode)
    requires Alias(s.pc, base + TAIL) && sp % 4 == 0 && s.cpu.r[15] == sp
    requires Returns(State(s.cpu.r[8], s.cpu.(pr := Plus(s.pc, 4))), back, sp)
    ensures Reaches(code, s, line) && back.pc == line.cpu.pr && Reaches(code, back, hold)
      && Reaches(newCode, s, newLine)
    ensures newLine.pc == line.pc
    ensures forall i: Nibble {:trigger newLine.cpu.r[i]} :: 4 <= i <= 7 ==> newLine.cpu.r[i] == line.cpu.r[i]
    ensures forall i: Nibble {:trigger newLine.cpu.r[i]} :: 8 <= i ==> newLine.cpu.r[i] == hold.cpu.r[i]
    ensures newLine.cpu.pr == hold.cpu.pr && newLine.cpu.mem == s.cpu.mem
    ensures hold.pc == WordAt(body, PAUSE) && hold.cpu.r[4] == 120
  {
    hide Reaches, Loaded, Alias, Recognised, Spliced, Repair, Stored, WordAt;
    line := OldCallsLine(base, body, code, s);
    hold := OldEntersPause(base, body, code, back, sp);
    newLine := NewCallsLine(base, body, r, newCode, s, sp);
    assert Stored(back.cpu.mem, sp, 2) == Stored(s.cpu.mem, sp, 2);
    forall i: Nibble | 8 <= i ensures newLine.cpu.r[i] == hold.cpu.r[i] {
      if i < 15 { assert Stored(back.cpu.mem, sp, 17 - i) == Stored(s.cpu.mem, sp, 17 - i); }
    }
  }
}
