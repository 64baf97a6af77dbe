/** The trampoline where it really runs: its 128 bytes copied over the owner's executable entry. */
module EntryCopy {
  import opened Words
  import opened Opcodes
  import opened Sh4
  import opened Cursor
  import opened EntryFrame
  import opened EntryResume
  import Instructions

  const TEMPLATE: int := 128
  const LOAD: int := 48
  const REACH: int := 1076

  predicate SameByte(code: Code, start: int, entry: int, i: int) {
    CodeByte(code, start + i).Some? && CodeByte(code, entry + i) == CodeByte(code, start + i)
  }

  /** The template's bytes stand at the entry too. */
  ghost predicate Copied(code: Code, start: int, entry: int) {
    forall i :: 0 <= i < 128 ==> SameByte(code, start, entry, i)
  }

  /** How far behind `at` the trampoline's one literal load reads when the trampoline stands there. */
  function LoadOffset(at: int, load: Opcode): int { LiteralAddress(at + LOAD, load) - at }

  /** The load of an accepted trampoline. */
  function LoadOf(image: Image): Opcode
    requires EntryAccepted(image)
  {
    LoadAccepted(image);
    Half(image, image.symbols["__disc_vmu_trampoline_start"] + LOAD).value
  }

  lemma LoadAccepted(image: Image)
    requires EntryAccepted(image)
    ensures var start: int := image.symbols["__disc_vmu_trampoline_start"];
      var load, resume := Half(image, start + LOAD), image.symbols["_kui_disc_vmu_game_resume"];
      && load.Some? && load.value.top == 13 && load.value.n == 0
      && Long(image, LiteralAddress(start + LOAD, load.value)) == Some(resume + UNCACHED)
  {
    hide Trampoline, ResumeHead, ResumeTail, Bytes;
    var start: int, resume := image.symbols["__disc_vmu_trampoline_start"], image.symbols["_kui_disc_vmu_game_resume"];
    var items := Trampoline(resume);
    TrampolineParts(resume);
    assert items[24] == items[21..25][3] == Lit(0, resume + UNCACHED);
    assert ItemAt(image, start + 2 * 24, items[24]);
  }

  /** The literal lies in the copied bytes, and the copy is aligned like its template. */
  predicate Relocatable(image: Image, entry: int)
    requires EntryAccepted(image)
  {
    var start: int := image.symbols["__disc_vmu_trampoline_start"];
    LoadOffset(start, LoadOf(image)) + 4 <= TEMPLATE && start % 4 == entry % 4
  }

  // ---------- a stretch of code as an image ----------

  predicate Present(code: Code, at: int, i: int) { CodeByte(code, at + i).Some? }

  ghost predicate Populated(code: Code, at: int, size: nat) { forall i :: 0 <= i < size ==> Present(code, at, i) }

  function Window(code: Code, at: int, size: nat): (bytes: seq<Byte>)
    ensures |bytes| == size && forall i :: 0 <= i < size ==> bytes[i] == ByteOr0(code, at + i)
  {
    seq<Byte>(size, i => ByteOr0(code, at + i))
  }

  function ByteOr0(code: Code, a: int): Byte { if CodeByte(code, a).Some? then CodeByte(code, a).value else 0 }

  lemma WindowLoaded(code: Code, at: int, size: nat)
    requires Populated(code, at, size)
    ensures Loaded(Placed(at, Window(code, at, size)), code)
  {
    hide CodeByte;
    var image := Placed(at, Window(code, at, size));
    forall s, i | s in image.sections && 0 <= i < |s.data| ensures CodeByte(code, s.address + i) == Some(s.data[i]) {
      assert Present(code, at, i);
    }
  }

  lemma WindowReads(code: Code, at: int, size: nat, i: nat)
    requires Populated(code, at, size)
    ensures i + 2 <= size ==> Half(Placed(at, Window(code, at, size)), at + i) == Fetch(code, at + i)
    ensures i + 4 <= size ==> Long(Placed(at, Window(code, at, size)), at + i) == FetchLong(code, at + i)
  {
    hide CodeByte, OpcodeOf, LongOf;
    var bytes := Window(code, at, size);
    assert i + 2 <= size ==> Present(code, at, i) && Present(code, at, i + 1);
    assert i + 4 <= size ==> Present(code, at, i + 2) && Present(code, at, i + 3);
    if i + 2 <= size { PlacedHalf(at, bytes, i); }
    if i + 4 <= size { PlacedLong(at, bytes, i); }
  }

  // ---------- where a copy jumps ----------

  lemma AlignmentDecides(start: int, entry: int, load: Opcode)
    ensures LoadOffset(entry, load) == LoadOffset(start, load) <==> start % 4 == entry % 4
    ensures 0 <= LoadOffset(entry, load) && LoadOffset(entry, load) + 4 <= REACH
  {
  }

  /** A copy of the trampoline, with whatever word its load finds there. */
  lemma CopyMatches(image: Image, code: Code, entry: int, size: nat, found: Word)
    requires Loaded(image, code) && EntryAccepted(image) && TEMPLATE <= size && Populated(code, entry, size)
    requires Copied(code, image.symbols["__disc_vmu_trampoline_start"], entry)
    requires LoadOffset(entry, LoadOf(image)) + 4 <= size
    requires FetchLong(code, entry + LoadOffset(entry, LoadOf(image))) == Some(found)
    ensures Matches(Placed(entry, Window(code, entry, size)), entry, Trampoline(found - UNCACHED))
  {
    hide Half, Long, Fetch, FetchLong, Loaded, ResumeHead, ResumeTail, Trampoline, Bytes, LoadOf, Copied, Populated;
    var start: int, resume := image.symbols["__disc_vmu_trampoline_start"], image.symbols["_kui_disc_vmu_game_resume"];
    var window, items := Placed(entry, Window(code, entry, size)), Trampoline(found - UNCACHED);
    AlignmentDecides(start, entry, LoadOf(image));
    WindowReads(code, entry, size, LoadOffset(entry, LoadOf(image)));
    TrampolineItems(found - UNCACHED, resume);
    forall i | 0 <= i < |items| ensures ItemAt(window, entry + 2 * i, items[i]) {
      HalfCopied(image, code, start, entry, resume, i);
      WindowReads(code, entry, size, 2 * i);
      if i == 24 { LoadNamed(image); } else { PlainHalf(image, start, resume, i); }
    }
  }

  lemma PlainHalf(image: Image, start: int, resume: int, i: nat)
    requires Matches(image, start, Trampoline(resume)) && i < 27 && i != 24
    ensures Half(image, start + 2 * i) == Some(SavedOp(i))
    ensures Trampoline(resume)[i] == Op(SavedOp(i))
  {
    hide Half, Trampoline;
    TrampolineItems(resume, 0);
    assert ItemAt(image, start + 2 * i, Trampoline(resume)[i]);
  }

  /** The opcode at item i, whatever the literal. */
  function SavedOp(i: nat): Opcode
    requires i < 27 && i != 24
  {
    TrampolineItems(0, 0);
    Trampoline(0)[i].op
  }

  lemma LoadNamed(image: Image)
    requires EntryAccepted(image)
    ensures var load := Half(image, image.symbols["__disc_vmu_trampoline_start"] + LOAD);
      load == Some(LoadOf(image)) && load.value.top == 13 && load.value.n == 0
  {
    hide EntryAccepted, Half;
    LoadAccepted(image);
  }

  /** Trampolines differ in one literal only. */
  lemma TrampolineItems(a: int, b: int)
    ensures |Trampoline(a)| == |Trampoline(b)| == 27 && Trampoline(a)[24] == Lit(0, a + UNCACHED)
    ensures forall i :: 0 <= i < 27 && i != 24 ==> Trampoline(a)[i] == Trampoline(b)[i] && Trampoline(a)[i].Op?
  {
  }

  lemma HalfCopied(image: Image, code: Code, start: int, entry: int, resume: int, i: nat)
    requires Loaded(image, code) && Matches(image, start, Trampoline(resume)) && Copied(code, start, entry) && i < 27
    ensures Fetch(code, entry + 2 * i) == Half(image, start + 2 * i) && Half(image, start + 2 * i).Some?
  {
    hide Loaded, Half, CodeByte, Long, Trampoline;
    TrampolineItems(resume, resume);
    assert ItemAt(image, start + 2 * i, Trampoline(resume)[i]);
    HalfFetched(image, code, start + 2 * i, start + 2 * i);
    assert SameByte(code, start, entry, 2 * i) && SameByte(code, start, entry, 2 * i + 1);
  }

  lemma CopiedPopulated(code: Code, start: int, entry: int)
    requires Copied(code, start, entry)
    ensures Populated(code, entry, TEMPLATE)
  {
    hide CodeByte;
    forall i | 0 <= i < TEMPLATE ensures Present(code, entry, i) { assert SameByte(code, start, entry, i); }
  }

  /** Where an accepted trampoline goes when it runs as a copy: to the word its load finds there, with
      the whole frame saved.  So it enters the resume code exactly when that word is its address. */
  lemma CopyJumps(image: Image, code: Code, entry: int, owner: State) returns (next: State)
    requires Loaded(image, code) && EntryAccepted(image) && Populated(code, entry, REACH)
    requires Copied(code, image.symbols["__disc_vmu_trampoline_start"], entry)
    requires Alias(owner.pc, entry) && owner.cpu.r[15] % 4 == 0
    ensures FetchLong(code, entry + LoadOffset(entry, LoadOf(image))) == Some(next.pc)
    ensures Reaches(code, owner, next) && next.cpu == Masked(Saved(owner.cpu, FRAME_WORDS), next.pc)
  {
    hide Step, Loaded, Reaches, Alias, Matches, EntryAccepted, Copied, FetchLong, LoadOf, Trampoline, Saved, Masked;
    AlignmentDecides(image.symbols["__disc_vmu_trampoline_start"], entry, LoadOf(image)) by { HasStart(image); }
    var offset := LoadOffset(entry, LoadOf(image));
    var found := PresentLong(code, entry, offset);
    CopyMatches(image, code, entry, REACH, found);
    WindowLoaded(code, entry, REACH);
    next := TrampolineRuns(Placed(entry, Window(code, entry, REACH)), code, entry, found - UNCACHED, owner);
  }

  lemma HasStart(image: Image)
    requires EntryAccepted(image)
    ensures "__disc_vmu_trampoline_start" in image.symbols && "_kui_disc_vmu_game_resume" in image.symbols
    ensures "_kui_disc_vmu_stage_relay" in image.symbols
  {
  }

  lemma PresentLong(code: Code, entry: int, offset: nat) returns (found: Word)
    requires Populated(code, entry, REACH) && offset + 4 <= REACH
    ensures FetchLong(code, entry + offset) == Some(found)
  {
    hide CodeByte, LongOf;
    assert Present(code, entry, offset) && Present(code, entry, offset + 1);
    assert Present(code, entry, offset + 2) && Present(code, entry, offset + 3);
    found := FetchLong(code, entry + offset).value;
  }

  /** Inside the copied bytes the load finds what stands as far behind the template. */
  lemma FindsCopied(code: Code, start: int, entry: int, offset: nat)
    requires Copied(code, start, entry) && offset + 4 <= TEMPLATE
    ensures FetchLong(code, entry + offset) == FetchLong(code, start + offset)
  {
    hide CodeByte, LongOf;
    assert SameByte(code, start, entry, offset) && SameByte(code, start, entry, offset + 1);
    assert SameByte(code, start, entry, offset + 2) && SameByte(code, start, entry, offset + 3);
  }

  /** The load of a copy reads the copied literal itself exactly when the template is relocatable to
      that entry, and then it finds the uncached resume code. */
  lemma RelocatableExactly(image: Image, code: Code, entry: int)
    requires Loaded(image, code) && EntryAccepted(image)
    requires Copied(code, image.symbols["__disc_vmu_trampoline_start"], entry)
    ensures var load, start: int := LoadOf(image), image.symbols["__disc_vmu_trampoline_start"];
      && (Relocatable(image, entry) <==>
            LoadOffset(entry, load) == LoadOffset(start, load) && LoadOffset(entry, load) + 4 <= TEMPLATE)
      && (Relocatable(image, entry) ==>
            FetchLong(code, entry + LoadOffset(entry, load)) ==
              Some(image.symbols["_kui_disc_vmu_game_resume"] + UNCACHED))
  {
    hide Loaded, EntryAccepted, Copied, FetchLong, LiteralAddress, LoadOf, Half, Long;
    HasStart(image);
    var load, start: int := LoadOf(image), image.symbols["__disc_vmu_trampoline_start"];
    AlignmentDecides(start, entry, load);
    LoadAccepted(image);
    LoadNamed(image);
    if Relocatable(image, entry) {
      var literal := LiteralAddress(start + LOAD, load);
      LongFetched(image, code, literal, literal);
      FindsCopied(code, start, entry, LoadOffset(entry, load));
    }
  }

  /** Beyond the copied bytes nothing is bound: changing one byte that belongs neither to the image nor
      to the copy keeps both and sends the copy elsewhere. */
  lemma FarLiteralUnbound(image: Image, code: Code, entry: int) returns (other: Code)
    requires Loaded(image, code) && EntryAccepted(image)
    requires Copied(code, image.symbols["__disc_vmu_trampoline_start"], entry)
    requires LoadOffset(entry, LoadOf(image)) + 4 > TEMPLATE
    requires Unbound(image, entry, entry + LoadOffset(entry, LoadOf(image)) + 3)
    ensures Loaded(image, other) && Copied(other, image.symbols["__disc_vmu_trampoline_start"], entry)
    ensures FetchLong(other, entry + LoadOffset(entry, LoadOf(image))) !=
      Some(image.symbols["_kui_disc_vmu_game_resume"] + UNCACHED)
  {
    hide EntryAccepted, LoadOf, LoadOffset, Physical;
    HasStart(image);
    var start, target :=
      image.symbols["__disc_vmu_trampoline_start"], image.symbols["_kui_disc_vmu_game_resume"] + UNCACHED;
    var last := entry + LoadOffset(entry, LoadOf(image)) + 3;
    other := code[Physical(last) := 0];
    forall s, i | s in image.sections && 0 <= i < |s.data| ensures CodeByte(other, s.address + i) == Some(s.data[i]) {
      assert CodeByte(code, s.address + i) == Some(s.data[i]);
      assert !TouchesImage(image, s, i, last);
    }
    forall i | 0 <= i < TEMPLATE ensures SameByte(other, start, entry, i) {
      assert SameByte(code, start, entry, i) && !TouchesCopy(start, entry, i, last);
    }
    TopByte(other, last - 3, target);
  }

  predicate TouchesImage(image: Image, s: Section, i: int, a: int) {
    s in image.sections && 0 <= i < |s.data| && Physical(s.address + i) == Physical(a)
  }

  predicate TouchesCopy(start: int, entry: int, i: int, a: int) {
    0 <= i < TEMPLATE && (Physical(start + i) == Physical(a) || Physical(entry + i) == Physical(a))
  }

  /** An address outside the image, the template and the copy. */
  ghost predicate Unbound(image: Image, entry: int, a: int)
    requires "__disc_vmu_trampoline_start" in image.symbols
  {
    && (forall s, i :: !TouchesImage(image, s, i, a))
    && forall i :: !TouchesCopy(image.symbols["__disc_vmu_trampoline_start"], entry, i, a)
  }

  lemma TopByte(code: Code, a: int, target: int)
    requires CodeByte(code, a + 3) == Some(0) && target >= UNCACHED
    ensures FetchLong(code, a) != Some(target)
  {
    hide CodeByte;
  }

  /** Every memory that holds the image and the copy sends the copy into the resume code. */
  ghost predicate AlwaysEnters(image: Image, entry: int)
    requires EntryAccepted(image)
  {
    forall code :: Loaded(image, code) && Copied(code, image.symbols["__disc_vmu_trampoline_start"], entry) ==>
      FetchLong(code, entry + LoadOffset(entry, LoadOf(image))) ==
        Some(image.symbols["_kui_disc_vmu_game_resume"] + UNCACHED)
  }

  /** The resume address stands where the copy's load reads, counted from the template. */
  predicate Stands(image: Image, code: Code, entry: int)
    requires EntryAccepted(image)
  {
    FetchLong(code, image.symbols["__disc_vmu_trampoline_start"] + LoadOffset(entry, LoadOf(image))) ==
      Some(image.symbols["_kui_disc_vmu_game_resume"] + UNCACHED)
  }

  /** Inside the copied bytes a copy enters the resume code exactly when the template has its address as
      far behind, and the image decides that when it holds the word. */
  lemma EntersInside(image: Image, code: Code, entry: int)
    requires Loaded(image, code) && EntryAccepted(image)
    requires Copied(code, image.symbols["__disc_vmu_trampoline_start"], entry)
    requires LoadOffset(entry, LoadOf(image)) + 4 <= TEMPLATE
    ensures Stands(image, code, entry) <==>
      (FetchLong(code, entry + LoadOffset(entry, LoadOf(image))) ==
        Some(image.symbols["_kui_disc_vmu_game_resume"] + UNCACHED))
    ensures var word := Long(image, image.symbols["__disc_vmu_trampoline_start"] + LoadOffset(entry, LoadOf(image)));
      word.Some? ==>
        (Stands(image, code, entry) <==> word.value == image.symbols["_kui_disc_vmu_game_resume"] + UNCACHED)
  {
    hide Loaded, EntryAccepted, Copied, FetchLong, LoadOf, LoadOffset, Long;
    HasStart(image);
    var start: int, load := image.symbols["__disc_vmu_trampoline_start"], LoadOf(image);
    AlignmentDecides(start, entry, load);
    var offset := LoadOffset(entry, load);
    FindsCopied(code, start, entry, offset);
    if Long(image, start + offset).Some? { LongFetched(image, code, start + offset, start + offset); }
  }

  /** Every memory that holds the image and the copy has the resume address where the copy's load reads,
      counted from the template. */
  ghost predicate AlwaysStands(image: Image, entry: int)
    requires EntryAccepted(image)
  {
    forall code :: Loaded(image, code) && Copied(code, image.symbols["__disc_vmu_trampoline_start"], entry) ==>
      Stands(image, code, entry)
  }

  lemma AlwaysEntersInside(image: Image, entry: int)
    requires EntryAccepted(image) && LoadOffset(entry, LoadOf(image)) + 4 <= TEMPLATE
    ensures AlwaysEnters(image, entry) <==> AlwaysStands(image, entry)
  {
    hide Loaded, EntryAccepted, Copied, FetchLong, LoadOf, LoadOffset, Stands, Long;
    HasStart(image);
    forall c | Loaded(image, c) && Copied(c, image.symbols["__disc_vmu_trampoline_start"], entry)
      ensures Stands(image, c, entry) <==>
        (FetchLong(c, entry + LoadOffset(entry, LoadOf(image))) ==
          Some(image.symbols["_kui_disc_vmu_game_resume"] + UNCACHED))
    {
      EntersInside(image, c, entry);
    }
  }

  lemma NotAlwaysFar(image: Image, code: Code, entry: int)
    requires Loaded(image, code) && EntryAccepted(image)
    requires Copied(code, image.symbols["__disc_vmu_trampoline_start"], entry)
    requires LoadOffset(entry, LoadOf(image)) + 4 > TEMPLATE
    requires Unbound(image, entry, entry + LoadOffset(entry, LoadOf(image)) + 3)
    ensures !AlwaysEnters(image, entry)
  {
    hide Loaded, EntryAccepted, Copied, FetchLong, LoadOf, LoadOffset, Unbound;
    var other := FarLiteralUnbound(image, code, entry);
  }

  lemma AlwaysEntersRelocated(image: Image, entry: int)
    requires EntryAccepted(image) && Relocatable(image, entry)
    ensures AlwaysEnters(image, entry)
  {
    hide Loaded, EntryAccepted, Copied, FetchLong, LoadOf, LoadOffset, Relocatable;
    HasStart(image);
    forall c | Loaded(image, c) && Copied(c, image.symbols["__disc_vmu_trampoline_start"], entry)
      ensures FetchLong(c, entry + LoadOffset(entry, LoadOf(image))) ==
        Some(image.symbols["_kui_disc_vmu_game_resume"] + UNCACHED)
    {
      RelocatableExactly(image, c, entry);
    }
  }

  /** Inside the copied bytes the copy enters the resume code exactly when the template has its address as far
      behind; beyond them it never must.  For a copy aligned like its template that is relocatability. */
  lemma AlwaysEntersExactly(image: Image, code: Code, entry: int)
    requires Loaded(image, code) && EntryAccepted(image)
    requires Copied(code, image.symbols["__disc_vmu_trampoline_start"], entry)
    requires LoadOffset(entry, LoadOf(image)) + 4 > TEMPLATE ==>
      Unbound(image, entry, entry + LoadOffset(entry, LoadOf(image)) + 3)
    ensures AlwaysEnters(image, entry) <==>
      (LoadOffset(entry, LoadOf(image)) + 4 <= TEMPLATE && AlwaysStands(image, entry))
    ensures image.symbols["__disc_vmu_trampoline_start"] % 4 == entry % 4 ==>
      (AlwaysEnters(image, entry) <==> Relocatable(image, entry))
  {
    hide Loaded, EntryAccepted, Copied, LoadOf, LoadOffset, Unbound, AlwaysEnters, AlwaysStands;
    HasStart(image);
    AlignmentDecides(image.symbols["__disc_vmu_trampoline_start"], entry, LoadOf(image));
    if LoadOffset(entry, LoadOf(image)) + 4 > TEMPLATE {
      NotAlwaysFar(image, code, entry);
    } else {
      AlwaysEntersInside(image, entry);
      if Relocatable(image, entry) { AlwaysEntersRelocated(image, entry); }
    }
  }

  // ---------- the owner's way to the relay and back ----------

  /** Entering through a copy of an accepted, relocatable trampoline delivers the owner's complete frame
      to the relay. */
  lemma OwnerReachesRelay(image: Image, code: Code, entry: int, owner: State) returns (call: State)
    requires Loaded(image, code) && EntryAccepted(image) && Relocatable(image, entry)
    requires Copied(code, image.symbols["__disc_vmu_trampoline_start"], entry)
    requires Alias(owner.pc, entry) && owner.cpu.r[15] % 4 == 0
    ensures Reaches(code, owner, call)
    ensures RelayEntered(owner.cpu, image.symbols["_kui_disc_vmu_stage_relay"], call)
    ensures Alias(call.cpu.pr, ReturnPoint(image))
  {
    hide Loaded, Reaches, Alias, Matches, EntryAccepted, Copied, FetchLong, LoadOf, LoadOffset, RelayEntered,
      Trampoline;
    HasStart(image);
    RelocatableExactly(image, code, entry);
    CopiedPopulated(code, image.symbols["__disc_vmu_trampoline_start"], entry);
    var resume := image.symbols["_kui_disc_vmu_game_resume"];
    CopyMatches(image, code, entry, TEMPLATE, resume + UNCACHED);
    WindowLoaded(code, entry, TEMPLATE);
    call := TemplateReachesRelay(image, code, Placed(entry, Window(code, entry, TEMPLATE)), entry, owner);
  }

  /** What the relay must do: for every call it may get, return as promised. */
  ghost predicate Relays(owner: Cpu, relaySymbol: Word, relay: State -> State) {
    forall call :: RelayEntered(owner, relaySymbol, call) ==> RelayReturns(owner, call, relay(call))
  }

  /** From the owner's entry to the original executable, for every relay that keeps its contract and may
      replace the copied bytes while it runs. */
  lemma OwnerRoundTrip(image: Image, code: Code, after: Code, entry: int, owner: State, relay: State -> State)
    returns (call: State, final: State)
    requires Loaded(image, code) && Loaded(image, after) && EntryAccepted(image) && Relocatable(image, entry)
    requires Copied(code, image.symbols["__disc_vmu_trampoline_start"], entry)
    requires Alias(owner.pc, entry) && owner.cpu.r[15] % 4 == 0
    requires Relays(owner.cpu, image.symbols["_kui_disc_vmu_stage_relay"], relay)
    ensures Reaches(code, owner, call) && call.pc == image.symbols["_kui_disc_vmu_stage_relay"]
    ensures Reaches(after, relay(call), final) && final.pc == 0xac01_0000
    ensures OwnerReturned(owner.cpu, relay(call).cpu, final.cpu)
    ensures OwnerRestored(owner.cpu, relay(call).cpu, final.cpu) <==>
      forall k :: 0 <= k < FRAME_WORDS && OverCcr(owner.cpu, k) ==> Harmless(owner.cpu, relay(call).cpu, k)
  {
    hide Loaded, Reaches, Alias, EntryAccepted, Copied, Relocatable, RelayReturns, OwnerReturned, OwnerRestored,
      Harmless, OverCcr;
    HasStart(image);
    call := OwnerReachesRelay(image, code, entry, owner);
    final := EntryRoundTrip(image, after, owner, call, relay(call));
  }

  /** A misaligned owner stack faults at the first save. */
  lemma MisalignedOwnerFaults(image: Image, code: Code, entry: int, owner: State)
    requires Loaded(image, code) && EntryAccepted(image)
    requires Copied(code, image.symbols["__disc_vmu_trampoline_start"], entry)
    requires Alias(owner.pc, entry) && owner.cpu.r[15] % 4 != 0
    ensures Step(code, owner).None?
  {
    hide Loaded, Half, CodeByte, Exec, Trampoline, ResumeHead, ResumeTail, Bytes, Key;
    var start: int, resume := image.symbols["__disc_vmu_trampoline_start"], image.symbols["_kui_disc_vmu_game_resume"];
    HalfCopied(image, code, start, entry, resume, 0);
    FirstItem(resume);
    assert ItemAt(image, start + 2 * 0, Trampoline(resume)[0]);
    FetchAlias(code, owner.pc, entry);
    StepPlain(code, owner, Opcode(2, 15, 0, 6));
    Instructions.PushLong(15, 0, owner.cpu);
    StaysMisaligned(owner.cpu.r[15]);
  }

  lemma FirstItem(resume: int)
    ensures |Trampoline(resume)| == 27 && Trampoline(resume)[0] == Op(Opcode(2, 15, 0, 6))
  {
  }

  lemma FetchAlias(code: Code, a: int, b: int)
    requires Alias(a, b)
    ensures Fetch(code, a) == Fetch(code, b)
  {
    hide Physical, OpcodeOf;
    AliasPlus(a, b, 1);
  }

  lemma StaysMisaligned(sp: Word)
    requires sp % 4 != 0
    ensures Minus(sp, 4) % 4 != 0
  {
    hide Wrap;
    WrapAlignment(sp - 4);
  }
}
