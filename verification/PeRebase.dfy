/** Rebasing the text of a PE image by its HIGHLOW fixups. */
module PeRebase {
  import opened Words
  import opened LittleEndian

  datatype Section = Section(rva: nat, rawBytes: nat, rawOffset: nat)

  datatype Image = Image(data: seq<Byte>, imageBytes: nat, headerBytes: nat, sections: seq<Section>,
    directories: seq<(nat, nat)>, imageBase: Word)

  // ---------- file offsets ----------

  function HeaderEnd(pe: Image): nat { if pe.headerBytes <= |pe.data| then pe.headerBytes else |pe.data| }

  predicate Backs(s: Section, rva: int, size: nat) { s.rva <= rva && rva + size <= s.rva + s.rawBytes }

  function Backing(sections: seq<Section>, rva: int, size: nat): (r: seq<Section>)
    ensures forall s :: s in r <==> s in sections && Backs(s, rva, size)
    ensures |r| <= |sections|
  {
    if sections == [] then []
    else (if Backs(sections[0], rva, size) then [sections[0]] else []) + Backing(sections[1..], rva, size)
  }

  /** The header maps to itself; elsewhere exactly one section must hold the range. */
  function RvaOffset(pe: Image, rva: int, size: nat): Option<int> {
    if 0 <= rva && rva + size <= HeaderEnd(pe) then Some(rva)
    else
      var found := Backing(pe.sections, rva, size);
      if |found| != 1 then None else Some(found[0].rawOffset + rva - found[0].rva)
  }

  function Read(pe: Image, offset: int, size: nat): (r: Option<seq<Byte>>)
    ensures r.Some? ==> |r.value| == size
  {
    if 0 <= offset && offset + size <= |pe.data| then Some(pe.data[offset..offset + size]) else None
  }

  // ---------- rebasing, byte by byte ----------

  /** The fixup that covers an address, if one does. */
  function Cover(targets: set<int>, at: int): (t: Option<int>)
    ensures t.Some? ==> t.value in targets && t.value <= at < t.value + 4
    ensures t.None? ==> forall u :: u in targets ==> !(u <= at < u + 4)
  {
    if at in targets then Some(at)
    else if at - 1 in targets then Some(at - 1)
    else if at - 2 in targets then Some(at - 2)
    else if at - 3 in targets then Some(at - 3)
    else None
  }

  /** Any two fixups are at least four bytes apart. */
  ghost predicate Spread(targets: set<int>) {
    forall t, u :: t in targets && u in targets && t != u ==> t + 4 <= u || u + 4 <= t
  }

  predicate Inside(t: int, start: int, size: nat) { start <= t && t + 4 <= start + size }

  predicate Overlaps(t: int, start: int, size: nat) { t < start + size && t + 4 > start }

  ghost predicate NoStraddle(targets: set<int>, start: int, size: nat) {
    forall t :: t in targets && Overlaps(t, start, size) ==> Inside(t, start, size)
  }

  predicate Among(at: int, low: int, size: nat) { low <= at < low + size }

  /** Both by the four bytes of the fixup. */
  lemma FixupBytes(t: int, start: int, size: nat)
    ensures Inside(t, start, size) <==> forall at :: Among(at, t, 4) ==> Among(at, start, size)
    ensures Overlaps(t, start, size) && size > 0 <==> exists at :: Among(at, t, 4) && Among(at, start, size)
  {
    var first := if t < start then start else t;
    assert Among(t, t, 4) && Among(t + 3, t, 4) && (t <= first <= t + 3 ==> Among(first, t, 4));
    if Overlaps(t, start, size) && size > 0 { assert Among(first, t, 4) && Among(first, start, size); }
    if forall at :: Among(at, t, 4) ==> Among(at, start, size) { assert Among(t + 3, start, size); }
  }

  /** Every byte of the range is stored by the section. */
  ghost predicate HoldsRange(s: Section, rva: int, size: nat) {
    forall at :: Among(at, rva, size) ==> Among(at, s.rva, s.rawBytes)
  }

  /** Every byte of the range is a header byte of the file. */
  ghost predicate HeaderRange(pe: Image, rva: int, size: nat) {
    forall at :: Among(at, rva, size) ==> Among(at, 0, pe.headerBytes) && Among(at, 0, |pe.data|)
  }

  lemma RangeEnds(rva: int, size: nat, low: int, bytes: nat)
    requires size > 0
    ensures (forall at :: Among(at, rva, size) ==> Among(at, low, bytes)) <==> low <= rva && rva + size <= low + bytes
  {
    assert Among(rva, rva, size) && Among(rva + size - 1, rva, size);
  }

  /** A range's place in the file, by its bytes: the header's own, or in the only section that stores them all. */
  lemma OffsetExactly(pe: Image, rva: int, size: nat)
    requires size > 0
    ensures var found := Backing(pe.sections, rva, size);
      RvaOffset(pe, rva, size) ==
        if HeaderRange(pe, rva, size) then Some(rva)
        else if |found| == 1 then Some(found[0].rawOffset + rva - found[0].rva) else None
    ensures forall s :: s in Backing(pe.sections, rva, size) <==> s in pe.sections && HoldsRange(s, rva, size)
  {
    RangeEnds(rva, size, 0, pe.headerBytes);
    RangeEnds(rva, size, 0, |pe.data|);
    forall s ensures Backs(s, rva, size) <==> HoldsRange(s, rva, size) { RangeEnds(rva, size, s.rva, s.rawBytes); }
  }

  /** Bytes outside fixups are kept; a fixup's word moves by delta modulo 2^32. */
  function RebasedByte(b: seq<Byte>, start: int, targets: set<int>, delta: int, i: nat): Byte
    requires i < |b|
  {
    match Cover(targets, start + i)
    case None => b[i]
    case Some(t) =>
      if Inside(t, start, |b|) then ByteOf(Wrap(WordAt(b, t - start) + delta), start + i - t) else b[i]
  }

  function Rebased(b: seq<Byte>, start: int, targets: set<int>, delta: int): (r: seq<Byte>)
    ensures |r| == |b|
    ensures forall i :: 0 <= i < |b| ==> r[i] == RebasedByte(b, start, targets, delta, i)
  {
    seq(|b|, i requires 0 <= i < |b| => RebasedByte(b, start, targets, delta, i))
  }

  lemma CoverIs(targets: set<int>, t: int, at: int)
    requires Spread(targets) && t in targets && t <= at < t + 4
    ensures Cover(targets, at) == Some(t)
  {
  }

  /** A fixup's word after rebasing is its old word plus delta. */
  lemma RebasedWord(b: seq<Byte>, start: int, targets: set<int>, delta: int, t: int)
    requires Spread(targets) && t in targets && Inside(t, start, |b|)
    ensures WordAt(Rebased(b, start, targets, delta), t - start) == Wrap(WordAt(b, t - start) + delta)
  {
    hide ByteOf, WordAt, Wrap;
    var r, w := Rebased(b, start, targets, delta), Wrap(WordAt(b, t - start) + delta);
    forall k | 0 <= k < 4 ensures r[t - start + k] == ByteOf(w, k) { CoverIs(targets, t, t + k); }
    WordOfBytes(r, t - start, w);
  }

  /** Rebasing by the opposite delta gives the bytes back. */
  lemma RebaseUndone(b: seq<Byte>, start: int, targets: set<int>, delta: int)
    requires Spread(targets)
    ensures Rebased(Rebased(b, start, targets, delta), start, targets, -delta) == b
  {
    hide ByteOf, WordAt, Wrap;
    var once := Rebased(b, start, targets, delta);
    forall i | 0 <= i < |b| ensures RebasedByte(once, start, targets, -delta, i) == b[i] {
      match Cover(targets, start + i)
      case None =>
      case Some(t) =>
        if Inside(t, start, |b|) {
          RebasedWord(b, start, targets, delta, t);
          WrapUndone(WordAt(b, t - start), delta);
          BytesOfWord(b, t - start, start + i - t);
        }
    }
  }

  lemma WrapUndone(w: Word, delta: int)
    ensures Wrap(Wrap(w + delta) - delta) == w
  {
    hide Wrap;
    WrapIsMod(w + delta);
    WrapIsMod(Wrap(w + delta) - delta);
    assert ((w + delta) % 0x1_0000_0000 - delta) % 0x1_0000_0000 == w % 0x1_0000_0000 by { ModSame(w + delta, delta); }
  }

  lemma ModSame(x: int, delta: int)
    ensures (x % 0x1_0000_0000 - delta) % 0x1_0000_0000 == (x - delta) % 0x1_0000_0000
  {
    var q := x / 0x1_0000_0000;
    assert x - delta == x % 0x1_0000_0000 - delta + q * 0x1_0000_0000;
  }

  /** Rebasing a window no fixup straddles is the window of the rebased whole. */
  lemma WindowIsSlice(b: seq<Byte>, start: int, targets: set<int>, delta: int, from: nat, to: nat)
    requires Spread(targets) && from <= to <= |b| && NoStraddle(targets, start + from, to - from)
    ensures Rebased(b[from..to], start + from, targets, delta) == Rebased(b, start, targets, delta)[from..to]
  {
    hide ByteOf, WordAt, Wrap, Cover;
    var window := b[from..to];
    forall i | 0 <= i < |window|
      ensures Rebased(window, start + from, targets, delta)[i] == Rebased(b, start, targets, delta)[from..to][i]
    {
      match Cover(targets, start + from + i)
      case None =>
      case Some(t) =>
        assert Overlaps(t, start + from, to - from);
        assert Inside(t, start + from, to - from);
        SliceWord(b, from, to, t - start);
    }
  }

  // ---------- the in-place loops ----------

  function PatchedAt(b: seq<Byte>, at: nat, w: Word): (r: seq<Byte>)
    requires at + 4 <= |b|
    ensures |r| == |b|
    ensures forall i :: 0 <= i < |b| ==> r[i] == if at <= i < at + 4 then ByteOf(w, i - at) else b[i]
  {
    b[at := ByteOf(w, 0)][at + 1 := ByteOf(w, 1)][at + 2 := ByteOf(w, 2)][at + 3 := ByteOf(w, 3)]
  }

  /** One more fixup, whichever comes next. */
  lemma PatchIsRebase(b: seq<Byte>, start: int, done: set<int>, t: int, delta: int)
    requires Spread(done + {t}) && t !in done && Inside(t, start, |b|)
    ensures var before := Rebased(b, start, done, delta);
      PatchedAt(before, t - start, Wrap(WordAt(before, t - start) + delta)) == Rebased(b, start, done + {t}, delta)
  {
    hide ByteOf, Wrap, PatchedAt, Rebased, Cover, WordAt, Spread, RebasedByte;
    var before := Rebased(b, start, done, delta);
    WordUntouched(b, start, done, t, delta);
    var patched := PatchedAt(before, t - start, Wrap(WordAt(before, t - start) + delta));
    forall i | 0 <= i < |b| ensures patched[i] == Rebased(b, start, done + {t}, delta)[i] {
      ByteStep(b, start, done, t, delta, i);
    }
  }

  /** The next fixup still holds its old word. */
  lemma WordUntouched(b: seq<Byte>, start: int, done: set<int>, t: int, delta: int)
    requires Spread(done + {t}) && t !in done && Inside(t, start, |b|)
    ensures WordAt(Rebased(b, start, done, delta), t - start) == WordAt(b, t - start)
  {
    hide ByteOf, Wrap, Rebased, Cover, Spread;
    var before := Rebased(b, start, done, delta);
    forall i | t - start <= i < t - start + 4 ensures before[i] == b[i] { CoverNone(done, t, start + i); }
  }

  lemma ByteStep(b: seq<Byte>, start: int, done: set<int>, t: int, delta: int, i: nat)
    requires Spread(done + {t}) && t !in done && Inside(t, start, |b|) && i < |b|
    ensures RebasedByte(b, start, done + {t}, delta, i) ==
      if t - start <= i < t - start + 4 then ByteOf(Wrap(WordAt(b, t - start) + delta), i - (t - start))
      else RebasedByte(b, start, done, delta, i)
  {
    hide ByteOf, Wrap, Cover, WordAt, Spread;
    if t <= start + i < t + 4 { CoverIs(done + {t}, t, start + i); }
    else { OtherCover(done, t, start + i); }
  }

  lemma CoverNone(done: set<int>, t: int, at: int)
    requires Spread(done + {t}) && t !in done && t <= at < t + 4
    ensures Cover(done, at).None?
  {
    assert forall u :: u in done ==> u in done + {t};
  }

  lemma OtherCover(done: set<int>, t: int, at: int)
    requires Spread(done + {t}) && !(t <= at < t + 4)
    ensures Cover(done + {t}, at) == Cover(done, at)
  {
  }

  lemma OutsideIsNothing(b: seq<Byte>, start: int, done: set<int>, t: int, delta: int)
    requires Spread(done + {t}) && !Overlaps(t, start, |b|)
    ensures Rebased(b, start, done + {t}, delta) == Rebased(b, start, done, delta)
  {
    hide ByteOf, Wrap, WordAt, Cover;
    forall i | 0 <= i < |b| ensures Rebased(b, start, done + {t}, delta)[i] == Rebased(b, start, done, delta)[i] {
      OtherCover(done, t, start + i);
    }
  }

  lemma NoFixups(b: seq<Byte>, start: int, delta: int)
    ensures Rebased(b, start, {}, delta) == b && NoStraddle({}, start, |b|) && Fixed({}, start, |b|) == {}
  {
  }

  lemma OneFixup(start: int, size: nat, done: set<int>, t: int, todo: set<int>, targets: set<int>)
    requires done + todo == targets && done !! todo && t in todo && Spread(targets) && NoStraddle(done, start, size)
    ensures Spread(done + {t}) && t !in done
    ensures done + {t} + (todo - {t}) == targets && done + {t} !! todo - {t} && |todo - {t}| < |todo|
    ensures Overlaps(t, start, size) && !Inside(t, start, size) ==> !NoStraddle(targets, start, size)
    ensures (Overlaps(t, start, size) ==> Inside(t, start, size)) ==> NoStraddle(done + {t}, start, size)
  {
    hide Overlaps, Inside;
    assert t in targets;
    OneLess(done, t, todo, targets);
    assert done + {t} <= targets;
  }

  lemma OneLess(done: set<int>, t: int, todo: set<int>, targets: set<int>)
    requires done + todo == targets && done !! todo && t in todo
    ensures done + {t} + (todo - {t}) == targets && done + {t} !! todo - {t} && |todo - {t}| < |todo|
  {
    assert todo == todo - {t} + {t};
    assert |todo| == |todo - {t}| + 1;
  }

  lemma OneCounted(start: int, size: nat, done: set<int>, t: int)
    requires t !in done
    ensures |Fixed(done + {t}, start, size)| == |Fixed(done, start, size)| + (if Overlaps(t, start, size) then 1 else 0)
  {
    hide Overlaps;
    assert Fixed(done + {t}, start, size) == Fixed(done, start, size) + (if Overlaps(t, start, size) then {t} else {});
  }

  lemma Member(s: set<int>)
    requires s != {}
    ensures exists x :: x in s
  {
    assert (forall x :: x !in s) ==> s == {};
  }

  function Fixed(targets: set<int>, start: int, size: nat): set<int> {
    set t | t in targets && Overlaps(t, start, size)
  }

  method Patch(a: array<Byte>, at: nat, w: Word)
    requires at + 4 <= a.Length
    modifies a
    ensures a[..] == PatchedAt(old(a[..]), at, w)
  {
    hide ByteOf;
    a[at] := ByteOf(w, 0);
    a[at + 1] := ByteOf(w, 1);
    a[at + 2] := ByteOf(w, 2);
    a[at + 3] := ByteOf(w, 3);
  }

  /** Rebase in place, taking the fixups in any order at all: one result, or a refusal exactly when a
      fixup straddles the text. */
  method RebaseText(a: array<Byte>, start: int, targets: set<int>, delta: int) returns (ok: bool, fixups: nat)
    requires Spread(targets)
    modifies a
    ensures ok <==> NoStraddle(targets, start, a.Length)
    ensures ok ==> a[..] == Rebased(old(a[..]), start, targets, delta)
    ensures ok ==> fixups == |Fixed(targets, start, a.Length)|
  {
    hide Rebased, WordAt, Wrap, ByteOf, PatchedAt, Spread, NoStraddle, Fixed;
    ghost var b := a[..];
    var todo := targets;
    ghost var done: set<int> := {};
    fixups := 0;
    NoFixups(b, start, delta);
    while todo != {}
      invariant done !! todo && done + todo == targets
      invariant NoStraddle(done, start, a.Length)
      invariant a[..] == Rebased(b, start, done, delta)
      invariant fixups == |Fixed(done, start, a.Length)|
      decreases |todo|
    {
      Member(todo);
      var t: int :| t in todo;
      OneFixup(start, a.Length, done, t, todo, targets);
      OneCounted(start, a.Length, done, t);
      if Overlaps(t, start, a.Length) {
        if !Inside(t, start, a.Length) { return false, fixups; }
        PatchIsRebase(b, start, done, t, delta);
        Patch(a, t - start, Wrap(WordAt(a[..], t - start) + delta));
        fixups := fixups + 1;
      } else {
        OutsideIsNothing(b, start, done, t, delta);
      }
      todo, done := todo - {t}, done + {t};
    }
    assert done == targets;
    ok := true;
  }

  // ---------- windows of the file ----------

  /** A window of a text range is stored at the same distance, exactly when it is not wholly inside
      the header or the text is stored at its own address. */
  lemma WindowOffset(pe: Image, start: int, size: nat, from: int, count: nat)
    requires start <= from && from + count <= start + size && 0 <= start
    requires RvaOffset(pe, start, size).Some? && RvaOffset(pe, from, count).Some?
    ensures RvaOffset(pe, from, count).value == RvaOffset(pe, start, size).value + (from - start)
      <==> (from + count > HeaderEnd(pe) || RvaOffset(pe, start, size).value == start)
  {
    if from + count > HeaderEnd(pe) {
      var whole, window := Backing(pe.sections, start, size), Backing(pe.sections, from, count);
      assert whole[0] in whole;
      assert Backs(whole[0], from, count) && whole[0] in window;
    }
  }

  /** If the whole rebased text equals the ROM text, every window that no fixup straddles and that is
      not in the header equals the ROM window too. */
  lemma WindowFollowsText(pe: Image, rom: seq<Byte>, start: nat, targets: set<int>, delta: int, from: nat, to: nat)
    requires Spread(targets) && start <= from <= to <= start + |rom| && to > HeaderEnd(pe)
    requires RvaOffset(pe, start, |rom|).Some? && RvaOffset(pe, from, to - from).Some?
    requires Read(pe, RvaOffset(pe, start, |rom|).value, |rom|).Some?
    requires Rebased(Read(pe, RvaOffset(pe, start, |rom|).value, |rom|).value, start, targets, delta) == rom
    requires NoStraddle(targets, from, to - from)
    ensures var window := Read(pe, RvaOffset(pe, from, to - from).value, to - from);
      window.Some? && Rebased(window.value, from, targets, delta) == rom[from - start..to - start]
  {
    hide Rebased, RvaOffset, NoStraddle, Spread, Read, RebasedByte, HeaderEnd;
    WindowOffset(pe, start, |rom|, from, to - from);
    var o := RvaOffset(pe, start, |rom|).value;
    ReadInside(pe, o, |rom|, from - start, to - start);
    WindowIsSlice(Read(pe, o, |rom|).value, start, targets, delta, from - start, to - start);
  }

  /** A read inside a read is its slice. */
  lemma ReadInside(pe: Image, offset: int, size: nat, from: nat, to: nat)
    requires Read(pe, offset, size).Some? && from <= to <= size
    ensures Read(pe, offset + from, to - from) == Some(Read(pe, offset, size).value[from..to])
  {
    SliceOfSlice(pe.data, offset, offset + size, from, to);
  }

  /** A text that begins inside the header: its first sixteen bytes are looked up at their own address,
      the whole text in its section. */
  lemma HeaderWindowMoves()
    ensures var pe := Image(seq(512, _ => 0), 512, 64, [Section(32, 128, 256)], [], 0);
      RvaOffset(pe, 32, 128) == Some(256) && RvaOffset(pe, 32, 16) == Some(32)
  {
    var sections := [Section(32, 128, 256)];
    assert sections[1..] == [] && Backing([], 32, 128) == [];
    assert Backing(sections, 32, 128) == [Section(32, 128, 256)];
  }
}
