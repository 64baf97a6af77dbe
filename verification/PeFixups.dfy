/** Reading the base relocation directory of a PE image: which fixups it names, and when it is accepted. */
module PeFixups {
  import opened Words
  import opened LittleEndian
  import opened PeRebase

  const ABSOLUTE: nat := 0
  const HIGHLOW: nat := 3

  datatype Entry = Entry(kind: nat, target: nat)

  function EntryAt(reloc: seq<Byte>, page: nat, at: nat): Entry
    requires at + 2 <= |reloc|
  {
    Entry(HalfAt(reloc, at) / 0x1000, page + HalfAt(reloc, at) % 0x1000)
  }

  function EntriesOf(reloc: seq<Byte>, page: nat, at: nat, end: nat): seq<Entry>
    requires end <= |reloc|
    decreases end - at
  {
    if at + 2 > end then [] else [EntryAt(reloc, page, at)] + EntriesOf(reloc, page, at + 2, end)
  }

  predicate BlockAt(imageBytes: nat, reloc: seq<Byte>, cursor: nat) {
    && cursor + 8 <= |reloc|
    && var page, block := WordAt(reloc, cursor), WordAt(reloc, cursor + 4);
       page % 0x1000 == 0 && page < imageBytes && 8 <= block && block % 4 == 0 && block <= |reloc| - cursor
  }

  /** All entries of the blocks that tile the directory; None if the blocks do not tile it. */
  function Entries(imageBytes: nat, reloc: seq<Byte>, cursor: nat): Option<seq<Entry>>
    decreases |reloc| - cursor
  {
    if cursor >= |reloc| then Some([])
    else if !BlockAt(imageBytes, reloc, cursor) then None
    else
      var page, block := WordAt(reloc, cursor), WordAt(reloc, cursor + 4);
      Prepend(EntriesOf(reloc, page, cursor + 8, cursor + block), Entries(imageBytes, reloc, cursor + block))
  }

  /** The directory's bytes, when it exists, fits the image and is stored in the file. */
  function Directory(pe: Image): Option<seq<Byte>> {
    if |pe.directories| <= 5 then None
    else
      var (rva, count) := pe.directories[5];
      if rva == 0 || count == 0 || count > |pe.data| || rva + count > pe.imageBytes then None
      else match RvaOffset(pe, rva, count)
        case None => None
        case Some(offset) => Read(pe, offset, count)
  }

  function Parsed(pe: Image): Option<seq<Entry>> {
    match Directory(pe) case None => None case Some(reloc) => Entries(pe.imageBytes, reloc, 0)
  }

  predicate Usable(pe: Image, e: Entry) {
    e.kind == HIGHLOW && e.target + 4 <= pe.imageBytes && RvaOffset(pe, e.target, 4).Some?
  }

  predicate Apart(a: Entry, b: Entry) { a.target + 4 <= b.target || b.target + 4 <= a.target }

  /** Padding aside, every entry is a usable HIGHLOW fixup and no two touch the same byte. */
  ghost predicate Acceptable(pe: Image, es: seq<Entry>) {
    && (forall i :: 0 <= i < |es| && es[i].kind != ABSOLUTE ==> Usable(pe, es[i]))
    && (forall i, j :: 0 <= i < j < |es| && es[i].kind != ABSOLUTE && es[j].kind != ABSOLUTE ==> Apart(es[i], es[j]))
  }

  function Targets(es: seq<Entry>): set<int> { set e | e in es && e.kind != ABSOLUTE :: e.target }

  predicate Near(targets: set<int>, t: int) {
    || t - 3 in targets || t - 2 in targets || t - 1 in targets || t in targets
    || t + 1 in targets || t + 2 in targets || t + 3 in targets
  }

  /** Acceptance, one entry further. */
  lemma AcceptOne(pe: Image, es: seq<Entry>, e: Entry)
    requires Acceptable(pe, es)
    ensures Acceptable(pe, es + [e]) <==> (e.kind == ABSOLUTE || (Usable(pe, e) && !Near(Targets(es), e.target)))
    ensures Targets(es + [e]) == Targets(es) + (if e.kind == ABSOLUTE then {} else {e.target})
  {
    hide Usable;
    var longer := es + [e];
    assert longer[|es|] == e;
    if Acceptable(pe, longer) && e.kind != ABSOLUTE { AcceptedLast(pe, es, e); }
    if e.kind != ABSOLUTE && Usable(pe, e) && !Near(Targets(es), e.target) {
      forall i, j | 0 <= i < j < |longer| && longer[i].kind != ABSOLUTE && longer[j].kind != ABSOLUTE
        ensures Apart(longer[i], longer[j])
      {
        if j < |es| {
          assert Apart(es[i], es[j]);
        } else {
          assert es[i].target in Targets(es);
          FarApart(Targets(es), es[i], e);
        }
      }
    }
  }

  lemma AcceptedLast(pe: Image, es: seq<Entry>, e: Entry)
    requires Acceptable(pe, es + [e]) && e.kind != ABSOLUTE
    ensures Usable(pe, e) && !Near(Targets(es), e.target)
  {
    hide Usable;
    var longer := es + [e];
    assert longer[|es|] == e;
    forall t | t in Targets(es) ensures t + 4 <= e.target || e.target + 4 <= t {
      var i :| 0 <= i < |es| && es[i].kind != ABSOLUTE && es[i].target == t;
      assert Apart(longer[i], longer[|es|]);
    }
  }

  lemma FarApart(targets: set<int>, a: Entry, b: Entry)
    requires a.target in targets && !Near(targets, b.target)
    ensures Apart(a, b)
  {
  }

  /** Accepted fixups are pairwise at least four bytes apart. */
  lemma AcceptedSpread(pe: Image, es: seq<Entry>)
    requires Acceptable(pe, es)
    ensures Spread(Targets(es))
    ensures forall t :: t in Targets(es) ==> 0 <= t && t + 4 <= pe.imageBytes && RvaOffset(pe, t, 4).Some?
  {
    forall t, u | t in Targets(es) && u in Targets(es) && t != u ensures t + 4 <= u || u + 4 <= t {
      var i :| 0 <= i < |es| && es[i].kind != ABSOLUTE && es[i].target == t;
      var j :| 0 <= j < |es| && es[j].kind != ABSOLUTE && es[j].target == u;
      assert if i < j then Apart(es[i], es[j]) else Apart(es[j], es[i]);
    }
    forall t | t in Targets(es) ensures 0 <= t && t + 4 <= pe.imageBytes && RvaOffset(pe, t, 4).Some? {
      var i :| 0 <= i < |es| && es[i].kind != ABSOLUTE && es[i].target == t;
      assert Usable(pe, es[i]);
    }
  }

  lemma AcceptedPrefix(pe: Image, es: seq<Entry>, more: seq<Entry>)
    requires Acceptable(pe, es + more)
    ensures Acceptable(pe, es)
  {
    hide Usable, Apart;
    var all := es + more;
    forall i | 0 <= i < |es| && es[i].kind != ABSOLUTE ensures Usable(pe, es[i]) { assert all[i] == es[i]; }
    forall i, j | 0 <= i < j < |es| && es[i].kind != ABSOLUTE && es[j].kind != ABSOLUTE ensures Apart(es[i], es[j]) {
      assert all[i] == es[i] && all[j] == es[j];
    }
  }

  /** The cursor loop: it answers exactly for an acceptable directory, with exactly its fixups, which
      lie in the file and at least four bytes apart. */
  method HighlowTargets(pe: Image) returns (r: Option<set<int>>)
    ensures r.Some? <==> Parsed(pe).Some? && Acceptable(pe, Parsed(pe).value)
    ensures r.Some? ==> r.value == Targets(Parsed(pe).value) && Spread(r.value)
  {
    hide Acceptable, Targets, Entries, Spread, RvaOffset, BlockAt;
    var directory := Directory(pe);
    if directory.None? { return None; }
    var reloc := directory.value;
    var cursor, targets: set<int> := 0, {};
    ghost var done: seq<Entry> := [];
    PrependEnds([], Entries(pe.imageBytes, reloc, 0));
    NothingYet(pe);
    while cursor < |reloc|
      invariant Entries(pe.imageBytes, reloc, 0) == Prepend(done, Entries(pe.imageBytes, reloc, cursor))
      invariant Acceptable(pe, done) && targets == Targets(done)
      decreases |reloc| - cursor
    {
      EntriesUnfold(pe.imageBytes, reloc, cursor);
      if !BlockAt(pe.imageBytes, reloc, cursor) { return None; }
      BlockFits(pe.imageBytes, reloc, cursor);
      var page, block := WordAt(reloc, cursor), WordAt(reloc, cursor + 4);
      ghost var here := EntriesOf(reloc, page, cursor + 8, cursor + block);
      var next := Block(pe, reloc, page, cursor + 8, cursor + block, targets, done);
      if next.None? {
        if Entries(pe.imageBytes, reloc, 0).Some? {
          RefusedInside(pe, done, here, Entries(pe.imageBytes, reloc, cursor + block));
        }
        return None;
      }
      PrependTwice(done, here, Entries(pe.imageBytes, reloc, cursor + block));
      targets, done, cursor := next.value, done + here, cursor + block;
    }
    EntriesUnfold(pe.imageBytes, reloc, cursor);
    PrependEnds(done, None);
    AcceptedSpread(pe, done);
    r := Some(targets);
  }

  /** The entries of one block, added to those before it. */
  method Block(pe: Image, reloc: seq<Byte>, page: nat, first: nat, end: nat, before: set<int>, ghost seen: seq<Entry>)
    returns (r: Option<set<int>>)
    requires first <= end <= |reloc| && (end - first) % 2 == 0 && Acceptable(pe, seen) && before == Targets(seen)
    ensures r.Some? <==> Acceptable(pe, seen + EntriesOf(reloc, page, first, end))
    ensures r.Some? ==> r.value == Targets(seen + EntriesOf(reloc, page, first, end))
  {
    hide Acceptable, Targets, Usable, Near, HalfAt;
    var at, targets := first, before;
    ghost var done := seen;
    while at < end
      invariant first <= at <= end && (end - at) % 2 == 0
      invariant seen + EntriesOf(reloc, page, first, end) == done + EntriesOf(reloc, page, at, end)
      invariant Acceptable(pe, done) && targets == Targets(done)
    {
      var entry := EntryAt(reloc, page, at);
      AcceptOne(pe, done, entry);
      assert done + ([entry] + EntriesOf(reloc, page, at + 2, end)) ==
        done + [entry] + EntriesOf(reloc, page, at + 2, end);
      if entry.kind != ABSOLUTE {
        if !Usable(pe, entry) || Near(targets, entry.target) {
          if Acceptable(pe, seen + EntriesOf(reloc, page, first, end)) {
            AcceptedPrefix(pe, done + [entry], EntriesOf(reloc, page, at + 2, end));
          }
          return None;
        }
        targets := targets + {entry.target};
      }
      done, at := done + [entry], at + 2;
    }
    assert done + [] == done;
    r := Some(targets);
  }

  lemma NothingYet(pe: Image)
    ensures Acceptable(pe, []) && Targets([]) == {}
  {
  }

  lemma EntriesUnfold(imageBytes: nat, reloc: seq<Byte>, cursor: nat)
    ensures cursor >= |reloc| ==> Entries(imageBytes, reloc, cursor) == Some([])
    ensures cursor < |reloc| && !BlockAt(imageBytes, reloc, cursor) ==> Entries(imageBytes, reloc, cursor).None?
    ensures cursor < |reloc| && BlockAt(imageBytes, reloc, cursor) ==>
      var page, block := WordAt(reloc, cursor), WordAt(reloc, cursor + 4);
      Entries(imageBytes, reloc, cursor)
        == Prepend(EntriesOf(reloc, page, cursor + 8, cursor + block), Entries(imageBytes, reloc, cursor + block))
  {
  }

  lemma BlockFits(imageBytes: nat, reloc: seq<Byte>, cursor: nat)
    requires BlockAt(imageBytes, reloc, cursor)
    ensures cursor + 8 <= |reloc| && 8 <= WordAt(reloc, cursor + 4) <= |reloc| - cursor
      && WordAt(reloc, cursor + 4) % 2 == 0
  {
    hide WordAt;
    FourIsEven(WordAt(reloc, cursor + 4));
  }

  lemma FourIsEven(x: int)
    ensures x % 4 == 0 ==> x % 2 == 0
  {
    assert x % 4 == 0 ==> x == 2 * (2 * (x / 4));
  }

  lemma RefusedInside(pe: Image, done: seq<Entry>, here: seq<Entry>, rest: Option<seq<Entry>>)
    requires !Acceptable(pe, done + here) && rest.Some?
    ensures !Acceptable(pe, Prepend(done, Prepend(here, rest)).value)
  {
    hide Acceptable;
    PrependTwice(done, here, rest);
    if Acceptable(pe, done + here + rest.value) { AcceptedPrefix(pe, done + here, rest.value); }
  }
}
