/** Base relocation directories written block by block: reading accepts exactly those, with exactly their entries. */
module PeBlocks {
  import opened Words
  import opened LittleEndian
  import opened PeRebase
  import opened PeFixups

  type Bytes = seq<Byte>

  /** One block: a page and the entries in it. */
  datatype Chunk = Chunk(page: Word, entries: seq<Entry>)

  predicate InPage(page: nat, e: Entry) { e.kind < 16 && page <= e.target < page + 4096 }

  /** A page of the image, with an even number of entries. */
  predicate Fits(imageBytes: nat, c: Chunk) {
    && c.page % 4096 == 0 && c.page < imageBytes && |c.entries| % 2 == 0 && 8 + 2 * |c.entries| < 0x1_0000_0000
    && forall i :: 0 <= i < |c.entries| ==> InPage(c.page, c.entries[i])
  }

  predicate AllFit(imageBytes: nat, cs: seq<Chunk>) { forall i :: 0 <= i < |cs| ==> Fits(imageBytes, cs[i]) }

  /** Kind in the upper four bits, distance from the page in the rest. */
  function EntryBytes(page: nat, es: seq<Entry>): (b: Bytes)
    requires forall i :: 0 <= i < |es| ==> InPage(page, es[i])
    ensures |b| == 2 * |es|
  {
    if es == [] then []
    else
      assert InPage(page, es[0]);
      Le16(4096 * es[0].kind + es[0].target - page) + EntryBytes(page, es[1..])
  }

  function ChunkBytes(imageBytes: nat, c: Chunk): Bytes
    requires Fits(imageBytes, c)
  {
    Le(c.page) + Le(8 + 2 * |c.entries|) + EntryBytes(c.page, c.entries)
  }

  function Written(imageBytes: nat, cs: seq<Chunk>): Bytes
    requires AllFit(imageBytes, cs)
  {
    if cs == [] then [] else ChunkBytes(imageBytes, cs[0]) + Written(imageBytes, cs[1..])
  }

  function AllEntries(cs: seq<Chunk>): seq<Entry> { if cs == [] then [] else cs[0].entries + AllEntries(cs[1..]) }

  // ---------- reading what was written ----------

  lemma EntryRead(reloc: Bytes, page: nat, at: nat, e: Entry)
    requires at + 2 <= |reloc| && InPage(page, e) && reloc[at..at + 2] == Le16(4096 * e.kind + e.target - page)
    ensures EntryAt(reloc, page, at) == e
  {
    Le16IsHalf(reloc, at, 4096 * e.kind + e.target - page);
    Split(e.kind, e.target - page);
  }

  lemma Split(kind: nat, offset: nat)
    requires offset < 4096
    ensures (4096 * kind + offset) / 4096 == kind && (4096 * kind + offset) % 4096 == offset
  {
  }

  lemma {:induction false} EntriesRead(reloc: Bytes, page: nat, at: nat, es: seq<Entry>)
    requires at + 2 * |es| <= |reloc| && forall i :: 0 <= i < |es| ==> InPage(page, es[i])
    requires reloc[at..at + 2 * |es|] == EntryBytes(page, es)
    ensures EntriesOf(reloc, page, at, at + 2 * |es|) == es
    decreases |es|
  {
    hide Le16, EntryAt;
    if es != [] {
      var b := EntryBytes(page, es);
      assert reloc[at..at + 2] == b[..2] && reloc[at + 2..at + 2 * |es|] == b[2..];
      EntryRead(reloc, page, at, es[0]);
      EntriesRead(reloc, page, at + 2, es[1..]);
    }
  }

  lemma {:induction false} WrittenParses(imageBytes: nat, before: Bytes, cs: seq<Chunk>)
    requires AllFit(imageBytes, cs)
    ensures Entries(imageBytes, before + Written(imageBytes, cs), |before|) == Some(AllEntries(cs))
    decreases |cs|
  {
    hide Le, Le16, WordAt, Entries, EntriesOf, EntryBytes, ChunkBytes, Fits;
    var reloc := before + Written(imageBytes, cs);
    EntriesUnfold(imageBytes, reloc, |before|);
    if cs != [] {
      var c, rest := cs[0], Written(imageBytes, cs[1..]);
      ChunkRead(imageBytes, before, c, rest);
      WrittenParses(imageBytes, before + ChunkBytes(imageBytes, c), cs[1..]);
      assert before + ChunkBytes(imageBytes, c) + rest == before + (ChunkBytes(imageBytes, c) + rest) == reloc;
    }
  }

  lemma ChunkRead(imageBytes: nat, before: Bytes, c: Chunk, rest: Bytes)
    requires Fits(imageBytes, c)
    ensures var reloc, at := before + (ChunkBytes(imageBytes, c) + rest), |before|;
      && |ChunkBytes(imageBytes, c)| == 8 + 2 * |c.entries| && BlockAt(imageBytes, reloc, at)
      && WordAt(reloc, at) == c.page && WordAt(reloc, at + 4) == 8 + 2 * |c.entries|
      && EntriesOf(reloc, c.page, at + 8, at + 8 + 2 * |c.entries|) == c.entries
  {
    hide Le, Le16, WordAt, EntriesOf, EntryBytes;
    var first, size := ChunkBytes(imageBytes, c), 8 + 2 * |c.entries|;
    var reloc := before + (first + rest);
    assert reloc[|before|..|before| + 4] == first[..4] == Le(c.page);
    assert reloc[|before| + 4..|before| + 8] == first[4..8] == Le(size);
    LeIsWord(reloc, |before|, c.page);
    LeIsWord(reloc, |before| + 4, size);
    assert reloc[|before| + 8..|before| + size] == first[8..] == EntryBytes(c.page, c.entries);
    EntriesRead(reloc, c.page, |before| + 8, c.entries);
  }

  // ---------- everything read was written ----------

  lemma EntryWritten(reloc: Bytes, page: nat, at: nat)
    requires at + 2 <= |reloc|
    ensures var e := EntryAt(reloc, page, at);
      InPage(page, e) && Le16(4096 * e.kind + e.target - page) == reloc[at..at + 2]
  {
    var h := HalfAt(reloc, at);
    assert h == 4096 * (h / 4096) + h % 4096;
    Le16IsHalf(reloc, at, h);
  }

  lemma {:induction false} EntriesWritten(reloc: Bytes, page: nat, at: nat, end: nat)
    requires at <= end <= |reloc| && (end - at) % 2 == 0
    ensures var es := EntriesOf(reloc, page, at, end);
      && 2 * |es| == end - at && (forall i :: 0 <= i < |es| ==> InPage(page, es[i]))
      && EntryBytes(page, es) == reloc[at..end]
    decreases end - at
  {
    hide Le16, EntryAt, HalfAt;
    if at + 2 <= end {
      EntryWritten(reloc, page, at);
      EntriesWritten(reloc, page, at + 2, end);
      assert reloc[at..at + 2] + reloc[at + 2..end] == reloc[at..end];
    } else {
      assert reloc[at..end] == [];
    }
  }

  lemma {:induction false} ParsedWritten(imageBytes: nat, reloc: Bytes, cursor: nat) returns (cs: seq<Chunk>)
    requires cursor <= |reloc| && Entries(imageBytes, reloc, cursor).Some?
    ensures AllFit(imageBytes, cs) && Written(imageBytes, cs) == reloc[cursor..]
    ensures AllEntries(cs) == Entries(imageBytes, reloc, cursor).value
    decreases |reloc| - cursor
  {
    hide Le, Le16, WordAt, Entries, EntriesOf, EntryBytes;
    EntriesUnfold(imageBytes, reloc, cursor);
    if cursor == |reloc| {
      cs := [];
    } else {
      var page, block := WordAt(reloc, cursor), WordAt(reloc, cursor + 4);
      Even(block);
      EntriesWritten(reloc, page, cursor + 8, cursor + block);
      var rest := ParsedWritten(imageBytes, reloc, cursor + block);
      var c := Chunk(page, EntriesOf(reloc, page, cursor + 8, cursor + block));
      LeIsWord(reloc, cursor, page);
      LeIsWord(reloc, cursor + 4, block);
      cs := [c] + rest;
      assert cs[1..] == rest;
      assert reloc[cursor..] == reloc[cursor..cursor + 4] + reloc[cursor + 4..cursor + 8]
        + reloc[cursor + 8..cursor + block] + reloc[cursor + block..];
    }
  }

  lemma Even(block: nat)
    requires block % 4 == 0 && block >= 8
    ensures (block - 8) % 2 == 0 && (block - 8) / 2 % 2 == 0
  {
  }

  /** Reading accepts a directory exactly when it is blocks that fit, one behind the other. */
  lemma ParsedExactly(imageBytes: nat, reloc: Bytes)
    ensures Entries(imageBytes, reloc, 0).Some? <==>
      exists cs {:trigger AllFit(imageBytes, cs)} :: AllFit(imageBytes, cs) && Written(imageBytes, cs) == reloc
  {
    hide Entries, Written, AllFit;
    if Entries(imageBytes, reloc, 0).Some? {
      var cs := ParsedWritten(imageBytes, reloc, 0);
      assert reloc[0..] == reloc;
    }
    forall cs {:trigger AllFit(imageBytes, cs)} | AllFit(imageBytes, cs) && Written(imageBytes, cs) == reloc
      ensures Entries(imageBytes, reloc, 0).Some?
    {
      WrittenParses(imageBytes, [], cs);
      assert [] + reloc == reloc;
    }
  }

  // ---------- which entries are accepted ----------

  /** Every byte of a fixup lies in the image, and the fixup is stored in the file. */
  ghost predicate Sited(pe: Image, e: Entry) {
    (forall at :: Among(at, e.target, 4) ==> Among(at, 0, pe.imageBytes)) && RvaOffset(pe, e.target, 4).Some?
  }

  ghost predicate Covers(e: Entry, at: int) { e.kind == 3 && Among(at, e.target, 4) }

  /** Padding of kind 0 aside, all entries are of kind 3 and sited, and no byte is covered twice. */
  lemma AcceptableExactly(pe: Image, es: seq<Entry>)
    ensures Acceptable(pe, es) <==>
      (forall i :: 0 <= i < |es| ==> es[i].kind == 0 || (es[i].kind == 3 && Sited(pe, es[i])))
      && forall at, i, j :: 0 <= i < j < |es| ==> !(Covers(es[i], at) && Covers(es[j], at))
  {
    hide RvaOffset;
    forall i | 0 <= i < |es| ensures Usable(pe, es[i]) <==> es[i].kind == 3 && Sited(pe, es[i]) {
      RangeEnds(es[i].target, 4, 0, pe.imageBytes);
    }
    if Acceptable(pe, es) {
      forall at, i, j | 0 <= i < j < |es| ensures !(Covers(es[i], at) && Covers(es[j], at)) {
        if es[i].kind == 3 && es[j].kind == 3 { assert Apart(es[i], es[j]); }
      }
    }
    if forall at, i, j :: 0 <= i < j < |es| ==> !(Covers(es[i], at) && Covers(es[j], at)) {
      forall i, j | 0 <= i < j < |es| && es[i].kind == 3 && es[j].kind == 3 ensures Apart(es[i], es[j]) {
        var at := if es[i].target < es[j].target then es[j].target else es[i].target;
        assert !(Covers(es[i], at) && Covers(es[j], at));
      }
    }
  }

  /** The sixth data directory, if it is there, lies in the image and is stored in the file. */
  lemma DirectoryExactly(pe: Image, reloc: Bytes)
    ensures Directory(pe) == Some(reloc) <==>
      && |pe.directories| >= 6
      && var (rva, count) := pe.directories[5];
         && rva > 0 && count > 0 && |reloc| == count <= |pe.data|
         && (forall at :: Among(at, rva, count) ==> Among(at, 0, pe.imageBytes))
         && RvaOffset(pe, rva, count).Some?
         && var offset := RvaOffset(pe, rva, count).value;
            offset >= 0 && offset + count <= |pe.data| && reloc == pe.data[offset..offset + count]
  {
    hide RvaOffset;
    if |pe.directories| >= 6 && pe.directories[5].1 > 0 {
      RangeEnds(pe.directories[5].0, pe.directories[5].1, 0, pe.imageBytes);
    }
  }
}
