/** The inspection of a freestanding ELF file from its bytes on: header, tables and symbol dictionary in front of
    the layout checks. */
module ElfImage {
  import opened Words
  import opened LittleEndian
  import opened LoaderLayout

  const HEADER_BYTES: nat := 52
  const PROGRAM_BYTES: nat := 32
  const SECTION_BYTES: nat := 40
  const SYMBOL_BYTES: nat := 16

  // ---------- header and tables ----------

  /** A section header with the fields only symbol tables use. */
  datatype Table = Table(section: Section, link: Word, stride: Word)

  datatype Header = Header(entry: Word, programs: seq<Program>, tables: seq<Table>)

  function ProgramAt(data: Bytes, at: nat): Program
    requires at + PROGRAM_BYTES <= |data|
  {
    Program(WordAt(data, at), WordAt(data, at + 4), WordAt(data, at + 8), WordAt(data, at + 12), WordAt(data, at + 16),
      WordAt(data, at + 20), WordAt(data, at + 24))
  }

  function TableAt(data: Bytes, at: nat): Table
    requires at + SECTION_BYTES <= |data|
  {
    Table(Section(WordAt(data, at + 4), WordAt(data, at + 8), WordAt(data, at + 12), WordAt(data, at + 16),
      WordAt(data, at + 20)), WordAt(data, at + 24), WordAt(data, at + 36))
  }

  /** The pinned fields of a static little-endian SH image. */
  predicate Pinned(data: Bytes, base: int, atBase: bool) {
    && |data| >= HEADER_BYTES && data[..7] == [0x7f, 0x45, 0x4c, 0x46, 1, 1, 1]
    && HalfAt(data, 16) == 2 && HalfAt(data, 18) == 42 && WordAt(data, 20) == 1
    && (atBase ==> WordAt(data, 24) == base)
    && HalfAt(data, 40) == HEADER_BYTES && HalfAt(data, 42) == PROGRAM_BYTES && HalfAt(data, 46) == SECTION_BYTES
    && 0 < HalfAt(data, 44) <= 32 && 0 < HalfAt(data, 48) <= 4096
  }

  /** Both header tables, if the fields are right and the tables are inside the file. */
  function HeaderOf(data: Bytes, base: int, atBase: bool): (h: Option<Header>)
    ensures h.Some? ==> Pinned(data, base, atBase)
    ensures h.Some? ==> |h.value.programs| == HalfAt(data, 44) && |h.value.tables| == HalfAt(data, 48)
  {
    if !Pinned(data, base, atBase) then None
    else
      var po, pn, so, sn := WordAt(data, 28), HalfAt(data, 44), WordAt(data, 32), HalfAt(data, 48);
      if po + PROGRAM_BYTES * pn > |data| || so + SECTION_BYTES * sn > |data| then None
      else Some(Header(WordAt(data, 24),
        seq(pn, i requires 0 <= i < pn => ProgramAt(data, po + PROGRAM_BYTES * i)),
        seq(sn, i requires 0 <= i < sn => TableAt(data, so + SECTION_BYTES * i))))
  }

  // ---------- symbols ----------

  /** The first NUL from `at` on. */
  function Terminator(strings: Bytes, at: nat): (end: Option<nat>)
    ensures end.Some? ==> at <= end.value < |strings| && strings[end.value] == 0
    ensures end.Some? ==> forall i :: at <= i < end.value ==> strings[i] != 0
    ensures end.None? ==> forall i :: at <= i < |strings| ==> strings[i] != 0
    decreases |strings| - at
  {
    if at >= |strings| then None else if strings[at] == 0 then Some(at) else Terminator(strings, at + 1)
  }

  predicate Ascii(name: Bytes) { forall i :: 0 <= i < |name| ==> name[i] < 128 }

  datatype Reading = Refused | Skipped | Named(name: Bytes, value: Word)

  /** Source-file metadata must carry nothing. */
  predicate EmptyFile(info: Byte, index: nat, value: Word, size: Word) {
    info / 16 == 0 && index == 0xfff1 && value == 0 && size == 0
  }

  /** A hidden weak anchor in unallocated debug bytes. */
  predicate Anchor(tables: seq<Table>, info: Byte, other: Byte, index: nat, value: Word, size: Word) {
    && info == 0x20 && other == 2 && size == 0 && index < |tables|
    && var x := tables[index].section; x.kind == 1 && x.flags == 0 && x.address == 0 && value < x.size
  }

  /** One symbol table entry. */
  function SymbolAt(data: Bytes, tables: seq<Table>, strings: Bytes, at: nat): Reading
    requires at + SYMBOL_BYTES <= |data|
  {
    var from, value, size := WordAt(data, at), WordAt(data, at + 4), WordAt(data, at + 8);
    var info, other, index := data[at + 12], data[at + 13], HalfAt(data, at + 14);
    var end := Terminator(strings, from);
    if end.None? || !Ascii(strings[from..end.value]) then Refused
    else
      var name := strings[from..end.value];
      if name == [] then Skipped
      else if index == 0 || index == 0xfff2 || (index < 0xff00 && index >= |tables|) then Refused
      else if info % 16 == 4 then if EmptyFile(info, index, value, size) then Skipped else Refused
      else if Anchor(tables, info, other, index, value, size) then Skipped
      else Named(name, value)
  }

  type Names = seq<(Bytes, Word)>

  function Said(reading: Reading): Names { if reading.Named? then [(reading.name, reading.value)] else [] }

  /** What the first `count` entries of a table name, in order; None if one is refused. */
  function NamesOf(data: Bytes, tables: seq<Table>, strings: Bytes, offset: nat, count: nat): Option<Names>
    requires offset + SYMBOL_BYTES * count <= |data|
  {
    if count == 0 then Some([])
    else
      var before := NamesOf(data, tables, strings, offset, count - 1);
      var last := SymbolAt(data, tables, strings, offset + SYMBOL_BYTES * (count - 1));
      if before.None? || last.Refused? then None else Some(before.value + Said(last))
  }

  /** The strings of a usable symbol table. */
  function StringsOf(data: Bytes, tables: seq<Table>, t: Table): Option<Bytes> {
    if t.stride != SYMBOL_BYTES || t.section.size % SYMBOL_BYTES != 0 || t.link >= |tables|
       || tables[t.link].section.kind != 3 || Region(data, t.section.offset, t.section.size).None? then None
    else Region(data, tables[t.link].section.offset, tables[t.link].section.size)
  }

  function TableNames(data: Bytes, tables: seq<Table>, t: Table): Option<Names> {
    if t.section.kind != 2 then Some([])
    else
      match StringsOf(data, tables, t)
      case None => None
      case Some(strings) => NamesOf(data, tables, strings, t.section.offset, t.section.size / SYMBOL_BYTES)
  }

  /** What the first `count` sections name. */
  function AllNames(data: Bytes, tables: seq<Table>, count: nat): Option<Names>
    requires count <= |tables|
  {
    if count == 0 then Some([])
    else
      var before, last := AllNames(data, tables, count - 1), TableNames(data, tables, tables[count - 1]);
      if before.None? || last.None? then None else Some(before.value + last.value)
  }

  /** Each name stands for its last entry, and nothing else is in the dictionary. */
  ghost predicate LastNamed(names: Names, symbols: map<Bytes, Word>) {
    && (forall name :: name in symbols ==> exists i :: NamedLast(names, name, i) && names[i].1 == symbols[name])
    && forall i :: 0 <= i < |names| ==> names[i].0 in symbols
  }

  predicate NamedLast(names: Names, name: Bytes, i: int) {
    0 <= i < |names| && names[i].0 == name && forall j :: i < j < |names| ==> names[j].0 != name
  }

  lemma NothingNamed()
    ensures LastNamed([], map[])
  {
  }

  /** Assigning in order keeps the last entries. */
  lemma NameOne(names: Names, symbols: map<Bytes, Word>, name: Bytes, value: Word)
    requires LastNamed(names, symbols)
    ensures LastNamed(names + [(name, value)], symbols[name := value])
  {
    var more, after := names + [(name, value)], symbols[name := value];
    forall other | other in after ensures exists i :: NamedLast(more, other, i) && more[i].1 == after[other] {
      if other == name {
        assert NamedLast(more, other, |names|);
      } else {
        var i :| NamedLast(names, other, i) && names[i].1 == symbols[other];
        assert NamedLast(more, other, i);
      }
    }
  }

  /** The last entries leave no choice. */
  lemma LastNamedUnique(names: Names, a: map<Bytes, Word>, b: map<Bytes, Word>)
    requires LastNamed(names, a) && LastNamed(names, b)
    ensures a == b
  {
    SameLast(names, a, b);
    SameLast(names, b, a);
  }

  lemma SameLast(names: Names, a: map<Bytes, Word>, b: map<Bytes, Word>)
    requires LastNamed(names, a) && LastNamed(names, b)
    ensures forall name :: name in a ==> name in b && b[name] == a[name]
  {
    forall name | name in a ensures name in b && b[name] == a[name] {
      var i :| NamedLast(names, name, i) && names[i].1 == a[name];
      var j :| NamedLast(names, name, j) && names[j].1 == b[name];
    }
  }

  /** The nested symbol loops: they refuse exactly when an entry or table does, and build the dictionary of the
      last entries. */
  method ReadSymbols(data: Bytes, tables: seq<Table>) returns (r: Option<map<Bytes, Word>>)
    ensures r.Some? <==> AllNames(data, tables, |tables|).Some?
    ensures r.Some? ==> LastNamed(AllNames(data, tables, |tables|).value, r.value)
  {
    hide SymbolAt, StringsOf, LastNamed, NamesOf;
    var symbols: map<Bytes, Word> := map[];
    NothingNamed();
    for k := 0 to |tables|
      invariant AllNames(data, tables, k).Some? && LastNamed(AllNames(data, tables, k).value, symbols)
    {
      var t := tables[k];
      ghost var before := AllNames(data, tables, k).value;
      if t.section.kind == 2 {
        var strings := StringsOf(data, tables, t);
        if strings.None? {
          RefusedAt(data, tables, k);
          return None;
        }
        UsableTable(data, tables, t);
        var count := t.section.size / SYMBOL_BYTES;
        EmptyTable(data, tables, strings.value, t.section.offset);
        assert before + [] == before;
        for i := 0 to count
          invariant NamesOf(data, tables, strings.value, t.section.offset, i).Some?
          invariant LastNamed(before + NamesOf(data, tables, strings.value, t.section.offset, i).value, symbols)
        {
          var reading := SymbolAt(data, tables, strings.value, t.section.offset + SYMBOL_BYTES * i);
          OneEntry(data, tables, strings.value, t.section.offset, i);
          if reading.Refused? {
            RefusedBy(data, tables, strings.value, t.section.offset, i + 1, count);
            RefusedAt(data, tables, k);
            return None;
          }
          ghost var said := NamesOf(data, tables, strings.value, t.section.offset, i).value;
          assert before + (said + Said(reading)) == before + said + Said(reading);
          if reading.Named? {
            NameOne(before + said, symbols, reading.name, reading.value);
            symbols := symbols[reading.name := reading.value];
          } else {
            assert before + said + [] == before + said;
          }
        }
      } else {
        assert before + [] == before;
      }
    }
    r := Some(symbols);
  }

  lemma EmptyTable(data: Bytes, tables: seq<Table>, strings: Bytes, offset: nat)
    requires offset <= |data|
    ensures NamesOf(data, tables, strings, offset, 0) == Some([])
  {
  }

  lemma UsableTable(data: Bytes, tables: seq<Table>, t: Table)
    requires StringsOf(data, tables, t).Some?
    ensures t.section.offset + t.section.size <= |data| && t.section.size % SYMBOL_BYTES == 0
  {
  }

  lemma OneEntry(data: Bytes, tables: seq<Table>, strings: Bytes, offset: nat, i: nat)
    requires offset + SYMBOL_BYTES * (i + 1) <= |data| && NamesOf(data, tables, strings, offset, i).Some?
    ensures NamesOf(data, tables, strings, offset, i + 1) ==
      var last := SymbolAt(data, tables, strings, offset + SYMBOL_BYTES * i);
      if last.Refused? then None else Some(NamesOf(data, tables, strings, offset, i).value + Said(last))
  {
    hide SymbolAt;
  }

  lemma {:induction false} RefusedBy(data: Bytes, tables: seq<Table>, strings: Bytes, offset: nat, i: nat, count: nat)
    requires i <= count && offset + SYMBOL_BYTES * count <= |data| && NamesOf(data, tables, strings, offset, i).None?
    ensures NamesOf(data, tables, strings, offset, count).None?
    decreases count
  {
    hide SymbolAt;
    if i < count { RefusedBy(data, tables, strings, offset, i, count - 1); }
  }

  lemma RefusedAt(data: Bytes, tables: seq<Table>, k: nat)
    requires k < |tables| && TableNames(data, tables, tables[k]).None?
    ensures AllNames(data, tables, |tables|).None?
  {
    hide TableNames;
    RefusedLater(data, tables, k + 1, |tables|);
  }

  lemma {:induction false} RefusedLater(data: Bytes, tables: seq<Table>, k: nat, count: nat)
    requires k <= count <= |tables| && AllNames(data, tables, k).None?
    ensures AllNames(data, tables, count).None?
    decreases count
  {
    hide TableNames;
    if k < count { RefusedLater(data, tables, k, count - 1); }
  }

  // ---------- the whole file ----------

  function SectionsOf(tables: seq<Table>): (xs: seq<Section>)
    ensures |xs| == |tables| && forall i :: 0 <= i < |xs| ==> xs[i] == tables[i].section
  {
    seq(|tables|, i requires 0 <= i < |tables| => tables[i].section)
  }

  predicate HasSymbols(tables: seq<Table>) { exists i :: 0 <= i < |tables| && tables[i].section.kind == 2 }

  function Lookup(symbols: map<Bytes, Word>, name: Bytes): Option<int> {
    if name in symbols then Some(symbols[name]) else None
  }

  /** Everything the inspection asks of a file. */
  ghost predicate FileAccepted(data: Bytes, m: Reservation, name: Bytes, atBase: bool, symbols: map<Bytes, Word>) {
    var h := HeaderOf(data, m.base, atBase);
    && h.Some? && HasSymbols(h.value.tables)
    && AllNames(data, h.value.tables, |h.value.tables|).Some?
    && LastNamed(AllNames(data, h.value.tables, |h.value.tables|).value, symbols)
    && Accepted(data, m, h.value.programs, SectionsOf(h.value.tables),
         Entry(h.value.entry, atBase, Lookup(symbols, name)))
  }

  /** A file is accepted exactly when header, tables, symbols, segments, sections and entry are all as asked; then
      the payload is painted, the symbols are the last entries' values, and the image ends in its reservation. */
  method InspectFile(data: Bytes, m: Reservation, name: Bytes, atBase: bool)
    returns (r: Option<(Bytes, map<Bytes, Word>, int)>)
    ensures r.Some? <==> exists symbols :: FileAccepted(data, m, name, atBase, symbols)
    ensures r.Some? ==> FileAccepted(data, m, name, atBase, r.value.1)
    ensures r.Some? ==>
      var ss := Sorted(Segments(data, m, HeaderOf(data, m.base, atBase).value.programs).value);
      && Painted(m, ss, |ss|, r.value.0) && AllSound(m, ss)
      && m.base + |r.value.0| <= r.value.2 == End(ss[|ss| - 1]) <= m.limit
  {
    hide HeaderOf, AllNames, LastNamed, Accepted, Segments, Sorted, Painted, AllSound;
    var h := HeaderOf(data, m.base, atBase);
    if h.None? { return None; }
    var tables := h.value.tables;
    var symbols := ReadSymbols(data, tables);
    if symbols.None? || !HasSymbols(tables) { return None; }
    var entry := Entry(h.value.entry, atBase, Lookup(symbols.value, name));
    var laid := Inspect(data, m, h.value.programs, SectionsOf(tables), entry);
    if laid.None? {
      forall other ensures !FileAccepted(data, m, name, atBase, other) {
        if FileAccepted(data, m, name, atBase, other) {
          LastNamedUnique(AllNames(data, tables, |tables|).value, symbols.value, other);
        }
      }
      return None;
    }
    assert FileAccepted(data, m, name, atBase, symbols.value);
    r := Some((laid.value.0, symbols.value, laid.value.1));
  }
}
