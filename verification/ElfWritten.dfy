/** ELF headers, program and section headers and symbols as they are written, field behind field, and what the
    inspection reads of them. */
module ElfWritten {
  import opened Words
  import opened LittleEndian
  import opened LoaderLayout
  import opened ElfImage

  /** Every field of the file header, in order. */
  datatype FileHeader = FileHeader(ident: Bytes, kind: nat, machine: nat, version: Word, entry: Word, programs: Word,
    sections: Word, flags: Word, headerBytes: nat, programBytes: nat, programCount: nat, sectionBytes: nat,
    sectionCount: nat, stringSection: nat)

  predicate Writable(h: FileHeader) {
    && |h.ident| == 16 && h.kind < 0x1_0000 && h.machine < 0x1_0000 && h.headerBytes < 0x1_0000
    && h.programBytes < 0x1_0000 && h.programCount < 0x1_0000 && h.sectionBytes < 0x1_0000
    && h.sectionCount < 0x1_0000 && h.stringSection < 0x1_0000
  }

  function Halves(hs: seq<nat>): (b: Bytes)
    requires forall i :: 0 <= i < |hs| ==> hs[i] < 0x1_0000
    ensures |b| == 2 * |hs|
  {
    if hs == [] then [] else Le16(hs[0]) + Halves(hs[1..])
  }

  function Longs(ws: seq<Word>): (b: Bytes)
    ensures |b| == 4 * |ws|
  {
    if ws == [] then [] else Le(ws[0]) + Longs(ws[1..])
  }

  lemma {:induction false} HalvesRead(data: Bytes, at: nat, hs: seq<nat>, i: nat)
    requires at + 2 * |hs| <= |data| && i < |hs| && forall k :: 0 <= k < |hs| ==> hs[k] < 0x1_0000
    requires data[at..at + 2 * |hs|] == Halves(hs)
    ensures HalfAt(data, at + 2 * i) == hs[i]
    decreases i
  {
    hide Le16, HalfAt;
    var b := Halves(hs);
    assert data[at..at + 2] == b[..2] == Le16(hs[0]);
    Le16IsHalf(data, at, hs[0]);
    if i > 0 {
      assert data[at + 2..at + 2 * |hs|] == b[2..] == Halves(hs[1..]);
      HalvesRead(data, at + 2, hs[1..], i - 1);
    }
  }

  lemma {:induction false} LongsRead(data: Bytes, at: nat, ws: seq<Word>, i: nat)
    requires at + 4 * |ws| <= |data| && i < |ws| && data[at..at + 4 * |ws|] == Longs(ws)
    ensures WordAt(data, at + 4 * i) == ws[i]
    decreases i
  {
    hide Le, WordAt;
    var b := Longs(ws);
    assert data[at..at + 4] == b[..4] == Le(ws[0]);
    LeIsWord(data, at, ws[0]);
    if i > 0 {
      assert data[at + 4..at + 4 * |ws|] == b[4..] == Longs(ws[1..]);
      LongsRead(data, at + 4, ws[1..], i - 1);
    }
  }

  // ---------- the file header ----------

  function HeaderWritten(h: FileHeader): Bytes
    requires Writable(h)
  {
    h.ident + Halves([h.kind, h.machine]) + Longs([h.version, h.entry, h.programs, h.sections, h.flags])
    + Halves([h.headerBytes, h.programBytes, h.programCount, h.sectionBytes, h.sectionCount, h.stringSection])
  }

  /** A static little-endian SH executable with headers of the standard sizes and tables of the allowed lengths. */
  predicate Standard(h: FileHeader, base: int, atBase: bool) {
    && |h.ident| == 16 && h.ident[0] == 127 && h.ident[1] == 'E' as int && h.ident[2] == 'L' as int
    && h.ident[3] == 'F' as int && h.ident[4] == h.ident[5] == h.ident[6] == 1
    && h.kind == 2 && h.machine == 42 && h.version == 1 && (h.entry != base ==> !atBase)
    && h.headerBytes == 52 && h.programBytes == 32 && h.sectionBytes == 40
    && 1 <= h.programCount < 33 && 1 <= h.sectionCount < 4097
  }

  lemma HeaderFields(data: Bytes, h: FileHeader)
    requires Writable(h) && |data| >= 52 && data[..52] == HeaderWritten(h)
    ensures data[..16] == h.ident
    ensures HalfAt(data, 16) == h.kind && HalfAt(data, 18) == h.machine && WordAt(data, 20) == h.version
    ensures WordAt(data, 24) == h.entry && WordAt(data, 28) == h.programs && WordAt(data, 32) == h.sections
    ensures HalfAt(data, 40) == h.headerBytes && HalfAt(data, 42) == h.programBytes
    ensures HalfAt(data, 44) == h.programCount && HalfAt(data, 46) == h.sectionBytes
    ensures HalfAt(data, 48) == h.sectionCount
  {
    hide HalfAt, WordAt, Halves, Longs;
    var first, words := [h.kind, h.machine], [h.version, h.entry, h.programs, h.sections, h.flags];
    var last := [h.headerBytes, h.programBytes, h.programCount, h.sectionBytes, h.sectionCount, h.stringSection];
    var b := HeaderWritten(h);
    assert data[..16] == b[..16] == h.ident;
    assert data[16..20] == b[16..20] == Halves(first);
    assert data[20..40] == b[20..40] == Longs(words);
    assert data[40..52] == b[40..52] == Halves(last);
    HalvesRead(data, 16, first, 0);
    HalvesRead(data, 16, first, 1);
    LongsRead(data, 20, words, 0);
    LongsRead(data, 20, words, 1);
    LongsRead(data, 20, words, 2);
    LongsRead(data, 20, words, 3);
    HalvesRead(data, 40, last, 0);
    HalvesRead(data, 40, last, 1);
    HalvesRead(data, 40, last, 2);
    HalvesRead(data, 40, last, 3);
    HalvesRead(data, 40, last, 4);
  }

  /** A written header is accepted exactly when its fields are standard and both tables are in the file; the entry
      and the tables are then those it names. */
  lemma HeaderExactly(data: Bytes, h: FileHeader, base: int, atBase: bool)
    requires Writable(h) && |data| >= 52 && data[..52] == HeaderWritten(h)
    ensures HeaderOf(data, base, atBase).Some? <==>
      (Standard(h, base, atBase) && h.programs + 32 * h.programCount <= |data|
       && h.sections + 40 * h.sectionCount <= |data|)
    ensures HeaderOf(data, base, atBase).Some? ==>
      var read := HeaderOf(data, base, atBase).value;
      && read.entry == h.entry && |read.programs| == h.programCount && |read.tables| == h.sectionCount
      && (forall i :: 0 <= i < h.programCount ==> read.programs[i] == ProgramAt(data, h.programs + 32 * i))
      && forall i :: 0 <= i < h.sectionCount ==> read.tables[i] == TableAt(data, h.sections + 40 * i)
  {
    hide HalfAt, WordAt, HeaderWritten, ProgramAt, TableAt;
    HeaderFields(data, h);
    assert data[..7] == h.ident[..7];
    assert h.ident[..7] == [0x7f, 0x45, 0x4c, 0x46, 1, 1, 1] <==>
      (h.ident[0] == 127 && h.ident[1] == 'E' as int && h.ident[2] == 'L' as int && h.ident[3] == 'F' as int
       && h.ident[4] == h.ident[5] == h.ident[6] == 1);
  }

  // ---------- tables ----------

  /** A written program header reads back. */
  lemma ProgramRead(data: Bytes, at: nat, p: Program, align: Word)
    requires at + 32 <= |data|
    requires data[at..at + 32] == Longs([p.kind, p.offset, p.va, p.pa, p.size, p.memory, p.flags, align])
    ensures ProgramAt(data, at) == p
  {
    hide WordAt, Longs;
    var ws := [p.kind, p.offset, p.va, p.pa, p.size, p.memory, p.flags, align];
    LongsRead(data, at, ws, 0);
    LongsRead(data, at, ws, 1);
    LongsRead(data, at, ws, 2);
    LongsRead(data, at, ws, 3);
    LongsRead(data, at, ws, 4);
    LongsRead(data, at, ws, 5);
    LongsRead(data, at, ws, 6);
  }

  function TableFields(t: Table, name: Word, info: Word, align: Word): seq<Word> {
    var x := t.section;
    [name, x.kind, x.flags, x.address, x.offset, x.size, t.link, info, align, t.stride]
  }

  /** A written section header reads back. */
  lemma TableRead(data: Bytes, at: nat, t: Table, name: Word, info: Word, align: Word)
    requires at + 40 <= |data|
    requires data[at..at + 40] == Longs(TableFields(t, name, info, align))
    ensures TableAt(data, at) == t
  {
    hide WordAt, Longs;
    var ws := TableFields(t, name, info, align);
    LongsRead(data, at, ws, 1);
    LongsRead(data, at, ws, 2);
    LongsRead(data, at, ws, 3);
    LongsRead(data, at, ws, 4);
    LongsRead(data, at, ws, 5);
    LongsRead(data, at, ws, 6);
    LongsRead(data, at, ws, 9);
  }

  // ---------- symbols ----------

  /** The fields of a symbol, in order. */
  datatype Symbol = Symbol(name: Word, value: Word, size: Word, binding: Nibble, kind: Nibble, other: Byte, index: nat)

  function SymbolWritten(s: Symbol): Bytes
    requires s.index < 0x1_0000
  {
    Longs([s.name, s.value, s.size]) + [16 * s.binding + s.kind, s.other] + Le16(s.index)
  }

  /** The name is plain text that ends within the strings. */
  predicate Textual(strings: Bytes, from: nat, end: nat) {
    && from <= end < |strings| && strings[end] == 0
    && forall i :: from <= i < end ==> 0 < strings[i] < 128
  }

  /** Undefined, common, or in a section that is not there. */
  predicate Homeless(s: Symbol, sections: nat) {
    s.index == 0 || s.index == 0xfff2 || sections <= s.index < 0xff00
  }

  /** A source file's name: local, absolute, and nothing else. */
  predicate FileName(s: Symbol) {
    s.kind == 4 && s.binding == 0 && s.index == 65521 && s.value == s.size == 0
  }

  /** A hidden weak mark without a type, in bytes that are not loaded. */
  predicate Mark(s: Symbol, tables: seq<Table>) {
    && s.binding == 2 && s.kind == 0 && s.other == 2 && s.size == 0 && s.index < |tables|
    && tables[s.index].section.kind == 1 && tables[s.index].section.flags == tables[s.index].section.address == 0
    && s.value < tables[s.index].section.size
  }

  lemma SymbolFields(data: Bytes, at: nat, s: Symbol)
    requires at + 16 <= |data| && s.index < 0x1_0000 && data[at..at + 16] == SymbolWritten(s)
    ensures WordAt(data, at) == s.name && WordAt(data, at + 4) == s.value && WordAt(data, at + 8) == s.size
    ensures data[at + 12] == 16 * s.binding + s.kind && data[at + 13] == s.other && HalfAt(data, at + 14) == s.index
  {
    hide WordAt, HalfAt, Longs, Le16;
    var ws, b := [s.name, s.value, s.size], SymbolWritten(s);
    assert data[at..at + 12] == b[..12] == Longs(ws);
    assert data[at + 12] == data[at..at + 16][12] && data[at + 13] == data[at..at + 16][13];
    assert data[at + 14..at + 16] == b[14..16] == Le16(s.index);
    LongsRead(data, at, ws, 0);
    LongsRead(data, at, ws, 1);
    LongsRead(data, at, ws, 2);
    Le16IsHalf(data, at + 14, s.index);
  }

  lemma TextEnds(strings: Bytes, from: nat, end: nat)
    ensures Textual(strings, from, end) <==>
      Terminator(strings, from) == Some(end) && Ascii(strings[from..end])
  {
    var found := Terminator(strings, from);
    if found.Some? {
      var text := strings[from..found.value];
      assert forall i :: from <= i < found.value ==> strings[i] == text[i - from];
      assert forall i :: 0 <= i < |text| ==> text[i] == strings[from + i];
    }
  }

  /** What a written symbol means: with text as its name it is kept, skipped or refused by its fields alone. */
  lemma SymbolMeans(data: Bytes, tables: seq<Table>, strings: Bytes, at: nat, s: Symbol, end: nat)
    requires at + 16 <= |data| && s.index < 0x1_0000 && data[at..at + 16] == SymbolWritten(s)
    requires Textual(strings, s.name, end)
    ensures SymbolAt(data, tables, strings, at) ==
      if end == s.name then Skipped
      else if Homeless(s, |tables|) || (s.kind == 4 && !FileName(s)) then Refused
      else if FileName(s) || Mark(s, tables) then Skipped
      else Named(strings[s.name..end], s.value)
  {
    hide WordAt, HalfAt, SymbolWritten, Terminator;
    SymbolFields(data, at, s);
    TextEnds(strings, s.name, end);
    Info(s.binding, s.kind);
  }

  lemma Info(binding: Nibble, kind: Nibble)
    ensures var info := 16 * binding + kind;
      info % 16 == kind && info / 16 == binding && (info == 0x20 <==> binding == 2 && kind == 0)
  {
  }

  /** Without text as its name it is refused. */
  lemma NamelessRefused(data: Bytes, tables: seq<Table>, strings: Bytes, at: nat, s: Symbol)
    requires at + 16 <= |data| && s.index < 0x1_0000 && data[at..at + 16] == SymbolWritten(s)
    requires forall end: nat :: !Textual(strings, s.name, end)
    ensures SymbolAt(data, tables, strings, at) == Refused
  {
    hide WordAt, HalfAt, SymbolWritten, Textual;
    SymbolFields(data, at, s);
    var found := Terminator(strings, s.name);
    if found.Some? { TextEnds(strings, s.name, found.value); }
  }

  /** A symbol table is usable exactly with symbols of sixteen bytes, all in the file, and strings of kind 3. */
  lemma StringsExactly(data: Bytes, tables: seq<Table>, t: Table, strings: Bytes)
    ensures StringsOf(data, tables, t) == Some(strings) <==>
      && t.stride == 16 && t.section.size == 16 * (t.section.size / 16)
      && t.section.offset + t.section.size <= |data|
      && t.link < |tables| && tables[t.link].section.kind == 3
      && var x := tables[t.link].section;
         x.offset + x.size <= |data| && strings == data[x.offset..x.offset + x.size]
  {
  }
}
