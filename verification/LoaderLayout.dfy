/** Flattening a freestanding ELF image: load segments, the packed payload they make, and the sections
    that must appear in it. */
module LoaderLayout {
  import opened Words
  import opened LittleEndian

  type Bytes = seq<Byte>

  const UNCACHED: int := 0x2000_0000
  const NOBITS: nat := 8

  datatype Program = Program(kind: Word, offset: Word, va: Word, pa: Word, size: Word, memory: Word, flags: Word)

  datatype Section = Section(kind: Word, flags: Word, address: Word, offset: Word, size: Word)

  datatype Segment = Segment(pa: int, va: int, memory: nat, flags: nat, content: Bytes)

  /** A fixed physical reservation; `privateP2` admits uncached writable data in it. */
  datatype Reservation = Reservation(base: int, limit: int, privateP2: bool)

  function Region(data: Bytes, offset: int, count: int): (r: Option<Bytes>)
    ensures r.Some? ==> 0 <= count == |r.value|
  {
    if offset < 0 || count < 0 || offset > |data| || count > |data| - offset then None
    else Some(data[offset..offset + count])
  }

  predicate Bit(flags: nat, unit: nat)
    requires unit > 0
  {
    flags / unit % 2 == 1
  }

  predicate InP2(m: Reservation, a: int) { m.base + UNCACHED <= a < m.limit + UNCACHED }

  /** The physical P1 address of a runtime address. */
  function Physical1(m: Reservation, a: int): int { if m.privateP2 && InP2(m, a) then a - UNCACHED else a }

  // ---------- segments ----------

  predicate Admitted(m: Reservation, h: Program) {
    && h.pa == Physical1(m, h.va) && m.base <= h.pa && h.memory > 0 && h.size <= h.memory && h.pa + h.memory <= m.limit
    && (m.privateP2 && InP2(m, h.va) ==> !Bit(h.flags, 1) && Bit(h.flags, 2) && h.pa % 32 == 0)
  }

  function SegmentOf(data: Bytes, m: Reservation, h: Program): Option<Segment> {
    if !Admitted(m, h) then None
    else match Region(data, h.offset, h.size)
      case None => None
      case Some(content) => Some(Segment(h.pa, h.va, h.memory, h.flags, content))
  }

  /** The load segments in file order; None if a header is refused. */
  function Segments(data: Bytes, m: Reservation, hs: seq<Program>): Option<seq<Segment>> {
    if hs == [] then Some([])
    else if hs[0].kind in {2, 3, 7} then None
    else if hs[0].kind != 1 then Segments(data, m, hs[1..])
    else match SegmentOf(data, m, hs[0])
      case None => None
      case Some(s) => Prepend([s], Segments(data, m, hs[1..]))
  }

  /** What every accepted segment satisfies. */
  predicate Sound(m: Reservation, s: Segment) {
    && s.pa == Physical1(m, s.va) && m.base <= s.pa && s.memory > 0 && |s.content| <= s.memory
      && s.pa + s.memory <= m.limit
  }

  predicate AllSound(m: Reservation, ss: seq<Segment>) { forall i :: 0 <= i < |ss| ==> Sound(m, ss[i]) }

  lemma {:induction false} SegmentsSound(data: Bytes, m: Reservation, hs: seq<Program>, s: Segment)
    requires Segments(data, m, hs).Some? && s in Segments(data, m, hs).value
    ensures Sound(m, s)
    decreases |hs|
  {
    hide Physical1, Bit, InP2, Region;
    if hs[0].kind != 1 { SegmentsSound(data, m, hs[1..], s); }
    else if s != SegmentOf(data, m, hs[0]).value { SegmentsSound(data, m, hs[1..], s); }
  }

  // ---------- sorted by physical address ----------

  function Insert(sorted: seq<Segment>, s: Segment): (r: seq<Segment>)
    ensures multiset(r) == multiset(sorted) + multiset{s}
  {
    if sorted == [] || s.pa < sorted[0].pa then [s] + sorted
    else
      assert sorted == [sorted[0]] + sorted[1..];
      [sorted[0]] + Insert(sorted[1..], s)
  }

  function Sorted(ss: seq<Segment>): (r: seq<Segment>)
    ensures multiset(r) == multiset(ss)
  {
    if ss == [] then []
    else
      assert ss == ss[..|ss| - 1] + [ss[|ss| - 1]];
      Insert(Sorted(ss[..|ss| - 1]), ss[|ss| - 1])
  }

  /** Each segment ends before the next one starts. */
  predicate Stacked(ss: seq<Segment>) { forall i :: 0 <= i < |ss| - 1 ==> End(ss[i]) <= ss[i + 1].pa }

  function End(s: Segment): int { s.pa + s.memory }

  /** Adjacent non-overlap is enough: all segments are disjoint, and the last ends last. */
  lemma {:induction false} StackedDisjoint(ss: seq<Segment>, i: nat, j: nat)
    requires Stacked(ss) && i < j < |ss|
    ensures End(ss[i]) <= ss[j].pa && End(ss[i]) <= End(ss[j])
    decreases j - i
  {
    assert End(ss[i]) <= ss[i + 1].pa;
    if i + 1 < j { StackedDisjoint(ss, i + 1, j); }
  }

  predicate Entered(m: Reservation, ss: seq<Segment>) {
    ss != [] && ss[0].pa == m.base && Bit(ss[0].flags, 1) && |ss[0].content| >= 4
  }

  // ---------- payload ----------

  /** A segment takes part in the file when it has bytes, and in the ordinary contract always. */
  predicate Counted(m: Reservation, s: Segment) { s.content != [] || !m.privateP2 }

  function FileEnd(m: Reservation, ss: seq<Segment>): int {
    if ss == [] then m.base
    else
      var rest := FileEnd(m, ss[..|ss| - 1]);
      var s := ss[|ss| - 1];
      if Counted(m, s) && s.pa + |s.content| > rest then s.pa + |s.content| else rest
  }

  lemma {:induction false} FileEndBounds(m: Reservation, ss: seq<Segment>, i: nat)
    requires i < |ss| && Counted(m, ss[i])
    ensures ss[i].pa + |ss[i].content| <= FileEnd(m, ss)
    decreases |ss|
  {
    if i < |ss| - 1 { FileEndBounds(m, ss[..|ss| - 1], i); }
  }

  /** An offset of the payload that belongs to one of the first n segments. */
  ghost predicate Covered(m: Reservation, ss: seq<Segment>, n: nat, at: int) {
    exists i :: 0 <= i < n && i < |ss| && ss[i].pa <= m.base + at < ss[i].pa + |ss[i].content|
  }

  predicate ReadsBack(m: Reservation, payload: Bytes, s: Segment) {
    var from := s.pa - m.base;
    s.content != [] ==> 0 <= from && from + |s.content| <= |payload| && payload[from..from + |s.content|] == s.content
  }

  /** The first n segments read back exactly; everything else is zero. */
  ghost predicate Painted(m: Reservation, ss: seq<Segment>, n: nat, payload: Bytes) {
    && |payload| == FileEnd(m, ss) - m.base
    && (forall i :: 0 <= i < n && i < |ss| ==> ReadsBack(m, payload, ss[i]))
    && forall at :: 0 <= at < |payload| && !Covered(m, ss, n, at) ==> payload[at] == 0
  }

  /** These facts leave no byte open. */
  lemma PaintedUnique(m: Reservation, ss: seq<Segment>, p: Bytes, q: Bytes)
    requires Painted(m, ss, |ss|, p) && Painted(m, ss, |ss|, q)
    ensures p == q
  {
    forall at | 0 <= at < |p| ensures p[at] == q[at] {
      if Covered(m, ss, |ss|, at) {
        var i :| 0 <= i < |ss| && ss[i].pa <= m.base + at < ss[i].pa + |ss[i].content|;
        ReadByte(m, ss, p, i, at);
        ReadByte(m, ss, q, i, at);
      }
    }
  }

  lemma ReadByte(m: Reservation, ss: seq<Segment>, p: Bytes, i: nat, at: nat)
    requires Painted(m, ss, |ss|, p) && i < |ss| && at < |p| && ss[i].pa <= m.base + at < ss[i].pa + |ss[i].content|
    ensures p[at] == ss[i].content[m.base + at - ss[i].pa]
  {
    var s := ss[i];
    assert ReadsBack(m, p, s);
    var from := s.pa - m.base;
    assert p[from..from + |s.content|][at - from] == p[at];
  }

  /** Copying one more segment into place. */
  function Overwritten(payload: Bytes, from: int, content: Bytes): Bytes
    requires 0 <= from && from + |content| <= |payload|
  {
    payload[..from] + content + payload[from + |content|..]
  }

  lemma PaintOne(m: Reservation, ss: seq<Segment>, n: nat, payload: Bytes)
    requires Stacked(ss) && n < |ss| && Painted(m, ss, n, payload) && AllSound(m, ss)
    ensures ss[n].content == [] ==> Painted(m, ss, n + 1, payload)
    ensures ss[n].content != [] ==> 0 <= ss[n].pa - m.base && ss[n].pa - m.base + |ss[n].content| <= |payload|
    ensures ss[n].content != [] ==>
      Painted(m, ss, n + 1, Overwritten(payload, ss[n].pa - m.base, ss[n].content))
  {
    hide Physical1, FileEnd, ReadsBack, Covered, Overwritten;
    if ss[n].content == [] {
      PaintNothing(m, ss, n, payload);
    } else {
      SegmentFits(m, ss, n);
      forall i | 0 <= i < n + 1 ensures ReadsBack(m, Overwritten(payload, ss[n].pa - m.base, ss[n].content), ss[i]) {
        if i < n { assert ReadsBack(m, payload, ss[i]); }
        StillReads(m, ss, n, payload, i);
      }
      ElsewhereZero(m, ss, n, payload);
    }
  }

  lemma PaintNothing(m: Reservation, ss: seq<Segment>, n: nat, payload: Bytes)
    requires n < |ss| && Painted(m, ss, n, payload) && ss[n].content == []
    ensures Painted(m, ss, n + 1, payload)
  {
    hide Physical1, FileEnd;
    forall at | 0 <= at < |payload| && !Covered(m, ss, n + 1, at) ensures payload[at] == 0 {
      assert !Covered(m, ss, n, at);
    }
  }

  lemma SegmentFits(m: Reservation, ss: seq<Segment>, n: nat)
    requires n < |ss| && AllSound(m, ss) && ss[n].content != []
    ensures m.base <= ss[n].pa && ss[n].pa + |ss[n].content| <= FileEnd(m, ss)
  {
    hide Physical1, FileEnd;
    FileEndBounds(m, ss, n);
  }

  /** The new segment reads back, and so do the earlier ones, which end before it. */
  lemma StillReads(m: Reservation, ss: seq<Segment>, n: nat, payload: Bytes, i: nat)
    requires Stacked(ss) && i <= n < |ss| && AllSound(m, ss) && (i < n ==> ReadsBack(m, payload, ss[i]))
    requires 0 <= ss[n].pa - m.base && ss[n].pa - m.base + |ss[n].content| <= |payload|
    ensures ReadsBack(m, Overwritten(payload, ss[n].pa - m.base, ss[n].content), ss[i])
  {
    hide Physical1, FileEnd, Stacked, Overwritten;
    var s, from := ss[n], ss[n].pa - m.base;
    OverwrittenAt(payload, from, s.content);
    if i < n && ss[i].content != [] {
      StackedDisjoint(ss, i, n);
      assert Sound(m, ss[i]);
      KeptBefore(payload, from, s.content, ss[i].pa - m.base, ss[i].pa - m.base + |ss[i].content|);
    }
  }

  lemma OverwrittenAt(payload: Bytes, from: int, content: Bytes)
    requires 0 <= from && from + |content| <= |payload|
    ensures var after := Overwritten(payload, from, content);
      && |after| == |payload| && after[from..from + |content|] == content
      && forall at :: 0 <= at < |after| && !(from <= at < from + |content|) ==> after[at] == payload[at]
  {
  }

  lemma ElsewhereZero(m: Reservation, ss: seq<Segment>, n: nat, payload: Bytes)
    requires n < |ss| && 0 <= ss[n].pa - m.base && ss[n].pa - m.base + |ss[n].content| <= |payload|
    requires forall at :: 0 <= at < |payload| && !Covered(m, ss, n, at) ==> payload[at] == 0
    ensures var after := Overwritten(payload, ss[n].pa - m.base, ss[n].content);
      |after| == |payload| && forall at :: 0 <= at < |after| && !Covered(m, ss, n + 1, at) ==> after[at] == 0
  {
    hide Overwritten;
    var from := ss[n].pa - m.base;
    OverwrittenAt(payload, from, ss[n].content);
    var after := Overwritten(payload, from, ss[n].content);
    forall at | 0 <= at < |after| && !Covered(m, ss, n + 1, at) ensures after[at] == 0 {
      assert !Covered(m, ss, n, at) && !(from <= at < from + |ss[n].content|);
    }
  }

  lemma KeptBefore(payload: Bytes, from: int, content: Bytes, low: int, high: int)
    requires 0 <= low <= high <= from && from + |content| <= |payload|
    ensures Overwritten(payload, from, content)[low..high] == payload[low..high]
  {
  }

  /** Paint the payload in place, segment after segment. */
  method Flatten(m: Reservation, ss: seq<Segment>) returns (payload: Bytes)
    requires Stacked(ss) && AllSound(m, ss)
    requires FileEnd(m, ss) >= m.base
    ensures Painted(m, ss, |ss|, payload)
  {
    hide FileEnd, Sound, Stacked, Painted, Overwritten;
    var bytes := new Byte[FileEnd(m, ss) - m.base](_ => 0);
    NothingPainted(m, ss, bytes[..]);
    for n := 0 to |ss|
      invariant Painted(m, ss, n, bytes[..])
    {
      PaintOne(m, ss, n, bytes[..]);
      var from, content := ss[n].pa - m.base, ss[n].content;
      if content != [] { Copy(bytes, from, content); }
    }
    payload := bytes[..];
  }

  method Copy(bytes: array<Byte>, from: int, content: Bytes)
    requires 0 <= from && from + |content| <= bytes.Length
    modifies bytes
    ensures bytes[..] == Overwritten(old(bytes[..]), from, content)
  {
    forall i | 0 <= i < |content| {
      bytes[from + i] := content[i];
    }
  }

  lemma NothingPainted(m: Reservation, ss: seq<Segment>, payload: Bytes)
    requires |payload| == FileEnd(m, ss) - m.base && forall at :: 0 <= at < |payload| ==> payload[at] == 0
    ensures Painted(m, ss, 0, payload)
  {
  }

  // ---------- sections ----------

  /** The section's address range lies in this segment. */
  predicate Holds(s: Segment, x: Section, size: nat) { s.va <= x.address && x.address + x.size <= s.va + size }

  predicate Initialized(x: Section) { Bit(x.flags, 2) && x.size > 0 && x.kind != NOBITS }

  /** Some segment loads exactly these bytes for the section. */
  predicate LoadsFrom(ss: seq<Segment>, x: Section, bytes: Bytes)
    requires |bytes| == x.size
  {
    exists i :: 0 <= i < |ss| && Holds(ss[i], x, |ss[i].content|)
      && bytes == ss[i].content[x.address - ss[i].va..x.address - ss[i].va + x.size]
  }

  /** The checks on one section header. */
  predicate Placed(data: Bytes, m: Reservation, ss: seq<Segment>, x: Section) {
    && !Bit(x.flags, 0x400)
    && (Bit(x.flags, 2) && x.size > 0 ==>
          && m.base <= Physical1(m, x.address) && Physical1(m, x.address) + x.size <= m.limit
          && (m.privateP2 ==> PrivatelyPlaced(data, m, ss, x)))
  }

  predicate PrivatelyPlaced(data: Bytes, m: Reservation, ss: seq<Segment>, x: Section) {
    && (Bit(x.flags, 1) <==> InP2(m, x.address)) && !(InP2(m, x.address) && Bit(x.flags, 4))
    && (exists i :: 0 <= i < |ss| && Holds(ss[i], x, ss[i].memory))
    && (x.kind != NOBITS ==> var bytes := Region(data, x.offset, x.size); bytes.Some? && LoadsFrom(ss, x, bytes.value))
  }

  /** A P1 reservation lies below its own uncached view. */
  predicate Canonical(m: Reservation) { m.privateP2 ==> 0x8c00_0000 <= m.base < m.limit <= 0x8d00_0000 }

  /** A private initialized section is in the payload, byte for byte, at its physical offset. */
  lemma SectionInPayload(data: Bytes, m: Reservation, ss: seq<Segment>, x: Section, payload: Bytes)
    requires Canonical(m) && m.privateP2 && Painted(m, ss, |ss|, payload) && AllSound(m, ss)
    requires Placed(data, m, ss, x) && Initialized(x)
    ensures var at := Physical1(m, x.address) - m.base;
      && 0 <= at && at + x.size <= |payload| && x.offset + x.size <= |data|
      && payload[at..at + x.size] == data[x.offset..x.offset + x.size]
  {
    hide FileEnd, Covered, Physical1, InP2, Sound, Bit, Canonical, Placed;
    var i := LoadedBy(data, m, ss, x);
    SamePlane(m, ss[i], x);
    assert ReadsBack(m, payload, ss[i]);
    SliceInPayload(m, payload, ss[i], x.address - ss[i].va, x.size);
  }

  /** The segment that loads a private initialized section. */
  lemma LoadedBy(data: Bytes, m: Reservation, ss: seq<Segment>, x: Section) returns (i: nat)
    requires m.privateP2 && Placed(data, m, ss, x) && Initialized(x)
    ensures i < |ss| && Holds(ss[i], x, |ss[i].content|) && x.offset + x.size <= |data|
    ensures data[x.offset..x.offset + x.size] == ss[i].content[x.address - ss[i].va..x.address - ss[i].va + x.size]
  {
    hide Physical1, InP2, Bit;
    var bytes := Region(data, x.offset, x.size).value;
    i :| 0 <= i < |ss| && Holds(ss[i], x, |ss[i].content|)
      && bytes == ss[i].content[x.address - ss[i].va..x.address - ss[i].va + x.size];
  }

  lemma SliceInPayload(m: Reservation, payload: Bytes, s: Segment, skip: int, size: nat)
    requires ReadsBack(m, payload, s) && s.content != [] && 0 <= skip && skip + size <= |s.content|
    ensures payload[s.pa - m.base + skip..s.pa - m.base + skip + size] == s.content[skip..skip + size]
  {
    var from := s.pa - m.base;
    SliceOfSlice(payload, from, from + |s.content|, skip, skip + size);
  }

  /** A section keeps its segment's distance from runtime to physical address. */
  lemma SamePlane(m: Reservation, s: Segment, x: Section)
    requires Canonical(m) && m.privateP2 && Sound(m, s) && Holds(s, x, |s.content|) && x.size > 0
    ensures Physical1(m, x.address) - s.pa == x.address - s.va
  {
  }

  // ---------- the inspection ----------

  function MemoryEnd(ss: seq<Segment>): int
    requires ss != []
  {
    if |ss| == 1 then End(ss[0])
    else
      var rest := MemoryEnd(ss[..|ss| - 1]);
      if End(ss[|ss| - 1]) > rest then End(ss[|ss| - 1]) else rest
  }

  /** The greatest end is the last segment's, within the limit. */
  lemma {:induction false} MemoryEndIsLast(m: Reservation, ss: seq<Segment>)
    requires ss != [] && Stacked(ss) && AllSound(m, ss)
    ensures MemoryEnd(ss) == End(ss[|ss| - 1]) <= m.limit
    decreases |ss|
  {
    assert Sound(m, ss[|ss| - 1]);
    if |ss| > 1 {
      var front := ss[..|ss| - 1];
      assert forall i :: 0 <= i < |front| - 1 ==> End(front[i]) <= front[i + 1].pa by {
        forall i | 0 <= i < |front| - 1 ensures End(front[i]) <= front[i + 1].pa { assert End(ss[i]) <= ss[i + 1].pa; }
      }
      MemoryEndIsLast(m, front);
      StackedDisjoint(ss, |ss| - 2, |ss| - 1);
    }
  }

  /** The header's entry, whether it must be the base, and the entry symbol's value if it has one. */
  datatype Entry = Entry(address: int, atBase: bool, symbol: Option<int>)

  /** The symbol names the entry; a private image enters initialized executable bytes. */
  predicate Starts(m: Reservation, ss: seq<Segment>, e: Entry) {
    && e.symbol == Some(e.address) && (e.atBase ==> e.address == m.base)
    && (m.privateP2 ==> exists i :: 0 <= i < |ss| && Runs(ss[i], e.address))
  }

  predicate Runs(s: Segment, a: int) { Bit(s.flags, 1) && s.va <= a < s.va + |s.content| }

  /** Everything the inspection asks of segments, sections and entry. */
  ghost predicate Accepted(data: Bytes, m: Reservation, hs: seq<Program>, xs: seq<Section>, e: Entry) {
    && Canonical(m) && Segments(data, m, hs).Some?
    && var ss := Sorted(Segments(data, m, hs).value);
       Entered(m, ss) && Stacked(ss) && Starts(m, ss, e) && forall i :: 0 <= i < |xs| ==> Placed(data, m, ss, xs[i])
  }

  /** Accepted exactly when all checks hold; then the payload is every segment with zeros between, and
      the image ends within its reservation. */
  method Inspect(data: Bytes, m: Reservation, hs: seq<Program>, xs: seq<Section>, e: Entry)
    returns (r: Option<(Bytes, int)>)
    ensures r.Some? <==> Accepted(data, m, hs, xs, e)
    ensures r.Some? ==> var ss := Sorted(Segments(data, m, hs).value);
      && Painted(m, ss, |ss|, r.value.0) && AllSound(m, ss)
      && m.base + |r.value.0| <= r.value.1 == End(ss[|ss| - 1]) <= m.limit
  {
    hide Segments, Sorted, Placed, Painted, Stacked, FileEnd, MemoryEnd, AllSound, Canonical, Starts;
    if !Canonical(m) { return None; }
    var loaded := Segments(data, m, hs);
    if loaded.None? { return None; }
    var ss := Sorted(loaded.value);
    if !Entered(m, ss) || !Stacked(ss) { return None; }
    SortedSound(data, m, hs);
    FileEndWithin(m, ss);
    var payload := Flatten(m, ss);
    for i := 0 to |xs|
      invariant forall k :: 0 <= k < i ==> Placed(data, m, ss, xs[k])
    {
      if !Placed(data, m, ss, xs[i]) { return None; }
    }
    if !Starts(m, ss, e) { return None; }
    MemoryEndIsLast(m, ss);
    PaintedSize(m, ss, payload);
    r := Some((payload, MemoryEnd(ss)));
  }

  lemma SortedSound(data: Bytes, m: Reservation, hs: seq<Program>)
    requires Segments(data, m, hs).Some?
    ensures var ss := Sorted(Segments(data, m, hs).value); AllSound(m, ss)
  {
    hide Segments, Sorted, Sound;
    var loaded := Segments(data, m, hs).value;
    var ss := Sorted(loaded);
    forall i | 0 <= i < |ss| ensures Sound(m, ss[i]) {
      assert ss[i] in multiset(ss) && ss[i] in multiset(loaded);
      SegmentsSound(data, m, hs, ss[i]);
    }
  }

  lemma PaintedSize(m: Reservation, ss: seq<Segment>, payload: Bytes)
    requires Painted(m, ss, |ss|, payload)
    ensures |payload| == FileEnd(m, ss) - m.base
  {
  }

  /** The file ends within the memory. */
  lemma FileEndWithin(m: Reservation, ss: seq<Segment>)
    requires Entered(m, ss) && Stacked(ss) && AllSound(m, ss)
    ensures m.base <= FileEnd(m, ss) <= End(ss[|ss| - 1])
  {
    hide Sound, FileEnd;
    FileEndBounds(m, ss, 0);
    FileEndBelow(m, ss, |ss|);
  }

  lemma {:induction false} FileEndBelow(m: Reservation, ss: seq<Segment>, n: nat)
    requires 0 < n <= |ss| && Stacked(ss) && ss[0].pa == m.base && AllSound(m, ss)
    ensures FileEnd(m, ss[..n]) <= End(ss[n - 1]) && FileEnd(m, ss) == FileEnd(m, ss[..|ss|])
    decreases n
  {
    assert ss[..|ss|] == ss;
    assert ss[..n][..n - 1] == ss[..n - 1];
    assert Sound(m, ss[n - 1]);
    if n > 1 {
      FileEndBelow(m, ss, n - 1);
      StackedDisjoint(ss, n - 2, n - 1);
    } else {
      assert ss[..0] == [];
    }
  }
}
