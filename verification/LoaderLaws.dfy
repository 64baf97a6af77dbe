/** The layout checks by bytes: each says which addresses of a segment, section or entry must lie where. */
module LoaderLaws {
  import opened Words
  import opened LoaderLayout

  predicate Among(at: int, low: int, size: int) { low <= at < low + size }

  lemma RangeEnds(start: int, size: nat, low: int, bytes: int)
    requires size > 0
    ensures (forall at :: Among(at, start, size) ==> Among(at, low, bytes)) <==>
      low <= start && start + size <= low + bytes
  {
    assert Among(start, start, size) && Among(start + size - 1, start, size);
  }

  /** Exactly `count` bytes from `offset` on, all of them in the file. */
  lemma RegionExactly(data: Bytes, offset: int, bytes: Bytes)
    ensures Region(data, offset, |bytes|) == Some(bytes) <==>
      0 <= offset && offset + |bytes| <= |data| && forall i :: 0 <= i < |bytes| ==> bytes[i] == data[offset + i]
  {
    if 0 <= offset && offset + |bytes| <= |data| {
      var part := data[offset..offset + |bytes|];
      assert forall i :: 0 <= i < |bytes| ==> part[i] == data[offset + i];
      if forall i :: 0 <= i < |bytes| ==> bytes[i] == data[offset + i] { assert part == bytes; }
    }
  }

  lemma FlagDigit2(flags: nat)
    ensures flags / 2 % 2 == 1 <==> flags % 4 >= 2
  {
    assert flags / 2 == 2 * (flags / 4) + flags % 4 / 2;
  }

  lemma FlagDigit4(flags: nat)
    ensures flags / 4 % 2 == 1 <==> flags % 8 >= 4
  {
    assert flags / 4 == 2 * (flags / 8) + flags % 8 / 4;
  }

  lemma FlagDigit1024(flags: nat)
    ensures flags / 1024 % 2 == 1 <==> flags % 2048 >= 1024
  {
    assert flags / 1024 == 2 * (flags / 2048) + flags % 2048 / 1024;
  }

  /** Executable or writable, allocated, and the like: one binary digit of the flags. */
  lemma FlagDigits(flags: nat)
    ensures Bit(flags, 1) <==> flags % 2 == 1
    ensures Bit(flags, 2) <==> flags % 4 >= 2
    ensures Bit(flags, 4) <==> flags % 8 >= 4
    ensures Bit(flags, 0x400) <==> flags % 2048 >= 1024
  {
    hide Bit;
    FlagDigit2(flags);
    FlagDigit4(flags);
    FlagDigit1024(flags);
    BitIs(flags, 1);
    BitIs(flags, 2);
    BitIs(flags, 4);
    BitIs(flags, 1024);
  }

  lemma BitIs(flags: nat, unit: nat)
    requires unit > 0
    ensures Bit(flags, unit) <==> flags / unit % 2 == 1
  {
  }

  /** An uncached address whose cached twin lies in the reservation. */
  predicate Twin(m: Reservation, a: int) { Among(a - 0x2000_0000, m.base, m.limit - m.base) }

  /** The bytes of a load segment at their cached addresses. */
  function Cached(m: Reservation, a: int): int { if m.privateP2 && Twin(m, a) then a - 0x2000_0000 else a }

  /** A load segment is admitted exactly when all its memory lies in the reservation at its cached address, the
      file fills no more than that, and private uncached memory is writable data on a cache line. */
  lemma AdmittedExactly(m: Reservation, h: Program)
    ensures Admitted(m, h) <==>
      && h.pa == Cached(m, h.va) && h.memory > 0 && h.memory >= h.size
      && (forall at :: Among(at, h.pa, h.memory) ==> Among(at, m.base, m.limit - m.base))
      && (m.privateP2 && Twin(m, h.va) ==> h.flags % 2 == 0 && h.flags % 4 >= 2 && h.pa % 32 == 0)
  {
    FlagDigits(h.flags);
    if h.memory > 0 { RangeEnds(h.pa, h.memory, m.base, m.limit - m.base); }
  }

  /** Dynamic, interpreted and thread-local images are refused; every other header is ignored or an admitted load
      segment with its bytes in the file. */
  predicate Loadable(data: Bytes, m: Reservation, h: Program) {
    h.kind != 2 && h.kind != 3 && h.kind != 7 && (h.kind == 1 ==> Admitted(m, h) && h.offset + h.size <= |data|)
  }

  function LoadedOf(data: Bytes, h: Program): seq<Segment> {
    if h.kind == 1 && h.offset + h.size <= |data|
    then [Segment(h.pa, h.va, h.memory, h.flags, data[h.offset..h.offset + h.size])] else []
  }

  function LoadedAll(data: Bytes, hs: seq<Program>): seq<Segment> {
    if hs == [] then [] else LoadedOf(data, hs[0]) + LoadedAll(data, hs[1..])
  }

  lemma {:induction false} SegmentsExactly(data: Bytes, m: Reservation, hs: seq<Program>)
    ensures Segments(data, m, hs).Some? <==> forall i :: 0 <= i < |hs| ==> Loadable(data, m, hs[i])
    ensures Segments(data, m, hs).Some? ==> Segments(data, m, hs).value == LoadedAll(data, hs)
    decreases |hs|
  {
    hide Admitted;
    if hs != [] {
      SegmentsExactly(data, m, hs[1..]);
      assert forall i :: 1 <= i < |hs| ==> hs[i] == hs[1..][i - 1];
      if forall i :: 0 <= i < |hs| ==> Loadable(data, m, hs[i]) {
        assert Loadable(data, m, hs[0]);
        forall i | 0 <= i < |hs| - 1 ensures Loadable(data, m, hs[1..][i]) { assert Loadable(data, m, hs[i + 1]); }
      }
      if Segments(data, m, hs).Some? {
        assert Loadable(data, m, hs[0]);
        forall i | 0 <= i < |hs| ensures Loadable(data, m, hs[i]) {
          if i > 0 { assert Loadable(data, m, hs[1..][i - 1]); }
        }
      }
    }
  }

  /** Every byte of the section is one of the segment's first `size`. */
  ghost predicate Contains(s: Segment, x: Section, size: nat) {
    forall at :: Among(at, x.address, x.size) ==> Among(at, s.va, size)
  }

  lemma HoldsExactly(s: Segment, x: Section, size: nat)
    requires x.size > 0
    ensures Holds(s, x, size) <==> Contains(s, x, size)
  {
    RangeEnds(x.address, x.size, s.va, size);
  }

  /** A section header passes exactly when it is not thread-local and, if it is allocated and not empty, all its
      bytes lie in the reservation, and in a private image: writable means uncached and not executable, some
      segment has all its memory, and unless it is NOBITS some segment loads it as the file stores it. */
  lemma PlacedExactly(data: Bytes, m: Reservation, ss: seq<Segment>, x: Section)
    ensures Placed(data, m, ss, x) <==>
      && x.flags % 2048 < 1024
      && (x.flags % 4 >= 2 && x.size > 0 ==>
            && (forall at :: Among(at, Cached(m, x.address), x.size) ==> Among(at, m.base, m.limit - m.base))
            && (m.privateP2 ==> PrivateRules(data, m, ss, x)))
  {
    hide PrivatelyPlaced, PrivateRules;
    FlagDigits(x.flags);
    if x.size > 0 {
      RangeEnds(Cached(m, x.address), x.size, m.base, m.limit - m.base);
      PrivateExactly(data, m, ss, x);
    }
  }

  ghost predicate PrivateRules(data: Bytes, m: Reservation, ss: seq<Segment>, x: Section) {
    && (x.flags % 2 == 1 <==> Twin(m, x.address)) && (Twin(m, x.address) ==> x.flags % 8 < 4)
    && (exists s :: s in ss && Contains(s, x, s.memory))
    && (x.kind != 8 ==>
          x.offset + x.size <= |data| && exists s :: s in ss && Loads(s, x, data[x.offset..x.offset + x.size]))
  }

  /** The segment's file bytes hold the section, each where it belongs. */
  ghost predicate Loads(s: Segment, x: Section, bytes: Bytes)
    requires |bytes| == x.size
  {
    Contains(s, x, |s.content|) && forall i :: 0 <= i < |bytes| ==> LoadsByte(s, x, bytes, i)
  }

  predicate LoadsByte(s: Segment, x: Section, bytes: Bytes, i: nat)
    requires i < |bytes|
  {
    var at := x.address - s.va + i; 0 <= at < |s.content| && s.content[at] == bytes[i]
  }

  lemma LoadsExactly(s: Segment, x: Section, bytes: Bytes)
    requires |bytes| == x.size > 0
    ensures Loads(s, x, bytes) <==>
      Holds(s, x, |s.content|) && bytes == s.content[x.address - s.va..x.address - s.va + x.size]
  {
    HoldsExactly(s, x, |s.content|);
    if Holds(s, x, |s.content|) {
      var part := s.content[x.address - s.va..x.address - s.va + x.size];
      if bytes == part {
        forall i | 0 <= i < |bytes| ensures LoadsByte(s, x, bytes, i) { assert part[i] == bytes[i]; }
      }
      if Loads(s, x, bytes) {
        forall i | 0 <= i < |bytes| ensures part[i] == bytes[i] { assert LoadsByte(s, x, bytes, i); }
      }
    }
  }

  lemma SomeContains(ss: seq<Segment>, x: Section)
    requires x.size > 0
    ensures (exists i :: 0 <= i < |ss| && Holds(ss[i], x, ss[i].memory)) <==>
      exists s :: s in ss && Contains(s, x, s.memory)
  {
    hide Contains, Holds;
    forall s: Segment ensures Holds(s, x, s.memory) <==> Contains(s, x, s.memory) { HoldsExactly(s, x, s.memory); }
    if exists s :: s in ss && Contains(s, x, s.memory) {
      var s :| s in ss && Contains(s, x, s.memory);
      var i :| 0 <= i < |ss| && ss[i] == s;
      assert Holds(ss[i], x, ss[i].memory);
    }
  }

  lemma SomeLoads(ss: seq<Segment>, x: Section, bytes: Bytes)
    requires |bytes| == x.size > 0
    ensures LoadsFrom(ss, x, bytes) <==> exists s :: s in ss && Loads(s, x, bytes)
  {
    hide Loads;
    forall i | 0 <= i < |ss| ensures Loads(ss[i], x, bytes) <==>
      (Holds(ss[i], x, |ss[i].content|)
       && bytes == ss[i].content[x.address - ss[i].va..x.address - ss[i].va + x.size])
    {
      LoadsExactly(ss[i], x, bytes);
    }
    if exists s :: s in ss && Loads(s, x, bytes) {
      var s :| s in ss && Loads(s, x, bytes);
      var i :| 0 <= i < |ss| && ss[i] == s;
      assert Loads(ss[i], x, bytes);
    }
    if LoadsFrom(ss, x, bytes) {
      var i :| 0 <= i < |ss| && Holds(ss[i], x, |ss[i].content|)
        && bytes == ss[i].content[x.address - ss[i].va..x.address - ss[i].va + x.size];
      assert Loads(ss[i], x, bytes);
    }
  }

  lemma PrivateExactly(data: Bytes, m: Reservation, ss: seq<Segment>, x: Section)
    requires x.size > 0
    ensures PrivatelyPlaced(data, m, ss, x) <==> PrivateRules(data, m, ss, x)
  {
    hide Contains, Holds, Loads, LoadsFrom;
    FlagDigits(x.flags);
    SomeContains(ss, x);
    if x.offset + x.size <= |data| { SomeLoads(ss, x, data[x.offset..x.offset + x.size]); }
  }

  /** The entry is what the symbol says and, if asked, the base; in a private image some segment's executable file
      bytes include it. */
  lemma StartsExactly(m: Reservation, ss: seq<Segment>, e: Entry)
    ensures Starts(m, ss, e) <==>
      && e.symbol == Some(e.address) && (e.address != m.base ==> !e.atBase)
      && (m.privateP2 ==> exists s :: s in ss && s.flags % 2 == 1 && Among(e.address, s.va, |s.content|))
  {
    forall s: Segment ensures Runs(s, e.address) <==> s.flags % 2 == 1 && Among(e.address, s.va, |s.content|) {
      FlagDigits(s.flags);
    }
    if m.privateP2 && exists s :: s in ss && s.flags % 2 == 1 && Among(e.address, s.va, |s.content|) {
      var s :| s in ss && s.flags % 2 == 1 && Among(e.address, s.va, |s.content|);
      var i :| 0 <= i < |ss| && ss[i] == s;
    }
  }

  /** The first segment starts the reservation with at least four executable bytes. */
  lemma EnteredExactly(m: Reservation, ss: seq<Segment>)
    ensures Entered(m, ss) <==> |ss| > 0 && m.base == ss[0].pa && ss[0].flags % 2 == 1 && |ss[0].content| > 3
  {
    if ss != [] { FlagDigits(ss[0].flags); }
  }

  /** A private reservation is a stretch of the sixteen megabytes of cached main RAM. */
  lemma CanonicalExactly(m: Reservation)
    ensures !m.privateP2 ==> Canonical(m)
    ensures m.privateP2 ==> (Canonical(m) <==>
      (m.limit > m.base
       && forall at :: Among(at, m.base, m.limit - m.base) ==> Among(at, 0x8c00_0000, 16 * 1024 * 1024)))
  {
    if m.limit > m.base { RangeEnds(m.base, m.limit - m.base, 0x8c00_0000, 16 * 1024 * 1024); }
  }
}
